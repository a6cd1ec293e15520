/** The round-robin and least-connections balancers: one pick at a time, and how the picks
    share out over a run. */
module Balancer {

  import opened Wrappers
  import H = HealthChecks

  datatype Endpoint = Endpoint(url: string, status: H.Status)

  /** The counters are 64 bits wide and wrap. */
  const WRAP := 0x1_0000_0000_0000_0000

  function Routables(endpoints: seq<Endpoint>): (r: seq<Endpoint>)
    ensures forall e :: e in r <==> e in endpoints && H.IsRoutable(e.status)
  {
    if endpoints == [] then []
    else
      var last := endpoints[|endpoints| - 1];
      assert endpoints == endpoints[..|endpoints| - 1] + [last];
      Routables(endpoints[..|endpoints| - 1]) + if H.IsRoutable(last.status) then [last] else []
  }

  /** In their order. */
  lemma {:induction false} RoutablesInOrder(a: seq<Endpoint>, b: seq<Endpoint>)
    ensures Routables(a + b) == Routables(a) + Routables(b)
  {
    if b == [] {
      assert a + b == a;
    } else {
      var init, last := b[..|b| - 1], b[|b| - 1];
      RoutablesInOrder(a, init);
      assert b == init + [last];
      RoutablesBehind(a, init, last);
    }
  }

  lemma RoutablesBehind(a: seq<Endpoint>, b: seq<Endpoint>, next: Endpoint)
    requires Routables(a + b) == Routables(a) + Routables(b)
    ensures Routables(a + (b + [next])) == Routables(a) + Routables(b + [next])
  {
    RoutablesNext(a + b, next);
    RoutablesNext(b, next);
    Regrouped(a, b, [next]);
    Regrouped(Routables(a), Routables(b), if H.IsRoutable(next.status) then [next] else []);
  }

  lemma Regrouped(a: seq<Endpoint>, b: seq<Endpoint>, c: seq<Endpoint>)
    ensures a + (b + c) == a + b + c
  {
  }

  lemma RoutablesNext(s: seq<Endpoint>, next: Endpoint)
    ensures Routables(s + [next]) == Routables(s) + if H.IsRoutable(next.status) then [next] else []
  {
    assert (s + [next])[..|s|] == s;
  }

  method KeepRoutable(endpoints: seq<Endpoint>) returns (routable: seq<Endpoint>)
    ensures routable == Routables(endpoints)
  {
    routable := [];
    for i := 0 to |endpoints|
      invariant routable == Routables(endpoints[..i])
    {
      assert endpoints[..i + 1][..i] == endpoints[..i];
      if H.IsRoutable(endpoints[i].status) {
        routable := routable + [endpoints[i]];
      }
    }
    assert endpoints[..|endpoints|] == endpoints;
  }

  // ------------------------------------------------------- sharing out picks

  /** The position picked by the k-th of a run of picks among n, from a counter's value. */
  function Turn(counter: nat, k: nat, n: nat): nat
    requires n > 0
  {
    (counter + k) % WRAP % n
  }

  /** How many of the first picks fall on position i. */
  function Picks(counter: nat, picks: nat, n: nat, i: nat): nat
    requires n > 0
  {
    if picks == 0 then 0
    else Picks(counter, picks - 1, n, i) + if Turn(counter, picks - 1, n) == i then 1 else 0
  }

  /** How many numbers below m leave the remainder i. */
  function Below(m: nat, n: nat, i: nat): nat
    requires n > 0
  {
    if m == 0 then 0 else Below(m - 1, n, i) + if (m - 1) % n == i then 1 else 0
  }

  lemma Multiples(x: int, y: int, n: nat)
    ensures x < y ==> x * n + n <= y * n
  {
    if x < y {
      var d := y - x - 1;
      assert d * n >= 0;
      assert y * n == x * n + n + d * n;
    }
  }

  lemma Divides(a: nat, n: nat, q: int, r: nat)
    requires n > 0 && a == q * n + r && r < n
    ensures a / n == q && a % n == r
  {
    assert a == (a / n) * n + a % n;
    Multiples(a / n, q, n);
    Multiples(q, a / n, n);
  }

  lemma {:induction false} BelowIs(m: nat, n: nat, i: nat)
    requires i < n
    ensures Below(m, n, i) == (m + n - 1 - i) / n
  {
    if m == 0 {
      Divides(n - 1 - i, n, 0, n - 1 - i);
    } else {
      BelowIs(m - 1, n, i);
      RoundsUp(m - 1, n, i);
    }
  }

  lemma RoundsUp(m: nat, n: nat, i: nat)
    requires i < n
    ensures (m + n - i) / n == (m + n - 1 - i) / n + if m % n == i then 1 else 0
  {
    var q, r := m / n, m % n;
    assert m == q * n + r && (q + 1) * n == q * n + n;
    if r > i {
      Divides(m + n - 1 - i, n, q + 1, r - 1 - i);
      Divides(m + n - i, n, q + 1, r - i);
    } else if r == i {
      Divides(m + n - 1 - i, n, q, n - 1);
      Divides(m + n - i, n, q + 1, 0);
    } else {
      Divides(m + n - 1 - i, n, q, r + n - 1 - i);
      Divides(m + n - i, n, q, r + n - i);
    }
  }

  lemma TurnBeforeWrap(counter: nat, k: nat, n: nat)
    requires n > 0 && counter + k < WRAP
    ensures Turn(counter, k, n) == (counter + k) % n
  {
  }

  lemma {:induction false} PicksAreBelow(counter: nat, picks: nat, n: nat, i: nat)
    requires i < n && counter + picks <= WRAP
    ensures Picks(counter, picks, n, i) == Below(counter + picks, n, i) - Below(counter, n, i)
  {
    if picks > 0 {
      PicksAreBelow(counter, picks - 1, n, i);
      TurnBeforeWrap(counter, picks - 1, n);
    }
  }

  /** The quotient of a sum is that of its parts, and one more if their remainders make up
      another n. */
  lemma SumOfQuotients(a: nat, b: nat, n: nat)
    requires n > 0
    ensures (a + b) / n == a / n + b / n + if a % n + b % n < n then 0 else 1
  {
    var q, r, s, t := b / n, b % n, a / n, a % n;
    assert b == q * n + r && a == s * n + t;
    assert (q + s) * n == q * n + s * n;
    if r + t < n {
      Divides(a + b, n, q + s, r + t);
    } else {
      assert (q + s + 1) * n == (q + s) * n + n;
      Divides(a + b, n, q + s + 1, r + t - n);
    }
  }

  lemma QuotientRoundedUp(b: nat, n: nat)
    requires n > 0
    ensures (b + n - 1) / n == b / n + if b % n == 0 then 0 else 1
  {
    var q, r := b / n, b % n;
    assert b == q * n + r;
    if r == 0 {
      Divides(b + n - 1, n, q, n - 1);
    } else {
      assert (q + 1) * n == q * n + n;
      Divides(b + n - 1, n, q + 1, r - 1);
    }
  }

  lemma SpanHolds(a: nat, picks: nat, n: nat)
    requires n > 0
    ensures picks / n <= (a + picks) / n - a / n <= (picks + n - 1) / n
  {
    SumOfQuotients(a, picks, n);
    QuotientRoundedUp(picks, n);
  }

  /** A pick steps the counter by one, so the k-th pick of a run is the first pick from the
      counter's value at that point. */
  lemma RunsFollowTheCounter(counter: nat, k: nat, n: nat)
    requires n > 0
    ensures Turn((counter + k) % WRAP, 0, n) == Turn(counter, k, n)
    ensures ((counter + k) % WRAP + 1) % WRAP == (counter + k + 1) % WRAP
  {
  }

  /** The picks fall as evenly as they can: on each position, the quotient rounded down or
      up. */
  ghost predicate Fair(counter: nat, picks: nat, n: nat)
    requires n > 0
  {
    forall i: nat :: i < n ==> picks / n <= Picks(counter, picks, n, i) <= (picks + n - 1) / n
  }

  lemma FairBeforeWrap(counter: nat, picks: nat, n: nat)
    requires n > 0 && counter + picks <= WRAP
    ensures Fair(counter, picks, n)
  {
    forall i: nat | i < n ensures picks / n <= Picks(counter, picks, n, i) <= (picks + n - 1) / n {
      PicksAreBelow(counter, picks, n, i);
      BelowIs(counter, n, i);
      BelowIs(counter + picks, n, i);
      SpanHolds(counter + n - 1 - i, picks, n);
    }
  }

  /** With as many picks as positions every position is picked exactly once. */
  lemma EachOnce(counter: nat, n: nat, i: nat)
    requires i < n && counter + n <= WRAP
    ensures Picks(counter, n, n, i) == 1
  {
    FairBeforeWrap(counter, n, n);
    Divides(n, n, 1, 0);
    Divides(n + n - 1, n, 1, n - 1);
  }

  lemma {:induction false} PicksSplit(counter: nat, first: nat, second: nat, n: nat, i: nat)
    requires n > 0
    ensures Picks(counter, first + second, n, i) == Picks(counter, first, n, i) + Picks(counter + first, second, n, i)
  {
    if second > 0 {
      PicksSplit(counter, first, second - 1, n, i);
    }
  }

  lemma {:induction false} NoWrapIfDivides(counter: nat, picks: nat, n: nat, i: nat)
    requires i < n && WRAP % n == 0
    ensures Picks(counter, picks, n, i) == Below(counter + picks, n, i) - Below(counter, n, i)
  {
    if picks > 0 {
      NoWrapIfDivides(counter, picks - 1, n, i);
      ModMod(counter + picks - 1, WRAP, n);
    }
  }

  lemma ModMod(a: nat, w: nat, n: nat)
    requires n > 0 && w > 0 && w % n == 0
    ensures a % w % n == a % n
  {
    assert a == (a / w) * w + a % w && w == (w / n) * n;
    AddMultiple(a / w, w / n, a % w, n);
  }

  lemma AddMultiple(q: nat, k: nat, r: nat, n: nat)
    requires n > 0
    ensures (q * (k * n) + r) % n == r % n
  {
    var s, t := r / n, r % n;
    assert r == s * n + t;
    Distribute(q, k, s, n);
    Divides(q * (k * n) + r, n, q * k + s, t);
  }

  lemma Distribute(q: nat, k: nat, s: nat, n: nat)
    ensures q * (k * n) + s * n == (q * k + s) * n
  {
  }

  /** Across the wrap the picks stay fair, for every counter and every number of picks, if
      and only if the number of positions divides 2^64. */
  lemma FairAlwaysIff(n: nat)
    requires 0 < n <= WRAP
    ensures (forall counter: nat, picks: nat :: counter < WRAP ==> Fair(counter, picks, n)) <==> WRAP % n == 0
  {
    if WRAP % n == 0 {
      forall counter: nat, picks: nat | counter < WRAP ensures Fair(counter, picks, n) {
        forall i: nat | i < n ensures picks / n <= Picks(counter, picks, n, i) <= (picks + n - 1) / n {
          NoWrapIfDivides(counter, picks, n, i);
          BelowIs(counter, n, i);
          BelowIs(counter + picks, n, i);
          SpanHolds(counter + n - 1 - i, picks, n);
        }
      }
    } else {
      UnfairAtWrap(n);
    }
  }

  /** The last round before the wrap is cut short, and the position it began with is picked
      again at once. */
  lemma UnfairAtWrap(n: nat)
    requires 0 < n <= WRAP && WRAP % n != 0
    ensures var r := WRAP % n; r < n && Picks(WRAP - r, r + 1, n, 0) >= 2 && !Fair(WRAP - r, r + 1, n)
  {
    var r := WRAP % n;
    ShortRound(n, r);
    PicksSplit(WRAP - r, 1, r - 1, n, 0);
    PicksSplit(WRAP - r, r, 1, n, 0);
    assert Picks(WRAP - r, 1, n, 0) == 1 && Picks(WRAP, 1, n, 0) == 1;
    Divides(r + n, n, 1, r);
  }

  lemma ShortRound(n: nat, r: nat)
    requires 0 < n <= WRAP && r == WRAP % n && r != 0
    ensures Turn(WRAP - r, 0, n) == 0 && Turn(WRAP, 0, n) == 0
  {
    var q := WRAP / n;
    assert WRAP == q * n + r;
    Divides(WRAP - r, n, q, 0);
    TurnBeforeWrap(WRAP - r, 0, n);
  }

  /** Adding one and taking one off again gives the value before, also at the wrap. */
  lemma StepsBack(counter: nat)
    requires counter < WRAP
    ensures ((counter + 1) % WRAP + WRAP - 1) % WRAP == counter
    ensures counter % WRAP == counter
  {
  }

  // -------------------------------------------------------------- round robin

  class RoundRobinSelector {
    var counter: nat

    constructor ()
      ensures counter == 0
    {
      counter := 0;
    }

    /** None, and no step, without a routable endpoint. */
    method Select(endpoints: seq<Endpoint>) returns (r: Option<Endpoint>)
      requires counter < WRAP
      modifies this
      ensures counter < WRAP
      ensures var routable := Routables(endpoints);
              if routable == [] then r == None && counter == old(counter)
              else r == Some(routable[Turn(old(counter), 0, |routable|)]) && counter == (old(counter) + 1) % WRAP
    {
      if |endpoints| == 0 {
        return None;
      }
      var routable := KeepRoutable(endpoints);
      if |routable| == 0 {
        return None;
      }
      StepsBack(counter);
      counter := (counter + 1) % WRAP;
      var current := (counter + WRAP - 1) % WRAP;
      r := Some(routable[current % |routable|]);
    }
  }

  // -------------------------------------------------------- least connections

  function Count(connections: map<string, int>, e: Endpoint): int {
    if e.url in connections then connections[e.url] else 0
  }

  /** The endpoints tied for the least count so far, and that count, which is -1 before the
      first. */
  function Tied(connections: map<string, int>, routable: seq<Endpoint>): (seq<Endpoint>, int) {
    if routable == [] then ([], -1)
    else
      var (tied, least) := Tied(connections, routable[..|routable| - 1]);
      var last := routable[|routable| - 1];
      var count := Count(connections, last);
      if least == -1 || count < least then ([last], count)
      else if count == least then (tied + [last], least)
      else (tied, least)
  }

  function WithCount(connections: map<string, int>, routable: seq<Endpoint>, count: int): seq<Endpoint> {
    if routable == [] then []
    else
      var last := routable[|routable| - 1];
      WithCount(connections, routable[..|routable| - 1], count) + if Count(connections, last) == count then [last] else []
  }

  lemma {:induction false} NoneBelow(connections: map<string, int>, routable: seq<Endpoint>, count: int)
    requires forall e :: e in routable ==> Count(connections, e) > count
    ensures WithCount(connections, routable, count) == []
  {
    if routable != [] {
      NoneBelow(connections, routable[..|routable| - 1], count);
    }
  }

  ghost predicate IsLeast(connections: map<string, int>, routable: seq<Endpoint>, least: int) {
    && (forall e :: e in routable ==> least <= Count(connections, e))
    && (exists e :: e in routable && Count(connections, e) == least)
  }

  lemma LeastNext(connections: map<string, int>, before: seq<Endpoint>, last: Endpoint, least: int)
    requires before != [] ==> IsLeast(connections, before, least)
    ensures var count := Count(connections, last);
            IsLeast(connections, before + [last], if before == [] || count < least then count else least)
  {
    assert last in before + [last];
    if before != [] {
      var e :| e in before && Count(connections, e) == least;
      assert e in before + [last];
    }
  }

  /** With no count of -1, which the code reserves, the tied endpoints are exactly those with
      the least count, in their order. */
  lemma {:induction false} TiedAreLeast(connections: map<string, int>, routable: seq<Endpoint>)
    requires routable != [] && forall e :: e in routable ==> Count(connections, e) != -1
    ensures var (tied, least) := Tied(connections, routable);
            tied != [] && tied == WithCount(connections, routable, least) && IsLeast(connections, routable, least)
  {
    var before, last := routable[..|routable| - 1], routable[|routable| - 1];
    assert routable == before + [last];
    var (tied, least) := Tied(connections, before);
    if before != [] {
      TiedAreLeast(connections, before);
      if Count(connections, last) < least {
        NoneBelow(connections, before, Count(connections, last));
      }
    }
    LeastNext(connections, before, last, least);
  }

  /** The endpoints of least count, in their order. */
  ghost predicate FindsLeast(connections: map<string, int>, routable: seq<Endpoint>) {
    exists least :: IsLeast(connections, routable, least)
                    && Tied(connections, routable).0 == WithCount(connections, routable, least)
  }

  /** An endpoint before the last has the count that the code reserves. */
  predicate HasUnset(connections: map<string, int>, routable: seq<Endpoint>) {
    exists e :: e in routable && Count(connections, e) == -1
  }

  lemma {:induction false} WithCountHas(connections: map<string, int>, routable: seq<Endpoint>, count: int)
    ensures forall e :: e in WithCount(connections, routable, count) <==> e in routable && Count(connections, e) == count
  {
    if routable != [] {
      var before, last := routable[..|routable| - 1], routable[|routable| - 1];
      assert routable == before + [last];
      WithCountHas(connections, before, count);
    }
  }

  lemma {:induction false} TiedHaveLeast(connections: map<string, int>, routable: seq<Endpoint>)
    requires forall e :: e in routable ==> Count(connections, e) >= -1
    ensures var (tied, least) := Tied(connections, routable);
            && least >= -1 && (routable != [] ==> tied != [])
            && forall e :: e in tied ==> e in routable && Count(connections, e) == least
  {
    if routable != [] {
      var before, last := routable[..|routable| - 1], routable[|routable| - 1];
      assert routable == before + [last];
      TiedHaveLeast(connections, before);
    }
  }

  /** A reserved count before the last is forgotten, and with it its endpoint. */
  lemma UnsetIsForgotten(connections: map<string, int>, routable: seq<Endpoint>)
    requires routable != [] && forall e :: e in routable ==> Count(connections, e) >= -1
    requires HasUnset(connections, routable[..|routable| - 1])
    ensures !FindsLeast(connections, routable)
  {
    var before, last := routable[..|routable| - 1], routable[|routable| - 1];
    assert routable == before + [last];
    var e :| e in before && Count(connections, e) == -1;
    TiedHaveLeast(connections, before);
    TiedHaveLeast(connections, routable);
    WithCountHas(connections, before, -1);
    assert e in routable && e in WithCount(connections, before, -1);
    forall least | IsLeast(connections, routable, least)
      ensures Tied(connections, routable).0 != WithCount(connections, routable, least)
    {
      assert least == -1;
      if Count(connections, last) != -1 {
        var tied := Tied(connections, routable).0;
        WithCountHas(connections, routable, -1);
        assert tied[0] in tied && Count(connections, tied[0]) != -1;
      } else {
        assert |WithCount(connections, routable, -1)| >= 2;
      }
    }
  }

  /** For counts from -1 up, the code ends with the endpoints of least count if and only if
      no endpoint before the last has the count -1. */
  lemma FindsLeastIff(connections: map<string, int>, routable: seq<Endpoint>)
    requires routable != [] && forall e :: e in routable ==> Count(connections, e) >= -1
    ensures FindsLeast(connections, routable) <==> !HasUnset(connections, routable[..|routable| - 1])
  {
    var before, last := routable[..|routable| - 1], routable[|routable| - 1];
    assert routable == before + [last];
    if HasUnset(connections, before) {
      UnsetIsForgotten(connections, routable);
    } else if Count(connections, last) != -1 {
      TiedAreLeast(connections, routable);
    } else {
      assert last in routable;
      NoneBelow(connections, before, -1);
      if before != [] {
        TiedAreLeast(connections, before);
      }
      assert IsLeast(connections, routable, -1);
      assert Tied(connections, routable).0 == [last] == WithCount(connections, routable, -1);
    }
  }

  method KeepLeast(connections: map<string, int>, routable: seq<Endpoint>) returns (tied: seq<Endpoint>)
    requires routable != []
    ensures tied != [] && tied == Tied(connections, routable).0
  {
    var least := -1;
    tied := [];
    for i := 0 to |routable|
      invariant (tied, least) == Tied(connections, routable[..i])
      invariant tied == [] ==> least == -1 && i == 0
    {
      assert routable[..i + 1][..i] == routable[..i];
      var count := Count(connections, routable[i]);
      if least == -1 || count < least {
        least, tied := count, [routable[i]];
      } else if count == least {
        tied := tied + [routable[i]];
      }
    }
    assert routable[..|routable|] == routable;
  }

  class LeastConnectionsSelector {
    var cursor: nat

    constructor ()
      ensures cursor == 0
    {
      cursor := 0;
    }

    /** The only endpoint with the least count, or else the one whose turn it is. */
    method Select(endpoints: seq<Endpoint>, connections: map<string, int>) returns (r: Option<Endpoint>)
      requires cursor < WRAP
      modifies this
      ensures cursor < WRAP
      ensures var routable := Routables(endpoints); var tied := Tied(connections, routable).0;
              if routable == [] then r == None && cursor == old(cursor)
              else if |tied| == 1 then r == Some(tied[0]) && cursor == old(cursor)
              else tied != [] && r == Some(tied[Turn(old(cursor), 0, |tied|)]) && cursor == (old(cursor) + 1) % WRAP
    {
      if |endpoints| == 0 {
        return None;
      }
      var routable := KeepRoutable(endpoints);
      if |routable| == 0 {
        return None;
      }
      var tied := KeepLeast(connections, routable);
      if |tied| == 1 {
        return Some(tied[0]);
      }
      StepsBack(cursor);
      cursor := (cursor + 1) % WRAP;
      var turn := (cursor + WRAP - 1) % WRAP;
      r := Some(tied[turn % |tied|]);
    }
  }

  /** A run of picks over unchanged endpoints and counts: the chosen endpoints, by the turns
      that the cursor gives. */
  function Choices(cursor: nat, picks: nat, tied: seq<Endpoint>): seq<Endpoint>
    requires tied != []
  {
    seq(picks, k requires 0 <= k < picks => tied[Turn(cursor, k, |tied|)])
  }

  /** While the tied endpoints stay the same, as many picks as there are of them choose
      every one, before the cursor wraps. */
  lemma AllTiedAreChosen(cursor: nat, tied: seq<Endpoint>, i: nat)
    requires i < |tied| && cursor + |tied| <= WRAP
    ensures tied[i] in Choices(cursor, |tied|, tied)
  {
    EachOnce(cursor, |tied|, i);
    var k := SomeTurn(cursor, |tied|, |tied|, i);
    assert Choices(cursor, |tied|, tied)[k] == tied[i];
  }

  lemma {:induction false} SomeTurn(cursor: nat, picks: nat, n: nat, i: nat) returns (k: nat)
    requires n > 0 && Picks(cursor, picks, n, i) > 0
    ensures k < picks && Turn(cursor, k, n) == i
  {
    if Turn(cursor, picks - 1, n) == i {
      k := picks - 1;
    } else {
      k := SomeTurn(cursor, picks - 1, n, i);
    }
  }
}
