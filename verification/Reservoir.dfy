/** Fixed-size sampling of a latency stream, and percentiles read from the sample.

    The random draw of every replacement is an input, so that a run is a stream of
    values together with the sequence of draws it consumed.  Uniformity is then a
    statement about how many draw sequences let a position of the stream survive. */
module Reservoir {

  // ---------------------------------------------------------------- runs

  /** The sample after one more value: it grows until it holds k values, and from
      then on the drawn slot is overwritten when the draw falls below k. */
  function Step<T>(k: nat, samples: seq<T>, value: T, draw: nat): seq<T>
    requires |samples| <= k
  {
    if |samples| < k then samples + [value]
    else if draw < k then samples[draw := value]
    else samples
  }

  /** The draws consumed by a stream of n >= k values: none while the sample fills,
      then one for each value, taken below the number of values seen so far. */
  ghost predicate ValidDraws(k: nat, n: nat, draws: seq<nat>) {
    && |draws| == (if n <= k then 0 else n - k)
    && forall i :: 0 <= i < |draws| ==> draws[i] < k + i + 1
  }

  ghost function Run<T>(k: nat, stream: seq<T>, draws: seq<nat>): (samples: seq<T>)
    requires ValidDraws(k, |stream|, draws)
    ensures |samples| == if |stream| <= k then |stream| else k
    decreases |stream|
  {
    var n := |stream|;
    if n <= k then stream
    else Step(k, Run(k, stream[..n - 1], draws[..n - k - 1]), stream[n - 1], draws[n - k - 1])
  }

  lemma RunOneMore<T>(k: nat, stream: seq<T>, draws: seq<nat>, value: T, draw: nat)
    requires ValidDraws(k, |stream|, draws) && |stream| >= k && draw < |stream| + 1
    ensures ValidDraws(k, |stream| + 1, draws + [draw])
    ensures Run(k, stream + [value], draws + [draw]) == Step(k, Run(k, stream, draws), value, draw)
  {
    assert (stream + [value])[..|stream|] == stream && (draws + [draw])[..|draws|] == draws;
  }

  function Ids(n: nat): (ids: seq<nat>)
    ensures |ids| == n && forall i :: 0 <= i < n ==> ids[i] == i
  {
    seq(n, i => i)
  }

  /** The samples are the values of the stream at the kept positions. */
  ghost predicate Selects<T>(stream: seq<T>, kept: seq<nat>, samples: seq<T>) {
    |samples| == |kept| && forall i :: 0 <= i < |kept| ==> kept[i] < |stream| && samples[i] == stream[kept[i]]
  }

  lemma StepSelects<T>(k: nat, stream: seq<T>, kept: seq<nat>, samples: seq<T>, draw: nat)
    requires stream != [] && |kept| <= k && Selects(stream[..|stream| - 1], kept, samples)
    ensures Selects(stream, Step(k, kept, |stream| - 1, draw), Step(k, samples, stream[|stream| - 1], draw))
  {
  }

  /** The sample depends on the values only through the positions it kept. */
  lemma {:induction false} RunSelectsPositions<T>(k: nat, stream: seq<T>, draws: seq<nat>)
    requires ValidDraws(k, |stream|, draws)
    ensures Selects(stream, Run<nat>(k, Ids(|stream|), draws), Run(k, stream, draws))
    decreases |stream|
  {
    var n := |stream|;
    if n > k {
      RunOnIds(k, n, draws);
      RunSelectsPositions(k, stream[..n - 1], draws[..n - k - 1]);
      var earlier := draws[..n - k - 1];
      StepSelects(k, stream, Run<nat>(k, Ids(n - 1), earlier), Run(k, stream[..n - 1], earlier), draws[n - k - 1]);
    }
  }

  lemma RunOnIds(k: nat, n: nat, draws: seq<nat>)
    requires k < n && ValidDraws(k, n, draws)
    ensures ValidDraws(k, n - 1, draws[..n - k - 1])
    ensures Run<nat>(k, Ids(n), draws)
         == Step(k, Run<nat>(k, Ids(n - 1), draws[..n - k - 1]), n - 1, draws[n - k - 1])
  {
    assert Ids(n)[..n - 1] == Ids(n - 1);
  }

  ghost predicate DistinctBelow(n: nat, kept: seq<nat>) {
    && (forall i :: 0 <= i < |kept| ==> kept[i] < n)
    && forall i, j :: 0 <= i < j < |kept| ==> kept[i] != kept[j]
  }

  /** No position of the stream is sampled twice. */
  lemma {:induction false} PositionsAreDistinct(k: nat, n: nat, draws: seq<nat>)
    requires ValidDraws(k, n, draws)
    ensures DistinctBelow(n, Run<nat>(k, Ids(n), draws))
    decreases n
  {
    if n > k {
      RunOnIds(k, n, draws);
      PositionsAreDistinct(k, n - 1, draws[..n - k - 1]);
    }
  }

  // ------------------------------------------------------ counting draws

  function Below(c: nat): (r: set<nat>)
    ensures |r| == c && forall j: nat :: j in r <==> j < c
  {
    if c == 0 then {} else Below(c - 1) + {c - 1}
  }

  /** Every sequence of a, followed by each of the choices it allows. */
  ghost function Extend(a: set<seq<nat>>, choices: seq<nat> -> set<nat>): set<seq<nat>> {
    set d: seq<nat>, j: nat | d in a && j in choices(d) :: d + [j]
  }

  /** All the draw sequences a stream of n values can consume. */
  ghost function Draws(k: nat, n: nat): set<seq<nat>>
    requires k <= n
    decreases n
  {
    if n == k then {[]} else Extend(Draws(k, n - 1), d => Below(n))
  }

  /** The draw sequences after which position p of the stream is in the sample. */
  ghost function Survivors(k: nat, n: nat, p: nat): set<seq<nat>>
    requires k <= n
  {
    set d | d in Draws(k, n) && ValidDraws(k, n, d) && p in Run<nat>(k, Ids(n), d)
  }

  lemma InExtend(a: set<seq<nat>>, choices: seq<nat> -> set<nat>, e: seq<nat>)
    ensures e in Extend(a, choices)
       <==> |e| > 0 && e[..|e| - 1] in a && e[|e| - 1] in choices(e[..|e| - 1])
  {
    if |e| > 0 {
      assert e == e[..|e| - 1] + [e[|e| - 1]];
    }
    if e in Extend(a, choices) {
      var d: seq<nat>, j: nat :| d in a && j in choices(d) && e == d + [j];
      assert e[..|e| - 1] == d;
    }
  }

  lemma {:induction false} DrawsAreTheValidOnes(k: nat, n: nat, d: seq<nat>)
    requires k <= n
    ensures d in Draws(k, n) <==> ValidDraws(k, n, d)
    decreases n
  {
    if n > k {
      InExtend(Draws(k, n - 1), d => Below(n), d);
      if |d| > 0 {
        DrawsAreTheValidOnes(k, n - 1, d[..|d| - 1]);
      }
    }
  }

  lemma {:induction false} AppendAllSize(d: seq<nat>, js: set<nat>)
    ensures |set j | j in js :: d + [j]| == |js|
  {
    if js != {} {
      var x :| x in js;
      AppendAllSize(d, js - {x});
      var rest := set j | j in js - {x} :: d + [j];
      assert forall j :: j in js ==> (d + [j])[|d|] == j;
      assert (set j | j in js :: d + [j]) == rest + {d + [x]};
    }
  }

  lemma {:induction false} ExtendSize(a: set<seq<nat>>, choices: seq<nat> -> set<nat>, m: nat)
    requires forall d :: d in a ==> |choices(d)| == m
    ensures |Extend(a, choices)| == |a| * m
  {
    if a != {} {
      var d :| d in a;
      var rest := a - {d};
      ExtendSize(rest, choices, m);
      AppendAllSize(d, choices(d));
      ExtendSplits(a, choices, d);
      assert |a| * m == |rest| * m + m;
    }
  }

  lemma OwnExtends(js: set<nat>, d: seq<nat>, e: seq<nat>)
    ensures e in (set j | j in js :: d + [j]) <==> |e| > 0 && e[..|e| - 1] == d && e[|e| - 1] in js
  {
    if |e| > 0 {
      assert e == e[..|e| - 1] + [e[|e| - 1]];
    }
  }

  lemma ExtendSplits(a: set<seq<nat>>, choices: seq<nat> -> set<nat>, d: seq<nat>)
    requires d in a
    ensures var own := set j | j in choices(d) :: d + [j];
            |Extend(a, choices)| == |Extend(a - {d}, choices)| + |own|
  {
    var own := set j | j in choices(d) :: d + [j];
    forall e: seq<nat>
      ensures e in Extend(a, choices) <==> e in Extend(a - {d}, choices) || e in own
      ensures !(e in Extend(a - {d}, choices) && e in own)
    {
      InExtend(a, choices, e);
      InExtend(a - {d}, choices, e);
      OwnExtends(choices(d), d, e);
    }
    assert Extend(a, choices) == Extend(a - {d}, choices) + own;
    assert Extend(a - {d}, choices) !! own;
  }

  /** The last draws that leave the position where it is. */
  ghost function Sparing(k: nat, n: nat, p: nat, d: seq<nat>): set<nat>
    requires k < n
  {
    set j | j in Below(n) && !Evicts(k, n, p, d, j)
  }

  lemma SparingSize(k: nat, n: nat, p: nat, d: seq<nat>)
    requires k < n && d in Survivors(k, n - 1, p)
    ensures |Sparing(k, n, p, d)| == n - 1
  {
    var slot := EvictingDraw(k, n, p, d);
    assert Sparing(k, n, p, d) == Below(n) - {slot};
  }

  /** An older position survives the last value unless exactly its slot is drawn. */
  lemma OlderSurvivors(k: nat, n: nat, p: nat)
    requires k < n && p < n - 1
    ensures |Survivors(k, n, p)| == |Survivors(k, n - 1, p)| * (n - 1)
  {
    AllSpare(k, n, p);
    ExtendSize(Survivors(k, n - 1, p), Spare(k, n, p), n - 1);
    OlderAreExtended(k, n, p);
  }

  ghost function Spare(k: nat, n: nat, p: nat): seq<nat> -> set<nat>
    requires k < n
  {
    (d: seq<nat>) => Sparing(k, n, p, d)
  }

  lemma AllSpare(k: nat, n: nat, p: nat)
    requires k < n
    ensures forall d :: d in Survivors(k, n - 1, p) ==> |Spare(k, n, p)(d)| == n - 1
  {
    forall d | d in Survivors(k, n - 1, p) ensures |Spare(k, n, p)(d)| == n - 1 {
      SparingSize(k, n, p, d);
    }
  }

  lemma OlderAreExtended(k: nat, n: nat, p: nat)
    requires k < n && p < n - 1
    ensures Survivors(k, n, p) == Extend(Survivors(k, n - 1, p), Spare(k, n, p))
  {
    var now, extended := Survivors(k, n, p), Extend(Survivors(k, n - 1, p), Spare(k, n, p));
    forall d: seq<nat> ensures d in now <==> d in extended {
      OlderExtends(k, n, p, Spare(k, n, p), d);
    }
  }

  lemma OlderExtends(k: nat, n: nat, p: nat, choices: seq<nat> -> set<nat>, d: seq<nat>)
    requires k < n && p < n - 1 && forall e :: choices(e) == Sparing(k, n, p, e)
    ensures d in Survivors(k, n, p) <==> d in Extend(Survivors(k, n - 1, p), choices)
  {
    InExtend(Survivors(k, n - 1, p), choices, d);
    OlderSurvives(k, n, p, d);
  }

  lemma EvictingDraw(k: nat, n: nat, p: nat, d: seq<nat>) returns (slot: nat)
    requires k < n && d in Survivors(k, n - 1, p)
    ensures slot < k
    ensures forall j: nat :: Evicts(k, n, p, d, j) <==> j == slot
  {
    PositionsAreDistinct(k, n - 1, d);
    var kept := Run<nat>(k, Ids(n - 1), d);
    slot :| 0 <= slot < |kept| && kept[slot] == p;
  }

  lemma OlderSurvives(k: nat, n: nat, p: nat, d: seq<nat>)
    requires k < n && p < n - 1
    ensures d in Survivors(k, n, p)
       <==> |d| > 0 && d[..|d| - 1] in Survivors(k, n - 1, p)
            && d[|d| - 1] < n && !Evicts(k, n, p, d[..|d| - 1], d[|d| - 1])
  {
    LastDraw(k, n, d);
    if d in Draws(k, n) {
      var e, j := d[..|d| - 1], d[|d| - 1];
      PositionsAreDistinct(k, n - 1, e);
      SurvivesOverwrite(k, Run<nat>(k, Ids(n - 1), e), n, p, j);
    }
  }

  lemma SurvivesOverwrite(k: nat, kept: seq<nat>, n: nat, p: nat, j: nat)
    requires n > 0 && DistinctBelow(n - 1, kept) && |kept| == k
    ensures p < n - 1 ==> (p in Step(k, kept, n - 1, j) <==> p in kept && !(j < k && kept[j] == p))
    ensures n - 1 in Step(k, kept, n - 1, j) <==> j < k
  {
    var after := Step(k, kept, n - 1, j);
    if j < k {
      assert after[j] == n - 1;
      forall i | 0 <= i < k && i != j ensures after[i] == kept[i] && kept[i] != kept[j] {
      }
      if p in kept && kept[j] != p {
        var i :| 0 <= i < k && kept[i] == p;
        assert after[i] == p;
      }
    }
  }

  ghost predicate Evicts(k: nat, n: nat, p: nat, d: seq<nat>, j: nat)
    requires k < n
  {
    ValidDraws(k, n - 1, d) && j < k && Run<nat>(k, Ids(n - 1), d)[j] == p
  }

  lemma LastDraw(k: nat, n: nat, d: seq<nat>)
    requires k < n
    ensures d in Draws(k, n) <==> |d| > 0 && d[..|d| - 1] in Draws(k, n - 1) && d[|d| - 1] < n
    ensures d in Draws(k, n) ==>
              && ValidDraws(k, n, d) && ValidDraws(k, n - 1, d[..|d| - 1])
              && Run<nat>(k, Ids(n), d) == Step(k, Run<nat>(k, Ids(n - 1), d[..|d| - 1]), n - 1, d[|d| - 1])
  {
    InExtend(Draws(k, n - 1), d => Below(n), d);
    if d in Draws(k, n) {
      DrawsAreTheValidOnes(k, n, d);
      DrawsAreTheValidOnes(k, n - 1, d[..|d| - 1]);
      RunOnIds(k, n, d);
    }
  }

  /** The last value survives exactly the draws below k. */
  lemma NewestSurvivors(k: nat, n: nat)
    requires k < n
    ensures |Survivors(k, n, n - 1)| == |Draws(k, n - 1)| * k
  {
    var choices := (d: seq<nat>) => Below(k);
    ExtendSize(Draws(k, n - 1), choices, k);
    var now, extended := Survivors(k, n, n - 1), Extend(Draws(k, n - 1), choices);
    forall d: seq<nat> ensures d in now <==> d in extended {
      InExtend(Draws(k, n - 1), choices, d);
      NewestSurvives(k, n, d);
    }
    assert now == extended;
  }

  lemma NewestSurvives(k: nat, n: nat, d: seq<nat>)
    requires k < n
    ensures d in Survivors(k, n, n - 1) <==> |d| > 0 && d[..|d| - 1] in Draws(k, n - 1) && d[|d| - 1] < k
  {
    LastDraw(k, n, d);
    if d in Draws(k, n) {
      var e, j := d[..|d| - 1], d[|d| - 1];
      var kept := Run<nat>(k, Ids(n - 1), e);
      PositionsAreDistinct(k, n - 1, e);
      SurvivesOverwrite(k, kept, n, 0, j);
      assert Run<nat>(k, Ids(n), d) == Step(k, kept, n - 1, j);
    }
  }

  /** The counting equation, kept as one fact so that the induction step is about
      these products only. */
  ghost predicate Share(kept: nat, n: nat, k: nat, all: nat) {
    kept * n == k * all
  }

  lemma NewestShare(n: nat, k: nat, total: nat, kept: nat, all: nat)
    requires kept == total * k && all == total * n
    ensures Share(kept, n, k, all)
  {
    assert (total * k) * n == k * (total * n);
  }

  lemma OlderShare(before: nat, n: nat, k: nat, total: nat, kept: nat, all: nat)
    requires n > 0 && Share(before, n - 1, k, total) && kept == before * (n - 1) && all == total * n
    ensures Share(kept, n, k, all)
  {
    assert (k * total) * n == k * (total * n);
  }

  lemma NewestHolds(k: nat, n: nat)
    requires 0 < k < n
    ensures Share(|Survivors(k, n, n - 1)|, n, k, |Draws(k, n)|)
  {
    DrawsGrow(k, n);
    NewestSurvivors(k, n);
    NewestShare(n, k, |Draws(k, n - 1)|, |Survivors(k, n, n - 1)|, |Draws(k, n)|);
  }

  lemma OlderHolds(k: nat, n: nat, p: nat)
    requires 0 < k < n && p < n - 1 && Share(|Survivors(k, n - 1, p)|, n - 1, k, |Draws(k, n - 1)|)
    ensures Share(|Survivors(k, n, p)|, n, k, |Draws(k, n)|)
  {
    DrawsGrow(k, n);
    OlderSurvivors(k, n, p);
    OlderShare(|Survivors(k, n - 1, p)|, n, k, |Draws(k, n - 1)|, |Survivors(k, n, p)|, |Draws(k, n)|);
  }

  lemma {:induction false} ShareHolds(k: nat, n: nat, p: nat)
    requires 0 < k <= n && p < n
    ensures Share(|Survivors(k, n, p)|, n, k, |Draws(k, n)|)
    decreases n
  {
    if n == k {
      FillingHolds(k, p);
    } else if p == n - 1 {
      NewestHolds(k, n);
    } else {
      ShareHolds(k, n - 1, p);
      OlderHolds(k, n, p);
    }
  }

  /** Uniformity: of all the draw sequences, the share that keeps position p is k/n,
      the same for every position of the stream. */
  lemma UniformSurvival(k: nat, n: nat, p: nat)
    requires 0 < k <= n && p < n
    ensures |Survivors(k, n, p)| * n == k * |Draws(k, n)|
  {
    ShareHolds(k, n, p);
  }

  lemma FillingHolds(k: nat, p: nat)
    requires p < k
    ensures Share(|Survivors(k, k, p)|, k, k, |Draws(k, k)|)
  {
    AllSurviveFilling(k, p);
  }

  lemma AllSurviveFilling(k: nat, p: nat)
    requires p < k
    ensures Survivors(k, k, p) == {[]} && Draws(k, k) == {[]}
  {
    assert Ids(k)[p] == p;
  }

  lemma DrawsGrow(k: nat, n: nat)
    requires k < n
    ensures |Draws(k, n)| == |Draws(k, n - 1)| * n
  {
    ExtendSize(Draws(k, n - 1), d => Below(n), n);
  }

  function Factorial(n: nat): nat {
    if n == 0 then 1 else n * Factorial(n - 1)
  }

  /** There are n!/k! outcomes, so the equation above is never 0 == 0. */
  lemma {:induction false} OutcomeCount(k: nat, n: nat)
    requires k <= n
    ensures |Draws(k, n)| * Factorial(k) == Factorial(n) && |Draws(k, n)| > 0
    decreases n
  {
    if n > k {
      DrawsGrow(k, n);
      OutcomeCount(k, n - 1);
      Regroup(|Draws(k, n - 1)|, Factorial(k), n);
    }
  }

  lemma Regroup(total: nat, f: nat, n: nat)
    ensures (total * n) * f == n * (total * f)
    ensures total > 0 && n > 0 ==> total * n > 0
  {
  }

  lemma Stretch(x: nat, y: nat, n: nat)
    ensures n > 0 && x < y ==> x * n < y * n
  {
    if n > 0 && x < y {
      assert (y - x) * n > 0;
    }
  }

  lemma Cancel(x: nat, y: nat, n: nat)
    ensures n > 0 && x * n == y * n ==> x == y
  {
    Stretch(x, y, n);
    Stretch(y, x, n);
  }

  /** Hence any two positions survive in equally many outcomes. */
  lemma EqualChances(k: nat, n: nat, p: nat, q: nat)
    requires 0 < k <= n && p < n && q < n
    ensures |Survivors(k, n, p)| == |Survivors(k, n, q)|
  {
    UniformSurvival(k, n, p);
    UniformSurvival(k, n, q);
    Cancel(|Survivors(k, n, p)|, |Survivors(k, n, q)|, n);
  }

  // -------------------------------------------------------- percentiles

  function CountLess(s: seq<int>, v: int): nat {
    if s == [] then 0 else (if s[0] < v then 1 else 0) + CountLess(s[1..], v)
  }

  function CountAtMost(s: seq<int>, v: int): nat {
    if s == [] then 0 else (if s[0] <= v then 1 else 0) + CountAtMost(s[1..], v)
  }

  /** v is the element of rank i (from 0) of s, counting repetitions. */
  predicate HasRank(s: seq<int>, i: nat, v: int) {
    CountLess(s, v) <= i < CountAtMost(s, v)
  }

  lemma {:induction false} CountsAreMonotone(s: seq<int>, v: int, w: int)
    requires v < w
    ensures CountAtMost(s, v) <= CountLess(s, w)
    ensures CountLess(s, v) <= CountAtMost(s, v) <= |s|
  {
    if s != [] {
      CountsAreMonotone(s[1..], v, w);
    }
  }

  lemma {:induction false} RankedIsMember(s: seq<int>, v: int)
    requires CountLess(s, v) < CountAtMost(s, v)
    ensures v in s
  {
    if s[0] != v {
      RankedIsMember(s[1..], v);
    }
  }

  /** A rank belongs to one value only, so HasRank pins the percentile down. */
  lemma RankIsUnique(s: seq<int>, i: nat, v: int, w: int)
    requires HasRank(s, i, v) && HasRank(s, i, w)
    ensures v == w
  {
    if v < w {
      CountsAreMonotone(s, v, w);
    } else if w < v {
      CountsAreMonotone(s, w, v);
    }
  }

  ghost predicate Ascending(s: seq<int>) {
    forall i, j :: 0 <= i < j < |s| ==> s[i] <= s[j]
  }

  function Insert(x: int, s: seq<int>): (r: seq<int>)
    ensures |r| == |s| + 1
  {
    if s == [] || x <= s[0] then [x] + s else [s[0]] + Insert(x, s[1..])
  }

  /** A sorted copy; stands for the library sort. */
  function Sorted(s: seq<int>): (r: seq<int>)
    ensures |r| == |s|
  {
    if s == [] then [] else Insert(s[0], Sorted(s[1..]))
  }

  lemma {:induction false} InsertKeepsCounts(x: int, s: seq<int>, v: int)
    ensures CountLess(Insert(x, s), v) == CountLess([x] + s, v)
    ensures CountAtMost(Insert(x, s), v) == CountAtMost([x] + s, v)
  {
    assert ([x] + s)[1..] == s;
    if !(s == [] || x <= s[0]) {
      InsertKeepsCounts(x, s[1..], v);
      assert ([x] + s[1..])[1..] == s[1..];
      assert Insert(x, s)[1..] == Insert(x, s[1..]);
    }
  }

  lemma {:induction false} InsertIsAscending(x: int, s: seq<int>)
    requires Ascending(s)
    ensures Ascending(Insert(x, s))
    ensures forall i :: 0 <= i < |s| + 1 ==> Insert(x, s)[i] == x || Insert(x, s)[i] in s
  {
    if !(s == [] || x <= s[0]) {
      InsertIsAscending(x, s[1..]);
      var r := Insert(x, s[1..]);
      assert forall i :: 0 <= i < |r| ==> s[0] <= r[i];
    }
  }

  lemma {:induction false} SortedKeepsCounts(s: seq<int>, v: int)
    ensures CountLess(Sorted(s), v) == CountLess(s, v)
    ensures CountAtMost(Sorted(s), v) == CountAtMost(s, v)
    ensures Ascending(Sorted(s))
  {
    if s != [] {
      var tail := Sorted(s[1..]);
      SortedKeepsCounts(s[1..], v);
      InsertKeepsCounts(s[0], tail, v);
      InsertIsAscending(s[0], tail);
      assert ([s[0]] + tail)[1..] == tail;
    }
  }

  lemma {:induction false} AscendingHasRank(s: seq<int>, i: nat)
    requires Ascending(s) && i < |s|
    ensures HasRank(s, i, s[i])
  {
    if i == 0 {
      NoneBelow(s, s[0]);
    } else {
      AscendingHasRank(s[1..], i - 1);
    }
  }

  lemma {:induction false} NoneBelow(s: seq<int>, v: int)
    requires forall i :: 0 <= i < |s| ==> v <= s[i]
    ensures CountLess(s, v) == 0
  {
    if s != [] {
      NoneBelow(s[1..], v);
    }
  }

  lemma SortedHasRank(s: seq<int>, i: nat)
    requires i < |s|
    ensures HasRank(s, i, Sorted(s)[i])
  {
    SortedKeepsCounts(s, Sorted(s)[i]);
    AscendingHasRank(Sorted(s), i);
  }

  // ------------------------------------------------------------ the class

  lemma RanksInOrder(n: nat)
    requires n > 0
    ensures n * 50 / 100 <= n * 95 / 100 <= n * 99 / 100 < n
  {
  }

  lemma SortedInOrder(s: seq<int>, i: nat, j: nat)
    requires i <= j < |s|
    ensures Sorted(s)[i] <= Sorted(s)[j]
  {
    SortedKeepsCounts(s, 0);
  }

  class ReservoirSampler {
    var samples: seq<int>
    const sampleSize: nat
    var count: nat
    // What the sampler has been fed since it was made or last reset.
    ghost var stream: seq<int>
    ghost var draws: seq<nat>

    ghost predicate Valid()
      reads this
    {
      && sampleSize > 0
      && count == |stream|
      && ValidDraws(sampleSize, |stream|, draws)
      && samples == Run(sampleSize, stream, draws)
    }

    constructor (size: int)
      ensures Valid() && stream == [] && samples == []
      ensures sampleSize == if size <= 0 then 100 else size
    {
      sampleSize := if size <= 0 then 100 else size;
      samples, count := [], 0;
      stream, draws := [], [];
    }

    /** draw is the value rand.Int64N(count) returns if it is called. */
    method Add(value: int, draw: nat)
      requires Valid()
      requires draw < count + 1
      modifies this
      ensures Valid() && stream == old(stream) + [value]
      ensures draws == if old(count) < sampleSize then old(draws) else old(draws) + [draw]
    {
      count := count + 1;
      if |samples| < sampleSize {
        samples := samples + [value];
        stream := stream + [value];
        return;
      }
      RunOneMore(sampleSize, stream, draws, value, draw);
      if draw < sampleSize {
        samples := samples[draw := value];
      }
      stream, draws := stream + [value], draws + [draw];
    }

    method GetPercentiles() returns (p50: int, p95: int, p99: int)
      requires Valid()
      ensures samples == [] ==> p50 == p95 == p99 == 0
      ensures samples != [] ==>
                && HasRank(samples, |samples| * 50 / 100, p50)
                && HasRank(samples, |samples| * 95 / 100, p95)
                && HasRank(samples, |samples| * 99 / 100, p99)
                && p50 <= p95 <= p99
    {
      if |samples| == 0 {
        return 0, 0, 0;
      }
      var sorted := Sorted(samples);
      RanksInOrder(|sorted|);
      var i50, i95, i99 := |sorted| * 50 / 100, |sorted| * 95 / 100, |sorted| * 99 / 100;
      if i50 >= |sorted| {
        i50 := |sorted| - 1;
      }
      if i95 >= |sorted| {
        i95 := |sorted| - 1;
      }
      if i99 >= |sorted| {
        i99 := |sorted| - 1;
      }
      SortedHasRank(samples, i50);
      SortedHasRank(samples, i95);
      SortedHasRank(samples, i99);
      SortedInOrder(samples, i50, i95);
      SortedInOrder(samples, i95, i99);
      return sorted[i50], sorted[i95], sorted[i99];
    }

    method Reset()
      requires Valid()
      modifies this
      ensures Valid() && stream == [] && draws == [] && samples == []
    {
      samples, count := [], 0;
      stream, draws := [], [];
    }
  }
}
