/** Glob patterns with `*` at either end, and the filter that remembers its answers under
    the key "name::pattern". */
module GlobPattern {

  import opened Wrappers

  // ------------------------------------------------------------------- matching

  predicate StartsWith(s: string, prefix: string) {
    |prefix| <= |s| && s[..|prefix|] == prefix
  }

  predicate EndsWith(s: string, suffix: string) {
    |suffix| <= |s| && s[|s| - |suffix|..] == suffix
  }

  predicate Occurs(s: string, t: string, i: nat) {
    i + |t| <= |s| && s[i..i + |t|] == t
  }

  predicate Contains(s: string, t: string) {
    exists i: nat :: i <= |s| && Occurs(s, t, i)
  }

  function TrimLeft(p: string): string {
    if p != "" && p[0] == '*' then TrimLeft(p[1..]) else p
  }

  function TrimRight(p: string): string {
    if p != "" && p[|p| - 1] == '*' then TrimRight(p[..|p| - 1]) else p
  }

  predicate Glob(s: string, p: string) {
    if p == "*" then true
    else if '*' !in p then s == p
    else if p[0] == '*' && p[|p| - 1] == '*' then Contains(s, TrimRight(TrimLeft(p)))
    else if p[0] == '*' then EndsWith(s, p[1..])
    else if p[|p| - 1] == '*' then StartsWith(s, p[..|p| - 1])
    else s == p
  }

  /** ASCII case is ignored. */
  predicate MatchesGlob(s: string, pattern: string) {
    Glob(Lower(s), Lower(pattern))
  }

  function CountStars(p: string): nat {
    if p == "" then 0 else CountStars(p[1..]) + if p[0] == '*' then 1 else 0
  }

  predicate ValidPattern(p: string) {
    && (exists c :: c in p && !IsSpace(c))
    && !Contains(p, "**")
    && CountStars(p) <= 2
    && (CountStars(p) == 1 ==> p[0] == '*' || p[|p| - 1] == '*')
    && (CountStars(p) == 2 ==> p[0] == '*' && p[|p| - 1] == '*')
  }

  // -------------------------------------------------- what a pattern stands for

  /** The usual reading of a pattern: `*` stands for any text. */
  ghost predicate Wild(s: string, p: string)
    decreases |p|
  {
    if p == "" then s == ""
    else if p[0] == '*' then exists k: nat :: k <= |s| && Wild(s[k..], p[1..])
    else s != "" && s[0] == p[0] && Wild(s[1..], p[1..])
  }

  lemma {:induction false} WildText(s: string, p: string)
    requires '*' !in p
    ensures Wild(s, p) <==> s == p
  {
    if p != "" {
      if s != "" && s[0] == p[0] {
        WildText(s[1..], p[1..]);
        assert s == [s[0]] + s[1..] && p == [p[0]] + p[1..];
      }
    }
  }

  lemma {:induction false} WildPrefix(s: string, p: string)
    requires '*' !in p
    ensures Wild(s, p + "*") <==> StartsWith(s, p)
    decreases |p|
  {
    var q := p + "*";
    if p == "" {
      assert q == "*" && q[1..] == "";
      assert Wild(s[|s|..], q[1..]);
    } else {
      assert q[0] == p[0] && q[1..] == p[1..] + "*";
      if s != "" && s[0] == p[0] {
        WildPrefix(s[1..], p[1..]);
        if StartsWith(s, p) {
          assert s[1..][..|p| - 1] == p[1..];
        }
        if StartsWith(s[1..], p[1..]) {
          assert s[..|p|] == [s[0]] + s[1..][..|p| - 1];
        }
      } else {
        assert p[0] == p[..|p|][0];
      }
    }
  }

  lemma WildSuffix(s: string, p: string)
    requires '*' !in p
    ensures Wild(s, "*" + p) <==> EndsWith(s, p)
  {
    var q := "*" + p;
    assert q[0] == '*' && q[1..] == p;
    if Wild(s, q) {
      var k: nat :| k <= |s| && Wild(s[k..], q[1..]);
      WildText(s[k..], p);
    }
    if EndsWith(s, p) {
      WildText(s[|s| - |p|..], p);
    }
  }

  lemma WildMiddle(s: string, p: string)
    requires '*' !in p
    ensures Wild(s, "*" + p + "*") <==> Contains(s, p)
  {
    var q := "*" + p + "*";
    assert q[0] == '*' && q[1..] == p + "*";
    if Wild(s, q) {
      var k: nat :| k <= |s| && Wild(s[k..], q[1..]);
      WildPrefix(s[k..], p);
      assert s[k..][..|p|] == s[k..k + |p|];
      assert Occurs(s, p, k);
    }
    if Contains(s, p) {
      var k: nat :| k <= |s| && Occurs(s, p, k);
      assert s[k..][..|p|] == s[k..k + |p|];
      WildPrefix(s[k..], p);
    }
  }

  lemma {:induction false} CountOfBoth(a: string, b: string)
    ensures CountStars(a + b) == CountStars(a) + CountStars(b)
  {
    if a == "" {
      assert a + b == b;
    } else {
      CountOfBoth(a[1..], b);
      assert (a + b)[1..] == a[1..] + b;
    }
  }

  lemma {:induction false} NoStars(p: string)
    ensures CountStars(p) == 0 <==> '*' !in p
  {
    if p != "" {
      NoStars(p[1..]);
      assert p == [p[0]] + p[1..];
    }
  }

  lemma Untrimmed(p: string)
    requires '*' !in p && p != ""
    ensures TrimRight(TrimLeft("*" + p + "*")) == p
  {
    var q := "*" + p + "*";
    assert q[1..] == p + "*" && TrimLeft(p + "*") == p + "*" && TrimLeft(q) == TrimLeft(q[1..]);
    assert (p + "*")[..|p|] == p && p[|p| - 1] in p;
    assert TrimRight(p) == p;
  }

  lemma StarsAtEnds(p: string)
    requires ValidPattern(p)
    ensures '*' !in p || p == "*"
            || (|p| >= 2 && '*' !in p[1..|p| - 1] && (p[0] == '*' || p[|p| - 1] == '*')
                && (p[0] == '*' && p[|p| - 1] == '*' ==> |p| > 2))
  {
    NoStars(p);
    if '*' in p && |p| >= 2 {
      var a, m, b := p[..1], p[1..|p| - 1], p[|p| - 1..];
      assert p == a + m + b;
      CountOfBoth(a + m, b);
      CountOfBoth(a, m);
      NoStars(m);
      if |p| == 2 && p[0] == '*' && p[1] == '*' {
        assert Occurs(p, "**", 0);
      }
    }
  }

  predicate OnlyAtEnds(p: string) {
    forall i :: 0 <= i < |p| && p[i] == '*' ==> i == 0 || i == |p| - 1
  }

  /** A pattern is valid if and only if it is not blank, has stars at its ends only, and is
      not made of two stars. */
  lemma ValidIff(p: string)
    ensures ValidPattern(p) <==> (exists c :: c in p && !IsSpace(c)) && OnlyAtEnds(p) && p != "**"
  {
    if |p| >= 2 {
      EndsCounted(p);
      DoubleStars(p);
    } else if |p| == 1 {
      assert p[1..] == "" && CountStars(p) <= 1;
      assert !Contains(p, "**") by {
        assert forall i: nat :: !Occurs(p, "**", i);
      }
      assert p != "**";
    }
  }

  lemma EndsCounted(p: string)
    requires |p| >= 2
    ensures var n, middle := |p| - 1, p[1..|p| - 1];
            CountStars(p) == (if p[0] == '*' then 1 else 0) + CountStars(middle) + if p[n] == '*' then 1 else 0
    ensures CountStars(p[1..|p| - 1]) == 0 <==> OnlyAtEnds(p)
  {
    var n, middle := |p| - 1, p[1..|p| - 1];
    assert p == [p[0]] + (middle + [p[n]]);
    assert [p[0]][1..] == "" && [p[n]][1..] == "";
    CountOfBoth([p[0]], middle + [p[n]]);
    CountOfBoth(middle, [p[n]]);
    NoStars(middle);
    if OnlyAtEnds(p) {
      assert forall i :: 0 <= i < |middle| ==> middle[i] == p[i + 1];
    } else {
      var i :| 0 <= i < |p| && p[i] == '*' && i != 0 && i != n;
      assert middle[i - 1] == '*';
    }
  }

  lemma DoubleStars(p: string)
    requires |p| >= 2
    ensures p == "**" ==> Contains(p, "**")
    ensures OnlyAtEnds(p) && p != "**" ==> !Contains(p, "**")
  {
    if p == "**" {
      assert Occurs(p, "**", 0);
    }
    if Contains(p, "**") {
      var i: nat :| i <= |p| && Occurs(p, "**", i);
      assert p[i..i + 2][0] == '*' && p[i..i + 2][1] == '*';
      assert p[i] == '*' && p[i + 1] == '*';
      assert i == 0 && |p| == 2 ==> p == "**";
    }
  }

  /** On every pattern that passes validation the matcher agrees with the usual reading. */
  lemma GlobIsWild(s: string, p: string)
    requires ValidPattern(p)
    ensures Glob(s, p) <==> Wild(s, p)
  {
    StarsAtEnds(p);
    if '*' !in p {
      WildText(s, p);
    } else if p == "*" {
      assert p[1..] == "" && Wild(s[|s|..], p[1..]);
    } else {
      var n := |p| - 1;
      if p[0] == '*' && p[n] == '*' {
        assert p == "*" + p[1..n] + "*";
        WildMiddle(s, p[1..n]);
        Untrimmed(p[1..n]);
      } else if p[0] == '*' {
        assert p == "*" + p[1..] && p[1..] == p[1..n] + [p[n]];
        WildSuffix(s, p[1..]);
      } else {
        assert p == p[..n] + "*" && p[..n] == [p[0]] + p[1..n];
        WildPrefix(s, p[..n]);
      }
    }
  }

  lemma {:induction false} LowerKeepsCount(p: string)
    ensures CountStars(Lower(p)) == CountStars(p)
  {
    if p != "" {
      LowerKeepsCount(p[1..]);
      assert Lower(p)[1..] == Lower(p[1..]);
    }
  }

  lemma LowerKeepsValid(p: string)
    requires ValidPattern(p)
    ensures ValidPattern(Lower(p))
  {
    LowerKeepsCount(p);
    var c :| c in p && !IsSpace(c);
    var i :| 0 <= i < |p| && p[i] == c;
    assert Lower(p)[i] in Lower(p) && !IsSpace(Lower(p)[i]);
    if Contains(Lower(p), "**") {
      var k: nat :| k <= |p| && Occurs(Lower(p), "**", k);
      assert Lower(p)[k..k + 2][0] == '*' && Lower(p)[k..k + 2][1] == '*';
      assert p[k..k + 2] == "**";
      assert Occurs(p, "**", k);
    }
    if |p| > 0 && CountStars(p) >= 1 {
      assert Lower(p)[0] == LowerChar(p[0]) && Lower(p)[|p| - 1] == LowerChar(p[|p| - 1]);
    }
  }

  /** So up to case the matcher is the usual one on every pattern that passes validation. */
  lemma MatchIsWild(s: string, pattern: string)
    requires ValidPattern(pattern)
    ensures MatchesGlob(s, pattern) <==> Wild(Lower(s), Lower(pattern))
  {
    LowerKeepsValid(pattern);
    GlobIsWild(Lower(s), Lower(pattern));
  }
}
