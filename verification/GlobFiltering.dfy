/** The filter over named items, and its cache of answers. */
module GlobFiltering {

  import opened Wrappers
  import opened GlobPattern

  type Cache = map<string, bool>

  datatype Filters = Filters(includes: seq<string>, excludes: seq<string>)

  datatype Outcome<T> = Outcome(accepted: seq<T>, rejected: seq<T>)

  // --------------------------------------------------------------- no cache

  predicate MatchesAny(name: string, patterns: seq<string>) {
    exists p :: p in patterns && MatchesGlob(name, p)
  }

  predicate IncludesAll(f: Filters) {
    f.includes == [] || "*" in f.includes
  }

  /** The item is included, and no exclusion takes it out again. */
  predicate Accepts(f: Filters, name: string) {
    (IncludesAll(f) || MatchesAny(name, f.includes)) && !MatchesAny(name, f.excludes)
  }

  predicate ValidFilters(f: Filters) {
    forall p :: p in f.includes + f.excludes ==> ValidPattern(p)
  }

  /** With `*` read as any text and case ignored: an item passes if some inclusion matches
      its name, or there is none, and no exclusion does. */
  lemma AcceptsIff(f: Filters, name: string)
    requires ValidFilters(f)
    ensures Accepts(f, name)
       <==> && (f.includes == [] || exists p :: p in f.includes && Wild(Lower(name), Lower(p)))
            && forall p :: p in f.excludes ==> !Wild(Lower(name), Lower(p))
  {
    forall p | p in f.includes + f.excludes ensures MatchesGlob(name, p) <==> Wild(Lower(name), Lower(p)) {
      MatchIsWild(name, p);
    }
    assert forall p :: p in f.includes ==> p in f.includes + f.excludes;
    assert forall p :: p in f.excludes ==> p in f.includes + f.excludes;
    if "*" in f.includes {
      assert Lower("*") == "*" && MatchesGlob(name, "*");
    }
  }

  // ------------------------------------------------------------- with cache

  function Key(name: string, pattern: string): string {
    name + "::" + pattern
  }

  function Ask(cache: Cache, name: string, pattern: string): (bool, Cache) {
    var key := Key(name, pattern);
    if key in cache then (cache[key], cache)
    else
      var matches := MatchesGlob(name, pattern);
      (matches, cache[key := matches])
  }

  /** Asks for the patterns in turn until one matches. */
  function AskAny(cache: Cache, name: string, patterns: seq<string>): (bool, Cache)
    decreases |patterns|
  {
    if patterns == [] then (false, cache)
    else
      var (matches, after) := Ask(cache, name, patterns[0]);
      if matches then (true, after) else AskAny(after, name, patterns[1..])
  }

  function AskMatches(cache: Cache, f: Filters, name: string): (bool, Cache) {
    if f.includes == [] && f.excludes == [] then (true, cache)
    else
      var (included, after) := if IncludesAll(f) then (true, cache) else AskAny(cache, name, f.includes);
      if !included then (false, after)
      else
        var (excluded, last) := AskAny(after, name, f.excludes);
        (!excluded, last)
  }

  // --------------------------------------------------------------- the keys

  /** One name continues the other in a way that its key can be read as the other's. */
  predicate Collides(shorter: string, longer: string) {
    longer == shorter + ":" || StartsWith(longer, shorter + "::")
  }

  /** Two different names have a key in common if and only if one is the other followed by
      a colon at the end, or by two colons. */
  lemma KeysMeetIff(s: string, t: string)
    requires s != t
    ensures (exists p, q :: Key(s, p) == Key(t, q)) <==> Collides(s, t) || Collides(t, s)
  {
    if exists p, q :: Key(s, p) == Key(t, q) {
      var p, q :| Key(s, p) == Key(t, q);
      if |s| <= |t| { LongerCollides(s, t, p, q); } else { LongerCollides(t, s, q, p); }
    }
    if Collides(s, t) {
      CollisionMeets(s, t, "");
    } else if Collides(t, s) {
      CollisionMeets(t, s, "");
    }
  }

  lemma LongerCollides(s: string, t: string, p: string, q: string)
    requires s != t && |s| <= |t| && Key(s, p) == Key(t, q)
    ensures Collides(s, t)
  {
    var key := Key(s, p);
    assert t == Key(t, q)[..|t|] == key[..|t|];
    assert s == key[..|s|];
    if |s| == |t| {
      assert false;
    } else if |t| == |s| + 1 {
      assert t == s + [key[|s|]];
    } else {
      assert t[..|s| + 2] == key[..|s| + 2] == s + "::";
    }
  }

  /** The pattern that the shorter name shares the longer name's key with. */
  function Shared(s: string, t: string, q: string): string
    requires Collides(s, t)
  {
    Key(t, q)[|s| + 2..]
  }

  lemma CollisionMeets(s: string, t: string, q: string)
    requires Collides(s, t)
    ensures Key(s, Shared(s, t, q)) == Key(t, q)
  {
    var key := Key(t, q);
    assert key[..|s| + 2] == s + "::";
    assert key == key[..|s| + 2] + key[|s| + 2..];
  }

  // ---------------------------------------------------------------- coherence

  ghost predicate Apart(names: set<string>) {
    forall s, t :: s in names && t in names && s != t ==> !Collides(s, t)
  }

  predicate IsClean(name: string) {
    !Contains(name, "::") && (name == "" || name[|name| - 1] != ':')
  }

  /** Names without "::" that do not end in ":" are apart. */
  lemma CleanNamesAreApart(names: set<string>)
    requires forall s :: s in names ==> IsClean(s)
    ensures Apart(names)
  {
    forall s, t | Collides(s, t) ensures !IsClean(t) {
      CollisionIsUnclean(s, t);
    }
  }

  lemma CollisionIsUnclean(s: string, t: string)
    requires Collides(s, t)
    ensures !IsClean(t)
  {
    if StartsWith(t, s + "::") {
      assert t[|s|..|s| + 2] == (s + "::")[|s|..];
      assert Occurs(t, "::", |s|);
    }
  }

  /** Every answer kept is the right one for a question about one of the names. */
  ghost predicate Coherent(cache: Cache, names: set<string>) {
    forall key :: key in cache ==> exists s, p :: s in names && key == Key(s, p) && cache[key] == MatchesGlob(s, p)
  }

  lemma AskIsRight(cache: Cache, names: set<string>, name: string, pattern: string)
    requires Apart(names) && Coherent(cache, names) && name in names
    ensures Ask(cache, name, pattern).0 == MatchesGlob(name, pattern)
    ensures Coherent(Ask(cache, name, pattern).1, names)
  {
    var key := Key(name, pattern);
    if key in cache {
      var s, p :| s in names && key == Key(s, p) && cache[key] == MatchesGlob(s, p);
      if s != name {
        KeysMeetIff(s, name);
      }
      assert pattern == key[|name| + 2..] && p == key[|s| + 2..];
    }
  }

  lemma {:induction false} AskAnyIsRight(cache: Cache, names: set<string>, name: string, patterns: seq<string>)
    requires Apart(names) && Coherent(cache, names) && name in names
    ensures AskAny(cache, name, patterns).0 == MatchesAny(name, patterns)
    ensures Coherent(AskAny(cache, name, patterns).1, names)
    decreases |patterns|
  {
    if patterns != [] {
      AskIsRight(cache, names, name, patterns[0]);
      var (matches, after) := Ask(cache, name, patterns[0]);
      if !matches {
        AskAnyIsRight(after, names, name, patterns[1..]);
        assert patterns == [patterns[0]] + patterns[1..];
      }
    }
  }

  lemma MatchesIsRight(cache: Cache, names: set<string>, f: Filters, name: string)
    requires Apart(names) && Coherent(cache, names) && name in names
    ensures AskMatches(cache, f, name).0 == Accepts(f, name)
    ensures Coherent(AskMatches(cache, f, name).1, names)
  {
    AskAnyIsRight(cache, names, name, f.includes);
    AskAnyIsRight(cache, names, name, f.excludes);
    AskAnyIsRight(AskAny(cache, name, f.includes).1, names, name, f.excludes);
  }

  /** What is asked of a filter over its life. */
  datatype Call = Match(f: Filters, name: string) | Clear

  function After(cache: Cache, call: Call): Cache {
    match call
    case Match(f, name) => AskMatches(cache, f, name).1
    case Clear => map[]
  }

  function Run(cache: Cache, calls: seq<Call>): Cache {
    if calls == [] then cache else After(Run(cache, calls[..|calls| - 1]), calls[|calls| - 1])
  }

  predicate NamesIn(calls: seq<Call>, names: set<string>) {
    forall c :: c in calls && c.Match? ==> c.name in names
  }

  lemma {:induction false} RunIsCoherent(calls: seq<Call>, names: set<string>)
    requires Apart(names) && NamesIn(calls, names)
    ensures Coherent(Run(map[], calls), names)
  {
    if calls != [] {
      var before, last := calls[..|calls| - 1], calls[|calls| - 1];
      assert last in calls;
      RunIsCoherent(before, names);
      if last.Match? {
        MatchesIsRight(Run(map[], before), names, last.f, last.name);
      }
    }
  }

  /** In every reachable state the filter answers as if it had no cache, for names apart. */
  lemma CacheIsInvisible(calls: seq<Call>, names: set<string>, f: Filters, name: string)
    requires Apart(names) && NamesIn(calls, names) && name in names
    ensures AskMatches(Run(map[], calls), f, name).0 == Accepts(f, name)
  {
    RunIsCoherent(calls, names);
    MatchesIsRight(Run(map[], calls), names, f, name);
  }

  // ---------------------------------------------------- names that collide

  lemma {:induction false} LeftKeeps(p: string, i: nat)
    requires i < |p| && p[i] != '*'
    ensures |TrimLeft(p)| >= |p| - i && EndsWith(p, TrimLeft(p))
  {
    if p[0] == '*' {
      LeftKeeps(p[1..], i - 1);
      var r := TrimLeft(p);
      assert p[|p| - |r|..] == p[1..][|p| - 1 - |r|..];
    }
  }

  lemma {:induction false} RightKeeps(p: string, i: nat)
    requires i < |p| && p[i] != '*'
    ensures |TrimRight(p)| > i && StartsWith(p, TrimRight(p))
  {
    if p[|p| - 1] == '*' {
      RightKeeps(p[..|p| - 1], i);
      var r := TrimRight(p);
      assert p[..|r|] == p[..|p| - 1][..|r|];
    }
  }

  /** A pattern with a stretch longer than the name between two plain characters, and no
      shorter outside it than its stars, does not match the name. */
  lemma LongNeverMatches(s: string, p: string, i: nat, j: nat)
    requires i <= j < |p| && p[i] != '*' && p[j] != '*' && j - i + 1 > |s| && |p| > |s| + 1
    ensures !Glob(s, p)
  {
    if p[0] == '*' && p[|p| - 1] == '*' {
      LeftKeeps(p, i);
      var left := TrimLeft(p);
      var cut := |p| - |left|;
      assert left[j - cut] == p[cut..][j - cut] == p[j];
      RightKeeps(left, j - cut);
    }
  }

  lemma {:induction false} TrimsToPart(p: string)
    ensures EndsWith(p, TrimLeft(p)) && StartsWith(p, TrimRight(p))
  {
    if p != "" {
      TrimsToPart(p[1..]);
      TrimsToPart(p[..|p| - 1]);
      if p[0] == '*' {
        EndsTransitively(p, TrimLeft(p));
      }
      if p[|p| - 1] == '*' {
        StartsTransitively(p, TrimRight(p));
      }
    }
  }

  lemma EndsTransitively(p: string, r: string)
    requires p != "" && EndsWith(p[1..], r)
    ensures EndsWith(p, r)
  {
    assert p[|p| - |r|..] == p[1..][|p| - 1 - |r|..];
  }

  lemma StartsTransitively(p: string, r: string)
    requires p != "" && StartsWith(p[..|p| - 1], r)
    ensures StartsWith(p, r)
  {
    assert p[..|r|] == p[..|p| - 1][..|r|];
  }

  /** Every name matches itself taken as a pattern. */
  lemma MatchesItself(s: string)
    ensures Glob(s, s)
  {
    if '*' in s && s[0] == '*' && s[|s| - 1] == '*' {
      TrimsToPart(s);
      var left := TrimLeft(s);
      TrimsToPart(left);
      var core := TrimRight(left);
      var k := |s| - |left|;
      assert s[k..k + |core|] == left[..|core|];
      assert Occurs(s, core, k);
    }
  }

  /** When the longer of two colliding names has matched itself, the filter then says that
      the shorter one matches a pattern it does not match. */
  lemma CollisionMisleads(s: string, t: string)
    requires Collides(s, t)
    ensures var cache := Ask(map[], t, t).1; var p := Shared(s, t, t);
            Ask(cache, s, p).0 && !MatchesGlob(s, p)
  {
    CollisionMeets(s, t, t);
    MatchesItself(Lower(t));
    var p := Shared(s, t, t);
    var q := Lower(p);
    if t == s + ":" {
      assert p == ":" + s + ":";
      assert q[0] == ':' && q[|q| - 1] == ':';
      LongNeverMatches(Lower(s), q, 0, |q| - 1);
    } else {
      var tail := t[|s| + 2..];
      var k := |tail|;
      assert t == s + "::" + tail;
      assert p == tail + "::" + (s + "::" + tail);
      assert p[k] == ':' && p[k + 2 + |s|] == ':';
      assert q[k] == ':' && q[k + 2 + |s|] == ':';
      LongNeverMatches(Lower(s), q, k, k + 2 + |s|);
    }
  }

  /** So for two names the cache is invisible if and only if they are apart. */
  lemma CacheIsInvisibleIff(s: string, t: string)
    requires s != t
    ensures (forall calls, f, name :: NamesIn(calls, {s, t}) && name in {s, t} ==>
               AskMatches(Run(map[], calls), f, name).0 == Accepts(f, name))
            <==> Apart({s, t})
  {
    if Apart({s, t}) {
      forall calls, f, name | NamesIn(calls, {s, t}) && name in {s, t}
        ensures AskMatches(Run(map[], calls), f, name).0 == Accepts(f, name)
      {
        CacheIsInvisible(calls, {s, t}, f, name);
      }
    } else if Collides(s, t) {
      Misled(s, t);
    } else {
      Misled(t, s);
    }
  }

  /** The two calls that show it, as filters: exclude the longer name by itself, and then
      exclude the shared pattern for the shorter. */
  lemma Misled(s: string, t: string)
    requires Collides(s, t)
    ensures var calls := [Match(Filters([], [t]), t)]; var f := Filters([], [Shared(s, t, t)]);
            NamesIn(calls, {s, t}) && AskMatches(Run(map[], calls), f, s).0 != Accepts(f, s)
  {
    CollisionMisleads(s, t);
    var calls := [Match(Filters([], [t]), t)];
    var cache := Ask(map[], t, t).1;
    var p := Shared(s, t, t);
    assert calls[..0] == [] && Run(map[], calls) == After(map[], calls[0]);
    assert AskAny(map[], t, [t]).1 == cache;
    assert AskAny(cache, s, [p]).0;
    assert !MatchesAny(s, [p]);
  }

  // ------------------------------------------------------------------- filter

  class GlobFilter {
    var patternCache: Cache

    constructor ()
      ensures patternCache == map[]
    {
      patternCache := map[];
    }

    method MatchesPattern(name: string, pattern: string) returns (matches: bool)
      modifies this
      ensures (matches, patternCache) == Ask(old(patternCache), name, pattern)
    {
      var key := name + "::" + pattern;
      if key in patternCache {
        return patternCache[key];
      }
      matches := MatchesGlob(name, pattern);
      patternCache := patternCache[key := matches];
    }

    method MatchesOne(name: string, patterns: seq<string>) returns (matches: bool)
      modifies this
      ensures (matches, patternCache) == AskAny(old(patternCache), name, patterns)
    {
      for i := 0 to |patterns|
        invariant AskAny(old(patternCache), name, patterns) == AskAny(patternCache, name, patterns[i..])
      {
        assert patterns[i..][1..] == patterns[i + 1..];
        var ok := MatchesPattern(name, patterns[i]);
        if ok {
          return true;
        }
      }
      matches := false;
    }

    /** No filters match everything. */
    method Matches(f: Option<Filters>, name: string) returns (matches: bool)
      modifies this
      ensures f.None? ==> matches && patternCache == old(patternCache)
      ensures f.Some? ==> (matches, patternCache) == AskMatches(old(patternCache), f.value, name)
    {
      if f.None? || (|f.value.includes| == 0 && |f.value.excludes| == 0) {
        return true;
      }
      var included := true;
      if |f.value.includes| > 0 && "*" !in f.value.includes {
        included := MatchesOne(name, f.value.includes);
      }
      if !included {
        return false;
      }
      var excluded := MatchesOne(name, f.value.excludes);
      matches := !excluded;
    }

    /** Splits the items into the accepted and the rejected; None for an invalid filter. */
    method Apply<T>(f: Option<Filters>, items: seq<T>, nameOf: T -> string) returns (r: Option<Outcome<T>>)
      modifies this
      ensures f.None? || f.value == Filters([], []) ==> r == Some(Outcome(items, [])) && patternCache == old(patternCache)
      ensures f.Some? && !ValidFilters(f.value) ==> r == None && patternCache == old(patternCache)
      ensures f.Some? && f.value != Filters([], []) && ValidFilters(f.value) ==>
                r.Some? && (r.value, patternCache) == AskAll(old(patternCache), f.value, items, nameOf)
    {
      if f.None? || (|f.value.includes| == 0 && |f.value.excludes| == 0) {
        return Some(Outcome(items, []));
      }
      if !ValidFilters(f.value) {
        return None;
      }
      var accepted: seq<T>, rejected: seq<T> := [], [];
      for i := 0 to |items|
        invariant (Outcome(accepted, rejected), patternCache) == AskAll(old(patternCache), f.value, items[..i], nameOf)
      {
        assert items[..i + 1][..i] == items[..i];
        var ok := Matches(f, nameOf(items[i]));
        if ok {
          accepted := accepted + [items[i]];
        } else {
          rejected := rejected + [items[i]];
        }
      }
      assert items[..|items|] == items;
      r := Some(Outcome(accepted, rejected));
    }

    method ClearCache()
      modifies this
      ensures patternCache == map[]
    {
      patternCache := map[];
    }
  }

  /** One item after another, with the cache as the earlier ones left it. */
  function AskAll<T>(cache: Cache, f: Filters, items: seq<T>, nameOf: T -> string): (Outcome<T>, Cache) {
    if items == [] then (Outcome([], []), cache)
    else
      var (before, c) := AskAll(cache, f, items[..|items| - 1], nameOf);
      var last := items[|items| - 1];
      var (ok, after) := AskMatches(c, f, nameOf(last));
      (if ok then before.(accepted := before.accepted + [last]) else before.(rejected := before.rejected + [last]), after)
  }

  /** The items that pass, or those that do not, in their order. */
  function Those<T>(f: Filters, items: seq<T>, nameOf: T -> string, pass: bool): seq<T> {
    if items == [] then []
    else
      var last := items[|items| - 1];
      Those(f, items[..|items| - 1], nameOf, pass) + if Accepts(f, nameOf(last)) == pass then [last] else []
  }

  /** With the cache as any calls about names apart left it, filtering parts the items into
      those that pass and those that do not, each in their order. */
  lemma {:induction false} ApplyParts<T>(cache: Cache, names: set<string>, f: Filters, items: seq<T>, nameOf: T -> string)
    requires Apart(names) && Coherent(cache, names) && forall x :: x in items ==> nameOf(x) in names
    ensures AskAll(cache, f, items, nameOf).0 == Outcome(Those(f, items, nameOf, true), Those(f, items, nameOf, false))
    ensures Coherent(AskAll(cache, f, items, nameOf).1, names)
  {
    if items != [] {
      var before, last := items[..|items| - 1], items[|items| - 1];
      ApplyParts(cache, names, f, before, nameOf);
      MatchesIsRight(AskAll(cache, f, before, nameOf).1, names, f, nameOf(last));
    }
  }

  lemma {:induction false} ThoseAgree<T>(f: Filters, items: seq<T>, nameOf: T -> string, pass: bool)
    ensures forall x :: x in Those(f, items, nameOf, pass) ==> Accepts(f, nameOf(x)) == pass
  {
    if items != [] {
      ThoseAgree(f, items[..|items| - 1], nameOf, pass);
    }
  }

  /** One item more, on one of two sides. */
  lemma OneSideGrows<T>(yes: seq<T>, no: seq<T>, all: seq<T>, x: T, yes': seq<T>, no': seq<T>)
    requires multiset(yes) + multiset(no) == multiset(all) && |yes| + |no| == |all|
    requires (yes' == yes + [x] && no' == no) || (yes' == yes && no' == no + [x])
    ensures multiset(yes') + multiset(no') == multiset(all + [x]) && |yes'| + |no'| == |all + [x]|
  {
    assert multiset(yes + [x]) == multiset(yes) + multiset{x} && multiset(no + [x]) == multiset(no) + multiset{x};
    assert multiset(all + [x]) == multiset(all) + multiset{x};
  }

  lemma {:induction false} PartsAddUp<T>(f: Filters, items: seq<T>, nameOf: T -> string)
    ensures var yes, no := Those(f, items, nameOf, true), Those(f, items, nameOf, false);
            multiset(yes) + multiset(no) == multiset(items) && |yes| + |no| == |items|
  {
    if items != [] {
      var before, last := items[..|items| - 1], items[|items| - 1];
      PartsAddUp(f, before, nameOf);
      assert items == before + [last];
      OneSideGrows(Those(f, before, nameOf, true), Those(f, before, nameOf, false), before, last,
                   Those(f, items, nameOf, true), Those(f, items, nameOf, false));
    }
  }

  /** Filtering loses and repeats nothing: the two parts hold the items, each as often as it
      was given, and their lengths add up. */
  lemma PartsHoldTheItems<T>(f: Filters, items: seq<T>, nameOf: T -> string)
    ensures var yes, no := Those(f, items, nameOf, true), Those(f, items, nameOf, false);
            && multiset(yes) + multiset(no) == multiset(items)
            && |yes| + |no| == |items|
            && (forall x :: x in yes ==> Accepts(f, nameOf(x)))
            && (forall x :: x in no ==> !Accepts(f, nameOf(x)))
  {
    PartsAddUp(f, items, nameOf);
    ThoseAgree(f, items, nameOf, true);
    ThoseAgree(f, items, nameOf, false);
  }
}
