/** Merging unified models: the sources by url with the newest entry kept, their sizes
    summed, and the capabilities and names united. */
module Merge {

  import Catalog
  import opened Wrappers

  type Source = Catalog.Source

  datatype Alias = Alias(name: string, origin: string)

  datatype Unified = Unified(
    id: string, sources: seq<Source>, aliases: seq<Alias>, capabilities: seq<string>,
    metadata: map<string, string>, diskSize: int, lastSeen: int)

  // ------------------------------------------------------------ newest by url

  type ByUrl = map<string, Source>

  /** An entry replaces the one with its url only if it is newer. */
  function Offer(m: ByUrl, s: Source): ByUrl {
    if s.url in m && s.lastSeen <= m[s.url].lastSeen then m else m[s.url := s]
  }

  function Newest(entries: seq<Source>): ByUrl {
    if entries == [] then map[] else Offer(Newest(entries[..|entries| - 1]), entries[|entries| - 1])
  }

  predicate HasUrl(entries: seq<Source>, url: string) {
    exists s :: s in entries && s.url == url
  }

  ghost predicate IsNewest(entries: seq<Source>, s: Source) {
    s in entries && forall t :: t in entries && t.url == s.url ==> t.lastSeen <= s.lastSeen
  }

  /** The map holds exactly the urls of the entries, each with an entry that none of the
      same url is newer than. */
  lemma {:induction false} NewestIsNewest(entries: seq<Source>, url: string)
    ensures url in Newest(entries) <==> HasUrl(entries, url)
    ensures url in Newest(entries) ==> Newest(entries)[url].url == url && IsNewest(entries, Newest(entries)[url])
  {
    if entries != [] {
      var before, last := entries[..|entries| - 1], entries[|entries| - 1];
      assert entries == before + [last];
      NewestIsNewest(before, url);
      if last.url == url {
        assert last in entries;
      } else if HasUrl(entries, url) {
        var s :| s in entries && s.url == url;
        assert s in before;
      }
    }
  }

  /** The merge of two maps of which the first is older: ties go to it. */
  function Over(a: ByUrl, b: ByUrl): ByUrl {
    map u | u in a.Keys + b.Keys :: if u in a && (u !in b || b[u].lastSeen <= a[u].lastSeen) then a[u] else b[u]
  }

  /** Each entry is under its own url. */
  predicate Keyed(m: ByUrl) {
    forall u :: u in m ==> m[u].url == u
  }

  lemma NewestIsKeyed(entries: seq<Source>)
    ensures Keyed(Newest(entries))
  {
    forall u | u in Newest(entries) ensures Newest(entries)[u].url == u {
      NewestIsNewest(entries, u);
    }
  }

  lemma OverOffer(a: ByUrl, b: ByUrl, s: Source)
    ensures Offer(Over(a, b), s) == Over(a, Offer(b, s))
  {
    var left, right := Offer(Over(a, b), s), Over(a, Offer(b, s));
    assert left.Keys == right.Keys;
    forall u | u in left.Keys ensures left[u] == right[u] {
    }
  }

  lemma {:induction false} NewestOfBoth(a: seq<Source>, b: seq<Source>)
    ensures Newest(a + b) == Over(Newest(a), Newest(b))
  {
    if b == [] {
      assert a + b == a;
    } else {
      var before, last := b[..|b| - 1], b[|b| - 1];
      NewestOfBoth(a, before);
      assert b == before + [last] && a + b == (a + before) + [last];
      OverOffer(Newest(a), Newest(before), last);
    }
  }

  /** The entries of a map, each once, in some order. */
  ghost predicate Lists(entries: seq<Source>, m: ByUrl) {
    && (forall s :: s in entries <==> s.url in m && m[s.url] == s)
    && (forall i, j :: 0 <= i < j < |entries| ==> entries[i] != entries[j])
  }

  lemma {:induction false} NewestOfListing(entries: seq<Source>, m: ByUrl)
    requires Keyed(m) && Lists(entries, m)
    ensures Newest(entries) == m
  {
    forall u ensures u in Newest(entries) <==> u in m
             ensures u in m ==> u in Newest(entries) && Newest(entries)[u] == m[u]
    {
      NewestIsNewest(entries, u);
      if u in m {
        assert m[u] in entries && m[u].url == u;
      }
    }
  }

  /** Grouping does not matter: merging merged groups gives what merging everything gives,
      ties included. */
  lemma GroupingIsFree(a: seq<Source>, b: seq<Source>, la: seq<Source>, lb: seq<Source>)
    requires Lists(la, Newest(a)) && Lists(lb, Newest(b))
    ensures Newest(la + lb) == Newest(a + b)
    ensures Newest(la + b) == Newest(a + b) && Newest(a + lb) == Newest(a + b)
  {
    NewestOfBoth(a, b);
    NewestIsKeyed(a);
    NewestIsKeyed(b);
    NewestOfListing(la, Newest(a));
    NewestOfListing(lb, Newest(b));
    NewestOfBoth(la, lb);
    NewestOfBoth(la, b);
    NewestOfBoth(a, lb);
  }

  /** Two groups have, for some url, different newest entries of the same age. */
  ghost predicate Tie(a: ByUrl, b: ByUrl) {
    exists u :: u in a && u in b && a[u] != b[u] && a[u].lastSeen == b[u].lastSeen
  }

  /** Two groups may be merged in either order if and only if no url ties. */
  lemma OrderIsFreeIff(a: seq<Source>, b: seq<Source>)
    ensures Newest(a + b) == Newest(b + a) <==> !Tie(Newest(a), Newest(b))
  {
    NewestOfBoth(a, b);
    NewestOfBoth(b, a);
    var m, n := Newest(a), Newest(b);
    if Tie(m, n) {
      var u :| u in m && u in n && m[u] != n[u] && m[u].lastSeen == n[u].lastSeen;
      assert Over(m, n)[u] == m[u] && Over(n, m)[u] == n[u];
    } else {
      forall u | u in m.Keys + n.Keys ensures Over(m, n)[u] == Over(n, m)[u] {
      }
      assert Over(m, n).Keys == Over(n, m).Keys;
    }
  }

  /** Entries of one url and age are equal. */
  ghost predicate NoTies(entries: seq<Source>) {
    forall s, t :: s in entries && t in entries && s.url == t.url && s.lastSeen == t.lastSeen ==> s == t
  }

  /** Without ties the result is the same for every order and repetition of the entries. */
  lemma AnyOrder(a: seq<Source>, b: seq<Source>)
    requires NoTies(a) && forall s :: s in a <==> s in b
    ensures Newest(a) == Newest(b)
  {
    forall u ensures u in Newest(a) <==> u in Newest(b)
             ensures u in Newest(a) && u in Newest(b) ==> Newest(a)[u] == Newest(b)[u]
    {
      NewestIsNewest(a, u);
      NewestIsNewest(b, u);
      if HasUrl(a, u) {
        var s :| s in a && s.url == u;
        assert s in b;
      }
      if HasUrl(b, u) {
        var s :| s in b && s.url == u;
        assert s in a;
      }
    }
  }

  // ------------------------------------------------------------------- totals

  ghost function Total(m: ByUrl): int
    decreases |m|
  {
    if m == map[] then 0
    else
      var u :| u in m;
      m[u].size + Total(m - {u})
  }

  /** The total may be taken in any order. */
  lemma {:induction false} TotalWithout(m: ByUrl, u: string)
    requires u in m
    ensures Total(m) == m[u].size + Total(m - {u})
    decreases |m|
  {
    var v :| v in m && Total(m) == m[v].size + Total(m - {v});
    if u != v {
      assert u in m - {v} && v in m - {u};
      assert |m - {v}| < |m| && |m - {u}| < |m| by {
        assert (m - {v}).Keys == m.Keys - {v} && (m - {u}).Keys == m.Keys - {u};
      }
      TotalWithout(m - {v}, u);
      TotalWithout(m - {u}, v);
      assert (m - {v}) - {u} == (m - {u}) - {v};
    }
  }

  // -------------------------------------------------------------------- merge

  function AllSources(models: seq<Unified>): seq<Source> {
    if models == [] then [] else AllSources(models[..|models| - 1]) + models[|models| - 1].sources
  }

  function AliasesOf(m: map<string, Alias>, aliases: seq<Alias>): map<string, Alias> {
    if aliases == [] then m
    else
      var last := aliases[|aliases| - 1];
      AliasesOf(m, aliases[..|aliases| - 1])[last.name := last]
  }

  /** The last alias of each name. */
  function AllAliases(models: seq<Unified>): map<string, Alias> {
    if models == [] then map[] else AliasesOf(AllAliases(models[..|models| - 1]), models[|models| - 1].aliases)
  }

  function AllCapabilities(models: seq<Unified>): set<string> {
    set m, c | m in models && c in m.capabilities :: c
  }

  function AllMetadata(models: seq<Unified>): map<string, string> {
    if models == [] then map[] else AllMetadata(models[..|models| - 1]) + models[|models| - 1].metadata
  }

  /** The position of the last alias of a name, else -1. */
  function LastNamed(aliases: seq<Alias>, n: string): (i: int)
    ensures -1 <= i < |aliases| && (i >= 0 ==> aliases[i].name == n)
    ensures forall j :: i < j < |aliases| ==> aliases[j].name != n
  {
    if aliases == [] || aliases[|aliases| - 1].name == n then |aliases| - 1 else LastNamed(aliases[..|aliases| - 1], n)
  }

  lemma {:induction false} LastOfList(m: map<string, Alias>, aliases: seq<Alias>, n: string)
    ensures var r, i := AliasesOf(m, aliases), LastNamed(aliases, n);
            if i >= 0 then n in r && r[n] == aliases[i]
            else (n in r <==> n in m) && (n in m ==> r[n] == m[n])
  {
    if aliases != [] {
      LastOfList(m, aliases[..|aliases| - 1], n);
    }
  }

  /** The position of the last model that has an alias of that name, else -1. */
  function LastWithName(models: seq<Unified>, n: string): (k: int)
    ensures -1 <= k < |models| && (k >= 0 ==> LastNamed(models[k].aliases, n) >= 0)
    ensures forall j :: k < j < |models| ==> LastNamed(models[j].aliases, n) < 0
  {
    if models == [] || LastNamed(models[|models| - 1].aliases, n) >= 0 then |models| - 1
    else LastWithName(models[..|models| - 1], n)
  }

  /** The merge knows a name if and only if some model does, and under it the last alias of
      the last model that has it. */
  lemma {:induction false} LastAliasWins(models: seq<Unified>, n: string)
    ensures var r, k := AllAliases(models), LastWithName(models, n);
            && (n in r <==> k >= 0)
            && (k >= 0 ==> r[n] == models[k].aliases[LastNamed(models[k].aliases, n)])
  {
    if models != [] {
      LastAliasWins(models[..|models| - 1], n);
      LastOfList(AllAliases(models[..|models| - 1]), models[|models| - 1].aliases, n);
    }
  }

  function LastWithKey(models: seq<Unified>, key: string): (k: int)
    ensures -1 <= k < |models| && (k >= 0 ==> key in models[k].metadata)
    ensures forall j :: k < j < |models| ==> key !in models[j].metadata
  {
    if models == [] || key in models[|models| - 1].metadata then |models| - 1
    else LastWithKey(models[..|models| - 1], key)
  }

  /** So it is with the metadata: a key that some model has keeps the value that the last of
      these models gives it. */
  lemma {:induction false} LastValueWins(models: seq<Unified>, key: string)
    ensures var r, k := AllMetadata(models), LastWithKey(models, key);
            && (key in r <==> k >= 0)
            && (k >= 0 ==> r[key] == models[k].metadata[key])
  {
    if models != [] {
      LastValueWins(models[..|models| - 1], key);
    }
  }

  predicate IsLatest(models: seq<Unified>, t: int) {
    (exists m :: m in models && m.lastSeen == t) && forall m :: m in models ==> m.lastSeen <= t
  }

  /** What the merge of two or more models is. */
  ghost predicate IsMerge(models: seq<Unified>, r: Unified)
    requires |models| >= 2
  {
    && r.id == models[0].id
    && Lists(r.sources, Newest(AllSources(models)))
    && r.diskSize == Total(Newest(AllSources(models)))
    && IsLatest(models, r.lastSeen)
    && (forall c :: c in r.capabilities <==> c in AllCapabilities(models))
    && (forall i, j :: 0 <= i < j < |r.capabilities| ==> r.capabilities[i] != r.capabilities[j])
    && (forall a :: a in r.aliases <==> a.name in AllAliases(models) && AllAliases(models)[a.name] == a)
    && r.metadata == AllMetadata(models)
  }

  lemma NewestOneMore(entries: seq<Source>, s: Source)
    ensures Newest(entries + [s]) == Offer(Newest(entries), s)
  {
    assert (entries + [s])[..|entries|] == entries;
  }

  method OfferAll(before: ByUrl, sources: seq<Source>, ghost seen: seq<Source>) returns (m: ByUrl)
    requires before == Newest(seen)
    ensures m == Newest(seen + sources)
  {
    m := before;
    assert seen + [] == seen;
    for i := 0 to |sources|
      invariant m == Newest(seen + sources[..i])
    {
      var s := sources[i];
      assert seen + sources[..i + 1] == (seen + sources[..i]) + [s];
      NewestOneMore(seen + sources[..i], s);
      if s.url in m {
        if s.lastSeen > m[s.url].lastSeen {
          m := m[s.url := s];
        }
      } else {
        m := m[s.url := s];
      }
    }
    assert sources[..|sources|] == sources;
  }

  method NameAll(before: map<string, Alias>, aliases: seq<Alias>) returns (m: map<string, Alias>)
    ensures m == AliasesOf(before, aliases)
  {
    m := before;
    for i := 0 to |aliases|
      invariant m == AliasesOf(before, aliases[..i])
    {
      assert aliases[..i + 1][..i] == aliases[..i];
      m := m[aliases[i].name := aliases[i]];
    }
    assert aliases[..|aliases|] == aliases;
  }

  lemma ListsNext(sources: seq<Source>, m: ByUrl, rest: set<string>, u: string)
    requires Keyed(m) && u in rest && rest <= m.Keys && Lists(sources, m - rest)
    ensures Lists(sources + [m[u]], m - (rest - {u}))
  {
    assert m[u].url == u && m[u] !in sources;
  }

  /** The entries of the map, and the sum of their sizes. */
  method ListSources(m: ByUrl) returns (sources: seq<Source>, total: int)
    requires Keyed(m)
    ensures Lists(sources, m) && total == Total(m)
  {
    sources, total := [], 0;
    var rest := m;
    while rest != map[]
      invariant rest.Keys <= m.Keys && forall u :: u in rest ==> rest[u] == m[u]
      invariant Lists(sources, m - rest.Keys)
      invariant total + Total(rest) == Total(m)
      decreases |rest|
    {
      var u :| u in rest;
      TotalWithout(rest, u);
      var s := rest[u];
      assert (rest - {u}).Keys == rest.Keys - {u};
      ListsNext(sources, m, rest.Keys, u);
      sources, total := sources + [s], total + s.size;
      rest := rest - {u};
    }
    assert m - rest.Keys == m;
  }

  method ListAliases(m: map<string, Alias>) returns (aliases: seq<Alias>)
    requires forall n :: n in m ==> m[n].name == n
    ensures forall a :: a in aliases <==> a.name in m && m[a.name] == a
  {
    aliases := [];
    var rest := m.Keys;
    while rest != {}
      invariant rest <= m.Keys
      invariant forall a :: a in aliases <==> a.name in m && a.name !in rest && m[a.name] == a
    {
      var n :| n in rest;
      aliases := aliases + [m[n]];
      rest := rest - {n};
    }
  }

  lemma AppendsNew(l: seq<string>, n: string)
    requires n !in l && forall i, j :: 0 <= i < j < |l| ==> l[i] != l[j]
    ensures forall i, j :: 0 <= i < j <= |l| ==> (l + [n])[i] != (l + [n])[j]
  {
  }

  method ListNames(names: set<string>) returns (l: seq<string>)
    ensures forall n :: n in l <==> n in names
    ensures forall i, j :: 0 <= i < j < |l| ==> l[i] != l[j]
  {
    l := [];
    var rest := names;
    while rest != {}
      invariant rest <= names
      invariant forall n :: n in l <==> n in names - rest
      invariant forall i, j :: 0 <= i < j < |l| ==> l[i] != l[j]
    {
      var n :| n in rest;
      assert n !in l;
      AppendsNew(l, n);
      l := l + [n];
      rest := rest - {n};
    }
  }

  lemma {:induction false} AliasesAreNamed(m: map<string, Alias>, aliases: seq<Alias>)
    requires forall n :: n in m ==> m[n].name == n
    ensures forall n :: n in AliasesOf(m, aliases) ==> AliasesOf(m, aliases)[n].name == n
  {
    if aliases != [] {
      AliasesAreNamed(m, aliases[..|aliases| - 1]);
    }
  }

  lemma {:induction false} AllAliasesAreNamed(models: seq<Unified>)
    ensures forall n :: n in AllAliases(models) ==> AllAliases(models)[n].name == n
  {
    if models != [] {
      AllAliasesAreNamed(models[..|models| - 1]);
      AliasesAreNamed(AllAliases(models[..|models| - 1]), models[|models| - 1].aliases);
    }
  }

  lemma CapabilitiesNext(models: seq<Unified>, i: nat, c: string)
    requires i < |models|
    ensures c in AllCapabilities(models[..i + 1]) <==> c in AllCapabilities(models[..i]) || c in models[i].capabilities
  {
    assert models[..i + 1] == models[..i] + [models[i]];
  }

  method Collect(models: seq<Unified>)
    returns (byUrl: ByUrl, byName: map<string, Alias>, capabilities: set<string>, metadata: map<string, string>)
    ensures byUrl == Newest(AllSources(models)) && byName == AllAliases(models)
    ensures capabilities == AllCapabilities(models) && metadata == AllMetadata(models)
  {
    byUrl, byName, capabilities, metadata := map[], map[], {}, map[];
    for i := 0 to |models|
      invariant byUrl == Newest(AllSources(models[..i])) && byName == AllAliases(models[..i])
      invariant capabilities == AllCapabilities(models[..i]) && metadata == AllMetadata(models[..i])
    {
      var m := models[i];
      assert models[..i + 1][..i] == models[..i];
      byUrl := OfferAll(byUrl, m.sources, AllSources(models[..i]));
      byName := NameAll(byName, m.aliases);
      forall c {
        CapabilitiesNext(models, i, c);
      }
      capabilities := capabilities + (set c | c in m.capabilities);
      metadata := metadata + m.metadata;
    }
    assert models[..|models|] == models;
  }

  method Latest(models: seq<Unified>) returns (lastSeen: int)
    requires models != []
    ensures IsLatest(models, lastSeen)
  {
    lastSeen := models[0].lastSeen;
    for i := 0 to |models|
      invariant exists m :: m in models && m.lastSeen == lastSeen
      invariant forall m :: m in models[..i] ==> m.lastSeen <= lastSeen
    {
      if models[i].lastSeen > lastSeen {
        lastSeen := models[i].lastSeen;
      }
    }
    assert models[..|models|] == models;
  }

  /** None of nothing; a single model as it is. */
  method MergeUnifiedModels(models: seq<Unified>) returns (r: Option<Unified>)
    ensures models == [] ==> r == None
    ensures |models| == 1 ==> r == Some(models[0])
    ensures |models| >= 2 ==> r.Some? && IsMerge(models, r.value)
  {
    if |models| == 0 {
      return None;
    }
    if |models| == 1 {
      return Some(models[0]);
    }
    var byUrl, byName, capabilities, metadata := Collect(models);
    var lastSeen := Latest(models);
    NewestIsKeyed(AllSources(models));
    var sources, total := ListSources(byUrl);
    AllAliasesAreNamed(models);
    var aliases := ListAliases(byName);
    var names := ListNames(capabilities);
    r := Some(Unified(models[0].id, sources, aliases, names, metadata, total, lastSeen));
  }

  /** Whatever the order in which the merge lists its sources, and without ties whatever
      the order of the models, the merged models agree on sources, size, capabilities and
      age. */
  lemma MergesAgree(models: seq<Unified>, others: seq<Unified>, r: Unified, q: Unified)
    requires |models| >= 2 && |others| >= 2 && IsMerge(models, r) && IsMerge(others, q)
    requires forall m :: m in models <==> m in others
    requires NoTies(AllSources(models))
    ensures (forall s :: s in r.sources <==> s in q.sources) && r.diskSize == q.diskSize && r.lastSeen == q.lastSeen
    ensures forall c :: c in r.capabilities <==> c in q.capabilities
  {
    forall s ensures s in AllSources(models) <==> s in AllSources(others) {
      SourceOfSome(models, s);
      SourceOfSome(others, s);
    }
    AnyOrder(AllSources(models), AllSources(others));
    assert AllCapabilities(models) == AllCapabilities(others);
  }

  lemma {:induction false} SourceOfSome(models: seq<Unified>, s: Source)
    ensures s in AllSources(models) <==> exists m :: m in models && s in m.sources
  {
    if models != [] {
      SourceOfSome(models[..|models| - 1], s);
      assert models == models[..|models| - 1] + [models[|models| - 1]];
    }
  }
}
