/** Deduplicating the models that endpoints report: what one report does to the
    catalogue, and what every run of reports keeps. */
module Unifier {
  import opened Catalog
  import opened Wrappers

  // ------------------------------------------------------------ one model

  function DigestOf(info: Info): string {
    if info.digest.Some? then info.digest.value else ""
  }

  function Total(sources: seq<Source>): int {
    if sources == [] then 0 else Total(sources[..|sources| - 1]) + sources[|sources| - 1].size
  }

  predicate HasSource(m: Model, url: string) {
    exists i :: 0 <= i < |m.sources| && m.sources[i].url == url
  }

  function SourceAt(sources: seq<Source>, url: string): nat
    requires exists i :: 0 <= i < |sources| && sources[i].url == url
    ensures SourceAt(sources, url) < |sources| && sources[SourceAt(sources, url)].url == url
    ensures forall j :: 0 <= j < SourceAt(sources, url) ==> sources[j].url != url
  {
    if sources[0].url == url then 0
    else
      assert exists i :: 0 <= i < |sources[1..]| && sources[1..][i].url == url by {
        var i :| 0 <= i < |sources| && sources[i].url == url;
        assert sources[1..][i - 1].url == url;
      }
      1 + SourceAt(sources[1..], url)
  }

  /** A digest that is reported replaces the stored one, even if it is empty. */
  function MergedDigest(stored: string, info: Info): string {
    if info.digest.Some? then info.digest.value else stored
  }

  function Merge(m: Model, info: Info, url: string, now: int): Model {
    var fresh_ := Source(url, info.name, info.size, now);
    var sources := if HasSource(m, url) then m.sources[SourceAt(m.sources, url) := fresh_] else m.sources + [fresh_];
    var aliases := if HasSource(m, url) || info.name in m.aliases then m.aliases else m.aliases + [info.name];
    Model(m.id, MergedDigest(m.digest, info), aliases, sources, Total(sources), now)
  }

  function Create(id: string, info: Info, url: string, now: int): Model {
    Model(id, DigestOf(info), [info.name], [Source(url, info.name, info.size, now)], info.size, now)
  }

  function SourcesWithout(sources: seq<Source>, url: string): seq<Source> {
    if sources == [] then []
    else
      var last := sources[|sources| - 1];
      SourcesWithout(sources[..|sources| - 1], url) + if last.url == url then [] else [last]
  }

  /** At least one source, no two at the same URL, and the size is their sum. */
  ghost predicate Sound(m: Model) {
    && m.sources != []
    && (forall i, j :: 0 <= i < j < |m.sources| ==> m.sources[i].url != m.sources[j].url)
    && m.diskSize == Total(m.sources)
  }

  // ------------------------------------------------------ where it goes

  /** The last eight characters, or all if there are fewer. */
  function Suffix(digest: string): string {
    if |digest| >= 8 then digest[|digest| - 8..] else digest
  }

  function UniqueId(base: string, digest: string, existing: string): string {
    if digest != "" && existing != "" && existing != digest then base + "-" + Suffix(digest) else base
  }

  predicate CanMergeByName(m: Model, digest: string) {
    digest == "" || m.digest == "" || m.digest == digest
  }

  /** The stored model a report is merged into; None if a new one is made. */
  function Target(s: Store, info: Info): Option<string> {
    if DigestOf(info) != "" && ByDigest(s, DigestOf(info)).Some? then ByDigest(s, DigestOf(info))
    else
      match ByName(s, info.name)
      case Some(id) => if id in s.catalog && CanMergeByName(s.catalog[id], DigestOf(info)) then Some(id) else None
      case None => None
  }

  function NewId(s: Store, info: Info): string {
    if info.name in s.catalog then UniqueId(info.name, DigestOf(info), s.catalog[info.name].digest) else info.name
  }

  /** The model that a report leaves in the catalogue. */
  function Result(s: Store, info: Info, url: string, now: int): Model {
    match Target(s, info)
    case Some(id) => if id in s.catalog then Merge(s.catalog[id], info, url, now) else Create(id, info, url, now)
    case None => Create(NewId(s, info), info, url, now)
  }

  function Process(s: Store, info: Info, url: string, now: int): Store {
    Put(s, Result(s, info, url, now))
  }

  function RemoveFromEndpoint(s: Store, id: string, url: string): Store {
    if id !in s.catalog then s
    else
      var m := s.catalog[id];
      var sources := SourcesWithout(m.sources, url);
      if sources == [] then Remove(s, id)
      else Put(s, m.(sources := sources, diskSize := Total(sources)))
  }

  function RemoveAllFromEndpoint(s: Store, ids: seq<string>, url: string): Store {
    if ids == [] then s
    else RemoveFromEndpoint(RemoveAllFromEndpoint(s, ids[..|ids| - 1], url), ids[|ids| - 1], url)
  }

  function Reported(infos: seq<Option<Info>>): seq<Info> {
    if infos == [] then []
    else
      var last := infos[|infos| - 1];
      Reported(infos[..|infos| - 1]) + if last.Some? then [last.value] else []
  }

  /** The store and the ids after a list of reports from one endpoint. */
  function ProcessAll(s: Store, infos: seq<Info>, url: string, now: int): (Store, seq<string>) {
    if infos == [] then (s, [])
    else
      var (before, ids) := ProcessAll(s, infos[..|infos| - 1], url, now);
      var last := infos[|infos| - 1];
      (Process(before, last, url, now), ids + [Result(before, last, url, now).id])
  }

  function IdsAt(s: Store, url: string): seq<string> {
    if url in s.endpointModels then s.endpointModels[url] else []
  }

  /** swept are the ids that a due cleanup takes out first. */
  function Unify(s: Store, swept: seq<string>, infos: seq<Option<Info>>, url: string, now: int): (Store, seq<string>) {
    var clean := RemoveEach(s, swept);
    var freed := RemoveAllFromEndpoint(clean, IdsAt(clean, url), url);
    var (filled, ids) := ProcessAll(freed, Reported(infos), url, now);
    (filled.(endpointModels := filled.endpointModels[url := ids]), ids)
  }

  // ------------------------------------------------------------- invariant

  /** A model without a digest can be found under its own id. */
  ghost predicate Findable(m: Model) {
    m.digest != "" || Lower(m.id) in SetOf(LowerAll(m.aliases))
  }

  ghost predicate Consistent(s: Store) {
    && Indexed(s) && UniqueDigests(s.catalog)
    && forall id :: id in s.catalog ==> Sound(s.catalog[id]) && Findable(s.catalog[id])
  }

  predicate Hosts(s: Store, id: string, url: string) {
    id in s.catalog && HasSource(s.catalog[id], url)
  }

  /** Every source's endpoint lists the model; for the endpoint being updated, the ids
      collected so far are its list. */
  ghost predicate TrackedWith(s: Store, url: string, ids: seq<string>) {
    forall id, at :: Hosts(s, id, at) ==> id in if at == url then ids else IdsAt(s, at)
  }

  ghost predicate Tracked(s: Store) {
    forall id, at :: Hosts(s, id, at) ==> id in IdsAt(s, at)
  }

  // ---------------------------------------------------- merging one report

  /** The id made for a report belongs to another model already. */
  predicate Collides(s: Store, info: Info) {
    Target(s, info) == None && NewId(s, info) in s.catalog
  }

  /** A digest that is present but empty meets a model that has one. */
  predicate Erases(s: Store, info: Info) {
    && info.digest == Some("")
    && Target(s, info).Some? && Target(s, info).value in s.catalog && s.catalog[Target(s, info).value].digest != ""
  }

  lemma TargetIsStored(s: Store, info: Info)
    requires Consistent(s) && Target(s, info).Some?
    ensures Target(s, info).value in s.catalog
    ensures var m := s.catalog[Target(s, info).value]; DigestOf(info) == "" || m.digest == "" || m.digest == DigestOf(info)
  {
    if DigestOf(info) != "" {
      DigestLookupIsScan(s, DigestOf(info));
    }
  }

  lemma {:induction false} TotalOfUpdate(sources: seq<Source>, i: nat, source: Source)
    requires i < |sources|
    ensures Total(sources[i := source]) == Total(sources) - sources[i].size + source.size
  {
    var n := |sources|;
    if i < n - 1 {
      TotalOfUpdate(sources[..n - 1], i, source);
      assert sources[i := source][..n - 1] == sources[..n - 1][i := source];
    } else {
      assert sources[i := source][..n - 1] == sources[..n - 1];
    }
  }

  lemma SetOfMore(keys: seq<string>, more: seq<string>)
    requires keys <= more
    ensures SetOf(keys) <= SetOf(more)
  {
    forall k | k in SetOf(keys) ensures k in SetOf(more) {
      var i :| 0 <= i < |keys| && keys[i] == k;
      assert more[i] == k;
    }
  }

  lemma MergeIsSound(m: Model, info: Info, url: string, now: int)
    requires Sound(m)
    ensures var m' := Merge(m, info, url, now);
            && Sound(m') && HasSource(m', url)
            && (forall at :: at != url ==> (HasSource(m', at) <==> HasSource(m, at)))
            && SetOf(LowerAll(m.aliases)) <= SetOf(LowerAll(m'.aliases))
  {
    var m' := Merge(m, info, url, now);
    SetOfMore(LowerAll(m.aliases), LowerAll(m'.aliases));
    MergeSources(m, info, url, now);
  }

  /** The endpoint is among the sources afterwards, and no other comes or goes. */
  lemma MergeSources(m: Model, info: Info, url: string, now: int)
    ensures HasSource(Merge(m, info, url, now), url)
    ensures forall at :: at != url ==> (HasSource(Merge(m, info, url, now), at) <==> HasSource(m, at))
  {
    var m' := Merge(m, info, url, now);
    var k := if HasSource(m, url) then SourceAt(m.sources, url) else |m.sources|;
    assert m'.sources[k].url == url;
    forall at | at != url ensures HasSource(m', at) <==> HasSource(m, at) {
      if HasSource(m, at) {
        var i :| 0 <= i < |m.sources| && m.sources[i].url == at;
        assert m'.sources[i].url == at;
      }
      if HasSource(m', at) {
        var i :| 0 <= i < |m'.sources| && m'.sources[i].url == at;
        assert m.sources[i].url == at;
      }
    }
  }

  lemma CreateIsSound(id: string, info: Info, url: string, now: int)
    requires DigestOf(info) != "" || Lower(id) == Lower(info.name)
    ensures var m := Create(id, info, url, now);
            Sound(m) && Findable(m) && forall at :: HasSource(m, at) <==> at == url
  {
    var m := Create(id, info, url, now);
    assert m.sources[0].url == url;
    assert LowerAll(m.aliases)[0] == Lower(info.name);
    assert Total(m.sources) == Total(m.sources[..0]) + info.size;
  }

  lemma NewIdCases(s: Store, info: Info)
    requires Consistent(s) && Target(s, info) == None
    ensures (NewId(s, info) == info.name && info.name !in s.catalog)
         || (DigestOf(info) != "" && |NewId(s, info)| > |info.name|)
  {
  }

  lemma MergeConsistentIff(s: Store, info: Info, url: string, now: int)
    requires Consistent(s) && Target(s, info).Some?
    ensures Consistent(Process(s, info, url, now)) <==> !Erases(s, info)
  {
    var id := Target(s, info).value;
    TargetIsStored(s, info);
    PutIndexesIff(s, Merge(s.catalog[id], info, url, now));
    MergeIsSound(s.catalog[id], info, url, now);
    MergeKeepsDigestsUnique(s, info, url, now);
    MergeStaysFindable(s, info, url, now);
  }

  lemma CreateConsistentIff(s: Store, info: Info, url: string, now: int)
    requires Consistent(s) && Target(s, info) == None
    ensures Consistent(Process(s, info, url, now)) <==> !Collides(s, info)
  {
    if Collides(s, info) {
      CollisionBreaksIndex(s, info, url, now);
    } else {
      NewModelIsConsistent(s, info, url, now);
    }
  }

  lemma NewModelIsConsistent(s: Store, info: Info, url: string, now: int)
    requires Consistent(s) && Target(s, info) == None && !Collides(s, info)
    ensures Consistent(Process(s, info, url, now))
  {
    var m := Create(NewId(s, info), info, url, now);
    NewIdCases(s, info);
    CreateIsSound(m.id, info, url, now);
    CreateKeepsDigestsUnique(s, info, url, now);
    PutNew(s, m);
  }

  lemma PutNew(s: Store, m: Model)
    requires Consistent(s) && m.id !in s.catalog && Sound(m) && Findable(m) && UniqueDigests(s.catalog[m.id := m])
    ensures Consistent(Put(s, m))
  {
    PutIndexesIff(s, m);
  }

  /** One report keeps the whole catalogue consistent exactly when it neither takes the id
      of another model nor erases a digest. */
  lemma ProcessConsistentIff(s: Store, info: Info, url: string, now: int)
    requires Consistent(s)
    ensures Consistent(Process(s, info, url, now)) <==> !Collides(s, info) && !Erases(s, info)
  {
    if Target(s, info).Some? {
      MergeConsistentIff(s, info, url, now);
    } else {
      CreateConsistentIff(s, info, url, now);
    }
  }

  lemma MergeKeepsDigestsUnique(s: Store, info: Info, url: string, now: int)
    requires Consistent(s) && Target(s, info).Some?
    ensures UniqueDigests(Process(s, info, url, now).catalog)
  {
    TargetIsStored(s, info);
    if DigestOf(info) != "" {
      DigestLookupIsScan(s, DigestOf(info));
    }
  }

  lemma MergeStaysFindable(s: Store, info: Info, url: string, now: int)
    requires Consistent(s) && Target(s, info).Some?
    ensures !Erases(s, info) ==> Findable(Result(s, info, url, now))
  {
    TargetIsStored(s, info);
    MergeIsSound(s.catalog[Target(s, info).value], info, url, now);
  }

  lemma CreateKeepsDigestsUnique(s: Store, info: Info, url: string, now: int)
    requires Consistent(s) && Target(s, info) == None
    ensures UniqueDigests(Process(s, info, url, now).catalog)
  {
    if DigestOf(info) != "" {
      DigestLookupIsScan(s, DigestOf(info));
    }
  }

  lemma CollisionBreaksIndex(s: Store, info: Info, url: string, now: int)
    requires Consistent(s) && Collides(s, info)
    ensures !Indexed(Process(s, info, url, now))
  {
    var m := Result(s, info, url, now);
    var previous := s.catalog[m.id];
    PutIndexesIff(s, m);
    NewIdCases(s, info);
    DigestLookupIsScan(s, DigestOf(info));
    if previous.digest == "" {
      assert Lower(m.id) in SetOf(LowerAll(previous.aliases));
      assert LowerAll(m.aliases) == [Lower(info.name)];
      assert Lower(m.id) !in SetOf(LowerAll(m.aliases));
    }
  }

  /** Models with different digests are never merged: a stored digest never changes. */
  lemma DigestsNeverChange(s: Store, info: Info, url: string, now: int, id: string)
    requires Consistent(s) && !Collides(s, info) && !Erases(s, info)
    requires id in s.catalog && s.catalog[id].digest != ""
    ensures var s' := Process(s, info, url, now); id in s'.catalog && s'.catalog[id].digest == s.catalog[id].digest
  {
    if Target(s, info).Some? {
      TargetIsStored(s, info);
    }
  }

  // ---------------------------------------------- a whole list of reports

  /** No report of the list takes another model's id or erases a digest. */
  ghost predicate Clean(s: Store, infos: seq<Info>, url: string, now: int) {
    if infos == [] then true
    else
      var init := infos[..|infos| - 1];
      var before := ProcessAll(s, init, url, now).0;
      && Clean(s, init, url, now)
      && !Collides(before, infos[|infos| - 1]) && !Erases(before, infos[|infos| - 1])
  }

  /** The models with a source at url are exactly ids. */
  ghost predicate HostedAt(s: Store, url: string, ids: seq<string>) {
    forall id :: id in ids <==> Hosts(s, id, url)
  }

  lemma ProcessTracks(s: Store, info: Info, url: string, now: int, ids: seq<string>)
    requires Consistent(s) && !Collides(s, info) && !Erases(s, info)
    requires TrackedWith(s, url, ids) && HostedAt(s, url, ids)
    ensures var s' := Process(s, info, url, now); var ids' := ids + [Result(s, info, url, now).id];
            TrackedWith(s', url, ids') && HostedAt(s', url, ids') && s'.endpointModels == s.endpointModels
  {
    var m := Result(s, info, url, now);
    if Target(s, info).Some? {
      TargetIsStored(s, info);
      MergeIsSound(s.catalog[m.id], info, url, now);
    } else {
      NewIdCases(s, info);
      CreateIsSound(m.id, info, url, now);
    }
    var s', ids' := Process(s, info, url, now), ids + [m.id];
    assert ids'[|ids|] == m.id;
    forall id, at ensures Hosts(s', id, at) <==> Hosts(s, id, at) || (id == m.id && at == url) {
    }
  }

  lemma {:induction false} ProcessAllKeeps(s: Store, infos: seq<Info>, url: string, now: int)
    requires Consistent(s) && TrackedWith(s, url, []) && HostedAt(s, url, []) && Clean(s, infos, url, now)
    ensures var (s', ids) := ProcessAll(s, infos, url, now);
            Consistent(s') && TrackedWith(s', url, ids) && HostedAt(s', url, ids) && s'.endpointModels == s.endpointModels
  {
    if infos != [] {
      var init, last := infos[..|infos| - 1], infos[|infos| - 1];
      ProcessAllKeeps(s, init, url, now);
      var (before, ids) := ProcessAll(s, init, url, now);
      ProcessConsistentIff(before, last, url, now);
      ProcessTracks(before, last, url, now, ids);
    }
  }

  // --------------------------------------------------- removing an endpoint

  lemma {:induction false} SourcesWithoutIsFilter(sources: seq<Source>, url: string)
    ensures forall src :: src in SourcesWithout(sources, url) <==> src in sources && src.url != url
  {
    if sources != [] {
      var init, last := sources[..|sources| - 1], sources[|sources| - 1];
      assert sources == init + [last];
      SourcesWithoutIsFilter(init, url);
    }
  }

  lemma {:induction false} SourcesStayDistinct(sources: seq<Source>, url: string)
    ensures (forall i, j :: 0 <= i < j < |sources| ==> sources[i].url != sources[j].url) ==>
              forall i, j :: 0 <= i < j < |SourcesWithout(sources, url)| ==>
                SourcesWithout(sources, url)[i].url != SourcesWithout(sources, url)[j].url
  {
    if sources != [] {
      var init, last := sources[..|sources| - 1], sources[|sources| - 1];
      assert sources == init + [last];
      SourcesWithoutIsFilter(init, url);
      SourcesStayDistinct(init, url);
      if forall i, j :: 0 <= i < j < |sources| ==> sources[i].url != sources[j].url {
        forall i | 0 <= i < |SourcesWithout(init, url)| ensures SourcesWithout(init, url)[i].url != last.url {
          assert SourcesWithout(init, url)[i] in init;
        }
      }
    }
  }

  lemma RemainingHosts(m: Model, url: string, at: string)
    ensures HasSource(m.(sources := SourcesWithout(m.sources, url)), at) <==> at != url && HasSource(m, at)
  {
    SourcesWithoutIsFilter(m.sources, url);
    var sources := SourcesWithout(m.sources, url);
    if HasSource(m.(sources := sources), at) {
      var i :| 0 <= i < |sources| && sources[i].url == at;
      assert sources[i] in m.sources;
    }
    if HasSource(m, at) && at != url {
      var i :| 0 <= i < |m.sources| && m.sources[i].url == at;
      assert m.sources[i] in sources;
    }
  }

  lemma RemainingSources(m: Model, url: string)
    requires Sound(m)
    ensures var sources := SourcesWithout(m.sources, url);
            var m' := m.(sources := sources, diskSize := Total(sources));
            && (sources != [] ==> Sound(m'))
            && (sources == [] ==> forall at :: HasSource(m, at) ==> at == url)
            && forall at :: HasSource(m', at) <==> at != url && HasSource(m, at)
  {
    SourcesWithoutIsFilter(m.sources, url);
    SourcesStayDistinct(m.sources, url);
    var sources := SourcesWithout(m.sources, url);
    var m' := m.(sources := sources, diskSize := Total(sources));
    forall at ensures HasSource(m', at) <==> at != url && HasSource(m, at) {
      RemainingHosts(m, url, at);
      assert HasSource(m', at) <==> HasSource(m.(sources := sources), at);
    }
  }

  lemma RemoveFromEndpointConsistent(s: Store, id: string, url: string)
    requires Consistent(s)
    ensures Consistent(RemoveFromEndpoint(s, id, url))
  {
    if id in s.catalog {
      var m := s.catalog[id];
      var sources := SourcesWithout(m.sources, url);
      if sources == [] {
        RemoveKeepsIndexed(s, id);
      } else {
        RemainingSources(m, url);
        PutSameNames(s, m.(sources := sources, diskSize := Total(sources)));
      }
    }
  }

  lemma PutSameNames(s: Store, m: Model)
    requires Consistent(s) && m.id in s.catalog && Sound(m)
    requires m.digest == s.catalog[m.id].digest && m.aliases == s.catalog[m.id].aliases
    ensures Consistent(Put(s, m))
  {
    PutIndexesIff(s, m);
  }

  lemma RemoveFromEndpointUnhosts(s: Store, id: string, url: string)
    requires id in s.catalog ==> s.catalog[id].id == id
    ensures var s' := RemoveFromEndpoint(s, id, url);
            && s'.endpointModels == s.endpointModels
            && (forall other, at :: Hosts(s', other, at) ==> Hosts(s, other, at) && !(other == id && at == url))
  {
    var s' := RemoveFromEndpoint(s, id, url);
    if id in s.catalog {
      var m := s.catalog[id];
      forall other, at | Hosts(s', other, at) ensures Hosts(s, other, at) && !(other == id && at == url) {
        if other == id {
          RemainingHosts(m, url, at);
          assert s'.catalog[id].sources == SourcesWithout(m.sources, url);
        } else {
          assert s'.catalog[other] == s.catalog[other];
        }
      }
    }
  }

  lemma {:induction false} RemoveAllFromEndpointKeeps(s: Store, ids: seq<string>, url: string)
    requires Consistent(s)
    ensures var s' := RemoveAllFromEndpoint(s, ids, url);
            && Consistent(s') && s'.endpointModels == s.endpointModels
            && (forall other, at :: Hosts(s', other, at) ==> Hosts(s, other, at) && !(other in ids && at == url))
  {
    if ids != [] {
      RemoveAllFromEndpointKeeps(s, ids[..|ids| - 1], url);
      RemoveFromEndpointConsistent(RemoveAllFromEndpoint(s, ids[..|ids| - 1], url), ids[|ids| - 1], url);
      RemoveFromEndpointUnhosts(RemoveAllFromEndpoint(s, ids[..|ids| - 1], url), ids[|ids| - 1], url);
      assert ids == ids[..|ids| - 1] + [ids[|ids| - 1]];
    }
  }

  lemma {:induction false} RemoveEachKeeps(s: Store, ids: seq<string>)
    requires Consistent(s) && Tracked(s)
    ensures Consistent(RemoveEach(s, ids)) && Tracked(RemoveEach(s, ids))
    ensures RemoveEach(s, ids).endpointModels == s.endpointModels
  {
    if ids != [] {
      RemoveEachKeeps(s, ids[..|ids| - 1]);
      var before := RemoveEach(s, ids[..|ids| - 1]);
      RemoveKeepsIndexed(before, ids[|ids| - 1]);
      forall id, at | Hosts(RemoveEach(s, ids), id, at) ensures Hosts(before, id, at) {
      }
    }
  }

  // ------------------------------------------------------------ main results

  ghost predicate CleanUpdate(s: Store, swept: seq<string>, infos: seq<Option<Info>>, url: string, now: int) {
    var clean := RemoveEach(s, swept);
    Clean(RemoveAllFromEndpoint(clean, IdsAt(clean, url), url), Reported(infos), url, now)
  }

  /** After an endpoint's update the models with a source there are exactly the ones it
      reported, none for an empty list, and the catalogue is consistent again. */
  lemma UnifyTracks(s: Store, swept: seq<string>, infos: seq<Option<Info>>, url: string, now: int)
    requires Consistent(s) && Tracked(s) && CleanUpdate(s, swept, infos, url, now)
    ensures var (s', ids) := Unify(s, swept, infos, url, now);
            && Consistent(s') && Tracked(s')
            && HostedAt(s', url, ids) && IdsAt(s', url) == ids && |ids| == |Reported(infos)|
  {
    var clean := RemoveEach(s, swept);
    RemoveEachKeeps(s, swept);
    EndpointIsFreed(clean, url);
    var freed := RemoveAllFromEndpoint(clean, IdsAt(clean, url), url);
    ProcessAllKeeps(freed, Reported(infos), url, now);
    OneIdEach(freed, Reported(infos), url, now);
    var (filled, ids) := ProcessAll(freed, Reported(infos), url, now);
    ListIsSet(filled, url, ids);
  }

  lemma EndpointIsFreed(s: Store, url: string)
    requires Consistent(s) && Tracked(s)
    ensures var freed := RemoveAllFromEndpoint(s, IdsAt(s, url), url);
            Consistent(freed) && TrackedWith(freed, url, []) && HostedAt(freed, url, [])
  {
    RemoveAllFromEndpointKeeps(s, IdsAt(s, url), url);
    var freed := RemoveAllFromEndpoint(s, IdsAt(s, url), url);
    forall id, at | Hosts(freed, id, at) ensures Hosts(s, id, at) {
    }
  }

  lemma ListIsSet(s: Store, url: string, ids: seq<string>)
    requires Consistent(s) && TrackedWith(s, url, ids) && HostedAt(s, url, ids)
    ensures var s' := s.(endpointModels := s.endpointModels[url := ids]);
            Consistent(s') && Tracked(s') && HostedAt(s', url, ids) && IdsAt(s', url) == ids
  {
    var s' := s.(endpointModels := s.endpointModels[url := ids]);
    forall id, at ensures Hosts(s', id, at) <==> Hosts(s, id, at) {
    }
  }

  lemma {:induction false} OneIdEach(s: Store, infos: seq<Info>, url: string, now: int)
    ensures |ProcessAll(s, infos, url, now).1| == |infos|
  {
    if infos != [] {
      OneIdEach(s, infos[..|infos| - 1], url, now);
    }
  }

  datatype Operation = Update(swept: seq<string>, infos: seq<Option<Info>>, url: string, now: int) | Sweep(ids: seq<string>)

  const EMPTY := Store(map[], map[], map[], map[])

  function Apply(s: Store, op: Operation): Store {
    match op
    case Update(swept, infos, url, now) => Unify(s, swept, infos, url, now).0
    case Sweep(ids) => RemoveEach(s, ids)
  }

  function Run(s: Store, ops: seq<Operation>): Store
    decreases |ops|
  {
    if ops == [] then s else Run(Apply(s, ops[0]), ops[1..])
  }

  ghost predicate CleanRun(s: Store, ops: seq<Operation>)
    decreases |ops|
  {
    ops == [] ||
    (&& (match ops[0] case Update(swept, infos, url, now) => CleanUpdate(s, swept, infos, url, now) case Sweep(_) => true)
     && CleanRun(Apply(s, ops[0]), ops[1..]))
  }

  lemma {:induction false} RunKeeps(s: Store, ops: seq<Operation>)
    requires Consistent(s) && Tracked(s) && CleanRun(s, ops)
    ensures Consistent(Run(s, ops)) && Tracked(Run(s, ops))
    decreases |ops|
  {
    if ops != [] {
      match ops[0] {
        case Update(swept, infos, url, now) => UnifyTracks(s, swept, infos, url, now);
        case Sweep(ids) => RemoveEachKeeps(s, ids);
      }
      RunKeeps(Apply(s, ops[0]), ops[1..]);
    }
  }

  /** Whatever updates and cleanups have happened: the indexes answer as a scan would, no
      digest is shared, every model has sources at distinct URLs that add up to its size,
      and each of those endpoints lists it. */
  lemma CatalogueInvariant(ops: seq<Operation>)
    requires CleanRun(EMPTY, ops)
    ensures var s := Run(EMPTY, ops);
            && Consistent(s) && Tracked(s)
            && (forall digest, id :: digest != "" ==>
                  (ByDigest(s, digest) == Some(id) <==> id in s.catalog && s.catalog[id].digest == digest))
            && (forall name :: ByName(s, name).Some? <==> exists id :: id in s.catalog && AnswersTo(s.catalog[id], name))
  {
    assert DigestsById(EMPTY.catalog) == map[] && NamesById(EMPTY.catalog) == map[];
    RunKeeps(EMPTY, ops);
    var s := Run(EMPTY, ops);
    forall digest | digest != ""
      ensures forall id :: ByDigest(s, digest) == Some(id) <==> id in s.catalog && s.catalog[id].digest == digest
    {
      DigestLookupIsScan(s, digest);
    }
    forall name ensures ByName(s, name).Some? <==> exists id :: id in s.catalog && AnswersTo(s.catalog[id], name) {
      NameLookupIsScan(s, name);
    }
  }

  // --------------------------------------------------- what reports leave behind

  /** The model has this source, with this name, size and time. */
  predicate Holds(s: Store, id: string, src: Source) {
    id in s.catalog && src in s.catalog[id].sources
  }

  function SourceFor(info: Info, url: string, now: int): Source {
    Source(url, info.name, info.size, now)
  }

  /** A report is recorded as it is: the age of its model is now, its endpoint's source has
      its name, size and time, every other source stays, and a digest it carries is kept. */
  lemma ReportIsRecorded(s: Store, info: Info, url: string, now: int)
    requires Consistent(s)
    ensures var m := Result(s, info, url, now);
            && m.lastSeen == now && SourceFor(info, url, now) in m.sources
            && (Target(s, info).Some? ==> m.id == Target(s, info).value && m.id in s.catalog)
            && (Target(s, info) == None ==> m.id == NewId(s, info))
            && (forall src: Source :: src.url != url ==>
                  (src in m.sources <==> Target(s, info).Some? && src in s.catalog[Target(s, info).value].sources))
            && (DigestOf(info) != "" ==> m.digest == DigestOf(info))
  {
    if Target(s, info).Some? {
      TargetIsStored(s, info);
      MergeRecords(s.catalog[Target(s, info).value], info, url, now);
    } else {
      NewIdCases(s, info);
    }
  }

  lemma MergeRecords(m: Model, info: Info, url: string, now: int)
    requires Sound(m)
    ensures var m' := Merge(m, info, url, now);
            && SourceFor(info, url, now) in m'.sources
            && forall src: Source :: src.url != url ==> (src in m'.sources <==> src in m.sources)
  {
    var m' := Merge(m, info, url, now);
    var k := if HasSource(m, url) then SourceAt(m.sources, url) else |m.sources|;
    assert m'.sources[k] == SourceFor(info, url, now);
    forall src: Source | src.url != url ensures src in m'.sources <==> src in m.sources {
      if src in m.sources {
        var i :| 0 <= i < |m.sources| && m.sources[i] == src;
        assert m'.sources[i] == src;
      }
      if src in m'.sources {
        var i :| 0 <= i < |m'.sources| && m'.sources[i] == src;
        assert m.sources[i] == src;
      }
    }
  }

  /** Where a report goes: to the model that has its digest; failing that, to the model that
      its name resolves to, unless the two have different digests; else to a new one. */
  lemma ReportJoins(s: Store, info: Info, url: string, now: int)
    requires Consistent(s)
    ensures forall id :: DigestOf(info) != "" && id in s.catalog && s.catalog[id].digest == DigestOf(info) ==>
                           Result(s, info, url, now).id == id
    ensures (forall id :: id in s.catalog && DigestOf(info) != "" ==> s.catalog[id].digest != DigestOf(info)) ==>
              match ByName(s, info.name)
              case Some(id) =>
                && id in s.catalog
                && (if DigestOf(info) == "" || s.catalog[id].digest == "" then Result(s, info, url, now).id == id
                    else !Collides(s, info) ==> Result(s, info, url, now).id !in s.catalog)
              case None => Result(s, info, url, now).id == info.name && info.name !in s.catalog
  {
    if DigestOf(info) != "" {
      DigestLookupIsScan(s, DigestOf(info));
    }
    NameLookupIsScan(s, info.name);
    ReportIsRecorded(s, info, url, now);
  }

  lemma OthersStay(s: Store, info: Info, url: string, now: int, id: string)
    requires id != Result(s, info, url, now).id
    ensures var s' := Process(s, info, url, now);
            (id in s'.catalog <==> id in s.catalog) && (id in s.catalog ==> s'.catalog[id] == s.catalog[id])
  {
  }

  /** The last report that went to a model. */
  predicate IsLast(ids: seq<string>, k: nat) {
    k < |ids| && forall j :: k < j < |ids| ==> ids[j] != ids[k]
  }

  /** What a list of reports leaves: each model reported has the age now and, for this
      endpoint, the source of the last report of it; the others have the age they had. */
  ghost predicate Records(s: Store, s': Store, ids: seq<string>, infos: seq<Info>, url: string, now: int) {
    && |ids| == |infos|
    && (forall id :: id in ids ==> id in s'.catalog && s'.catalog[id].lastSeen == now)
    && (forall k: nat :: IsLast(ids, k) ==> Holds(s', ids[k], SourceFor(infos[k], url, now)))
    && (forall id :: id in s'.catalog && id !in ids ==> id in s.catalog && s'.catalog[id].lastSeen == s.catalog[id].lastSeen)
  }

  /** Sources at other endpoints come and go in neither. */
  ghost predicate KeepsOthers(s: Store, s': Store, url: string) {
    forall id, src: Source :: src.url != url ==> (Holds(s', id, src) <==> Holds(s, id, src))
  }

  lemma AgesOneMore(s: Store, before: Store, ids: seq<string>, infos: seq<Info>, info: Info, url: string, now: int)
    requires Consistent(before) && Records(s, before, ids, infos, url, now)
    ensures var m, s' := Result(before, info, url, now), Process(before, info, url, now); var ids' := ids + [m.id];
            && (forall id :: id in ids' ==> id in s'.catalog && s'.catalog[id].lastSeen == now)
            && (forall id :: id in s'.catalog && id !in ids' ==> id in s.catalog && s'.catalog[id].lastSeen == s.catalog[id].lastSeen)
  {
    var m, s' := Result(before, info, url, now), Process(before, info, url, now);
    ReportIsRecorded(before, info, url, now);
    forall id | id in ids + [m.id] ensures id in s'.catalog && s'.catalog[id].lastSeen == now {
      if id != m.id {
        OthersStay(before, info, url, now, id);
      }
    }
    forall id | id in s'.catalog && id !in ids + [m.id]
      ensures id in s.catalog && s'.catalog[id].lastSeen == s.catalog[id].lastSeen
    {
      assert m.id in ids + [m.id];
      OthersStay(before, info, url, now, id);
    }
  }

  lemma LastOfMore(ids: seq<string>, id: string, k: nat)
    requires IsLast(ids + [id], k)
    ensures k == |ids| || (IsLast(ids, k) && ids[k] != id)
  {
    var all := ids + [id];
    if k < |ids| {
      assert all[|ids|] != all[k];
      forall j | k < j < |ids| ensures ids[j] != ids[k] {
        assert all[j] != all[k];
      }
    }
  }

  lemma SourcesOneMore(s: Store, before: Store, ids: seq<string>, infos: seq<Info>, info: Info, url: string, now: int)
    requires Consistent(before) && Records(s, before, ids, infos, url, now)
    ensures var m, s' := Result(before, info, url, now), Process(before, info, url, now); var ids' := ids + [m.id];
            forall k: nat :: IsLast(ids', k) ==> Holds(s', ids'[k], SourceFor((infos + [info])[k], url, now))
  {
    var m, s' := Result(before, info, url, now), Process(before, info, url, now);
    ReportIsRecorded(before, info, url, now);
    forall k: nat | IsLast(ids + [m.id], k) ensures Holds(s', (ids + [m.id])[k], SourceFor((infos + [info])[k], url, now)) {
      LastOfMore(ids, m.id, k);
      if k < |ids| {
        assert Holds(before, ids[k], SourceFor(infos[k], url, now));
        OthersStay(before, info, url, now, ids[k]);
      }
    }
  }

  lemma OneMoreRecorded(s: Store, before: Store, ids: seq<string>, infos: seq<Info>, info: Info, url: string, now: int)
    requires Consistent(before) && Records(s, before, ids, infos, url, now)
    ensures Records(s, Process(before, info, url, now), ids + [Result(before, info, url, now).id], infos + [info], url, now)
  {
    AgesOneMore(s, before, ids, infos, info, url, now);
    SourcesOneMore(s, before, ids, infos, info, url, now);
  }

  lemma OneMoreKeepsOthers(s: Store, before: Store, info: Info, url: string, now: int)
    requires Consistent(before) && !Collides(before, info) && KeepsOthers(s, before, url)
    ensures KeepsOthers(s, Process(before, info, url, now), url)
  {
    var m, s' := Result(before, info, url, now), Process(before, info, url, now);
    ReportIsRecorded(before, info, url, now);
    forall id, src: Source | src.url != url ensures Holds(s', id, src) <==> Holds(s, id, src) {
      if id != m.id {
        OthersStay(before, info, url, now, id);
      }
      assert Holds(before, id, src) <==> Holds(s, id, src);
    }
  }

  lemma {:induction false} ReportsAreRecorded(s: Store, infos: seq<Info>, url: string, now: int)
    requires Consistent(s) && TrackedWith(s, url, []) && HostedAt(s, url, []) && Clean(s, infos, url, now)
    ensures Records(s, ProcessAll(s, infos, url, now).0, ProcessAll(s, infos, url, now).1, infos, url, now)
    ensures KeepsOthers(s, ProcessAll(s, infos, url, now).0, url)
  {
    if infos != [] {
      var init, last := infos[..|infos| - 1], infos[|infos| - 1];
      assert init + [last] == infos;
      BeforeLast(s, init, last, url, now);
      ReportsAreRecorded(s, init, url, now);
      LastIsRecorded(s, init, last, url, now);
    }
  }

  lemma LastIsRecorded(s: Store, infos: seq<Info>, last: Info, url: string, now: int)
    requires Consistent(s) && TrackedWith(s, url, []) && HostedAt(s, url, []) && Clean(s, infos + [last], url, now)
    requires var (before, ids) := ProcessAll(s, infos, url, now);
             Records(s, before, ids, infos, url, now) && KeepsOthers(s, before, url)
    ensures var (s', ids) := ProcessAll(s, infos + [last], url, now);
            Records(s, s', ids, infos + [last], url, now) && KeepsOthers(s, s', url)
  {
    var (before, ids) := ProcessAll(s, infos, url, now);
    BeforeLast(s, infos, last, url, now);
    OneMoreRecorded(s, before, ids, infos, last, url, now);
    OneMoreKeepsOthers(s, before, last, url, now);
    ProcessOneMore(s, infos, last, url, now);
  }

  lemma BeforeLast(s: Store, infos: seq<Info>, last: Info, url: string, now: int)
    requires Consistent(s) && TrackedWith(s, url, []) && HostedAt(s, url, []) && Clean(s, infos + [last], url, now)
    ensures Clean(s, infos, url, now)
    ensures var before := ProcessAll(s, infos, url, now).0; Consistent(before) && !Collides(before, last)
  {
    assert (infos + [last])[..|infos|] == infos;
    ProcessAllKeeps(s, infos, url, now);
  }

  /** Freeing an endpoint takes no source of another, and leaves the ages alone. */
  lemma FreeingOne(s: Store, id: string, url: string)
    requires id in s.catalog ==> s.catalog[id].id == id
    ensures var s' := RemoveFromEndpoint(s, id, url);
            KeepsOthers(s, s', url) && KeepsAges(s, s')
  {
    if id in s.catalog {
      var m, s' := s.catalog[id], RemoveFromEndpoint(s, id, url);
      SourcesWithoutIsFilter(m.sources, url);
      forall other, src: Source | src.url != url ensures Holds(s', other, src) <==> Holds(s, other, src) {
        if other == id {
          assert src in SourcesWithout(m.sources, url) <==> src in m.sources;
        }
      }
    }
  }

  ghost predicate KeepsAges(s: Store, s': Store) {
    forall id :: id in s'.catalog ==> id in s.catalog && s'.catalog[id].lastSeen == s.catalog[id].lastSeen
  }

  lemma {:induction false} FreeingKeeps(s: Store, ids: seq<string>, url: string)
    requires Consistent(s)
    ensures var s' := RemoveAllFromEndpoint(s, ids, url); KeepsOthers(s, s', url) && KeepsAges(s, s')
  {
    if ids != [] {
      var before := RemoveAllFromEndpoint(s, ids[..|ids| - 1], url);
      FreeingKeeps(s, ids[..|ids| - 1], url);
      RemoveAllFromEndpointKeeps(s, ids[..|ids| - 1], url);
      FreeingOne(before, ids[|ids| - 1], url);
      var s' := RemoveAllFromEndpoint(s, ids, url);
      forall id, src: Source | src.url != url ensures Holds(s', id, src) <==> Holds(s, id, src) {
        assert Holds(before, id, src) <==> Holds(s, id, src);
      }
    }
  }

  /** A sweep takes out the models it names and leaves the others as they are. */
  lemma {:induction false} SweptAreGone(s: Store, ids: seq<string>)
    ensures RemoveEach(s, ids).catalog == s.catalog - SetOf(ids)
  {
    if ids != [] {
      SweptAreGone(s, ids[..|ids| - 1]);
      SetOfLast(ids);
    }
  }

  /** What an update leaves: of each model reported, its age and the endpoint's source; of
      every other model its age; and of all models that were not swept the other sources. */
  lemma UpdateIsRecorded(s: Store, swept: seq<string>, infos: seq<Option<Info>>, url: string, now: int)
    requires Consistent(s) && Tracked(s) && CleanUpdate(s, swept, infos, url, now)
    ensures var (s', ids) := Unify(s, swept, infos, url, now);
            && Records(s, s', ids, Reported(infos), url, now)
            && KeepsOthers(RemoveEach(s, swept), s', url)
  {
    var clean := RemoveEach(s, swept);
    RemoveEachKeeps(s, swept);
    SweptAreGone(s, swept);
    EndpointIsFreed(clean, url);
    var freed := RemoveAllFromEndpoint(clean, IdsAt(clean, url), url);
    FreeingKeeps(clean, IdsAt(clean, url), url);
    ReportsAreRecorded(freed, Reported(infos), url, now);
    var (filled, ids) := ProcessAll(freed, Reported(infos), url, now);
    var s' := Unify(s, swept, infos, url, now).0;
    assert s'.catalog == filled.catalog;
    forall id, src: Source | src.url != url ensures Holds(s', id, src) <==> Holds(clean, id, src) {
      assert Holds(s', id, src) <==> Holds(filled, id, src);
      assert Holds(freed, id, src) <==> Holds(clean, id, src);
    }
    RecordsCarry(s, freed, filled, s', ids, Reported(infos), url, now);
  }

  lemma RecordsCarry(s: Store, freed: Store, filled: Store, s': Store, ids: seq<string>, infos: seq<Info>, url: string, now: int)
    requires Records(freed, filled, ids, infos, url, now) && KeepsAges(s, freed) && s'.catalog == filled.catalog
    ensures Records(s, s', ids, infos, url, now)
  {
    forall k: nat | IsLast(ids, k) ensures Holds(s', ids[k], SourceFor(infos[k], url, now)) {
      assert Holds(filled, ids[k], SourceFor(infos[k], url, now));
    }
  }

  // ------------------------------------------------------------ ages over runs

  /** What the endpoints have said: when each model was last reported, and as what each
      endpoint last reported it. */
  datatype Ledger = Ledger(ages: map<string, int>, sources: map<(string, string), Source>)

  /** The last position of an id in a list. */
  function LastIndex(ids: seq<string>, id: string): (k: nat)
    requires id in ids
    ensures IsLast(ids, k) && ids[k] == id
  {
    if ids[|ids| - 1] == id then |ids| - 1
    else
      assert ids == ids[..|ids| - 1] + [ids[|ids| - 1]];
      LastIndex(ids[..|ids| - 1], id)
  }

  function Note(l: Ledger, ids: seq<string>, infos: seq<Info>, url: string, now: int): Ledger
    requires |ids| == |infos|
  {
    Ledger(l.ages + (map id | id in ids :: now),
           l.sources + (map id | id in ids :: (id, url) := SourceFor(infos[LastIndex(ids, id)], url, now)))
  }

  function NoteOperation(s: Store, op: Operation, l: Ledger): Ledger {
    match op
    case Update(swept, infos, url, now) =>
      OneIdEachUnified(s, swept, infos, url, now);
      Note(l, Unify(s, swept, infos, url, now).1, Reported(infos), url, now)
    case Sweep(_) => l
  }

  /** The ledger after a run, kept from the ids that the updates return. */
  function Noted(s: Store, ops: seq<Operation>, l: Ledger): Ledger
    decreases |ops|
  {
    if ops == [] then l else Noted(Apply(s, ops[0]), ops[1..], NoteOperation(s, ops[0], l))
  }

  lemma OneIdEachUnified(s: Store, swept: seq<string>, infos: seq<Option<Info>>, url: string, now: int)
    ensures |Unify(s, swept, infos, url, now).1| == |Reported(infos)|
  {
    var clean := RemoveEach(s, swept);
    OneIdEach(RemoveAllFromEndpoint(clean, IdsAt(clean, url), url), Reported(infos), url, now);
  }

  /** The catalogue says nothing but what the endpoints have said. */
  ghost predicate Reflects(s: Store, l: Ledger) {
    && (forall id :: id in s.catalog ==> id in l.ages && s.catalog[id].lastSeen == l.ages[id])
    && (forall id, src :: Holds(s, id, src) ==> (id, src.url) in l.sources && l.sources[(id, src.url)] == src)
  }

  lemma UpdateReflects(s: Store, swept: seq<string>, infos: seq<Option<Info>>, url: string, now: int, l: Ledger)
    requires Consistent(s) && Tracked(s) && CleanUpdate(s, swept, infos, url, now) && Reflects(s, l)
    ensures |Unify(s, swept, infos, url, now).1| == |Reported(infos)|
    ensures var (s', ids) := Unify(s, swept, infos, url, now); Reflects(s', Note(l, ids, Reported(infos), url, now))
  {
    var (s', ids) := Unify(s, swept, infos, url, now);
    UpdateIsRecorded(s, swept, infos, url, now);
    UnifyTracks(s, swept, infos, url, now);
    SweptAreGone(s, swept);
    NoteReflects(s, RemoveEach(s, swept), s', ids, Reported(infos), url, now, l);
  }

  lemma NoteReflects(s: Store, clean: Store, s': Store, ids: seq<string>, infos: seq<Info>, url: string, now: int, l: Ledger)
    requires Consistent(s') && HostedAt(s', url, ids) && Records(s, s', ids, infos, url, now) && KeepsOthers(clean, s', url)
    requires forall id :: id in clean.catalog ==> id in s.catalog && clean.catalog[id] == s.catalog[id]
    requires Reflects(s, l)
    ensures Reflects(s', Note(l, ids, infos, url, now))
  {
    AgesReflect(s, s', ids, infos, url, now, l);
    var l' := Note(l, ids, infos, url, now);
    forall id, src | Holds(s', id, src) ensures (id, src.url) in l'.sources && l'.sources[(id, src.url)] == src {
      if src.url != url {
        HeldBefore(s, clean, s', url, id, src);
      }
      SourceReflects(s', ids, infos, url, now, l, id, src);
    }
  }

  lemma AgesReflect(s: Store, s': Store, ids: seq<string>, infos: seq<Info>, url: string, now: int, l: Ledger)
    requires Records(s, s', ids, infos, url, now)
    requires forall id :: id in s.catalog ==> id in l.ages && s.catalog[id].lastSeen == l.ages[id]
    ensures var ages := Note(l, ids, infos, url, now).ages;
            forall id :: id in s'.catalog ==> id in ages && s'.catalog[id].lastSeen == ages[id]
  {
  }

  lemma HeldBefore(s: Store, clean: Store, s': Store, url: string, id: string, src: Source)
    requires KeepsOthers(clean, s', url) && Holds(s', id, src) && src.url != url
    requires forall id :: id in clean.catalog ==> id in s.catalog && clean.catalog[id] == s.catalog[id]
    ensures Holds(s, id, src)
  {
    assert Holds(clean, id, src);
  }

  lemma SourceReflects(s: Store, ids: seq<string>, infos: seq<Info>, url: string, now: int, l: Ledger, id: string, src: Source)
    requires Consistent(s) && HostedAt(s, url, ids) && |ids| == |infos| && Holds(s, id, src)
    requires forall k: nat :: IsLast(ids, k) ==> Holds(s, ids[k], SourceFor(infos[k], url, now))
    requires src.url != url ==> (id, src.url) in l.sources && l.sources[(id, src.url)] == src
    ensures var l' := Note(l, ids, infos, url, now); (id, src.url) in l'.sources && l'.sources[(id, src.url)] == src
  {
    if src.url == url {
      OwnSourceReflects(s, ids, infos, url, now, id, src);
    }
  }

  /** The endpoint's own source is that of the last report, and there is only one. */
  lemma OwnSourceReflects(s: Store, ids: seq<string>, infos: seq<Info>, url: string, now: int, id: string, src: Source)
    requires Consistent(s) && HostedAt(s, url, ids) && |ids| == |infos|
    requires forall k: nat :: IsLast(ids, k) ==> Holds(s, ids[k], SourceFor(infos[k], url, now))
    requires Holds(s, id, src) && src.url == url
    ensures id in ids && src == SourceFor(infos[LastIndex(ids, id)], url, now)
  {
    var m := s.catalog[id];
    var i :| 0 <= i < |m.sources| && m.sources[i] == src;
    assert Hosts(s, id, url) by { assert m.sources[i].url == url; }
    var k := LastIndex(ids, id);
    assert Holds(s, ids[k], SourceFor(infos[k], url, now));
    var j :| 0 <= j < |m.sources| && m.sources[j] == SourceFor(infos[k], url, now);
    assert i == j;
  }

  lemma SweepReflects(s: Store, ids: seq<string>, l: Ledger)
    requires Reflects(s, l)
    ensures Reflects(RemoveEach(s, ids), l)
  {
    SweptAreGone(s, ids);
    forall id, src | Holds(RemoveEach(s, ids), id, src) ensures Holds(s, id, src) {
    }
  }

  lemma {:induction false} RunReflects(s: Store, ops: seq<Operation>, l: Ledger)
    requires Consistent(s) && Tracked(s) && CleanRun(s, ops) && Reflects(s, l)
    ensures Reflects(Run(s, ops), Noted(s, ops, l))
    decreases |ops|
  {
    if ops != [] {
      match ops[0] {
        case Update(swept, infos, url, now) =>
          UnifyTracks(s, swept, infos, url, now);
          UpdateReflects(s, swept, infos, url, now, l);
        case Sweep(ids) =>
          RemoveEachKeeps(s, ids);
          SweepReflects(s, ids, l);
      }
      RunReflects(Apply(s, ops[0]), ops[1..], NoteOperation(s, ops[0], l));
    }
  }

  const BLANK := Ledger(map[], map[])

  /** After any updates and cleanups: a model's age is the time of the latest report of it, and
      each of its sources is what that endpoint last reported.  So a cleanup takes out exactly
      the models that nobody has reported within the threshold. */
  lemma AgesAreReports(ops: seq<Operation>, now: int, threshold: int)
    requires CleanRun(EMPTY, ops)
    ensures var s, l := Run(EMPTY, ops), Noted(EMPTY, ops, BLANK);
            && Reflects(s, l)
            && forall id :: id in Stale(s.catalog, now, threshold) <==> id in s.catalog && now - l.ages[id] > threshold
  {
    assert DigestsById(EMPTY.catalog) == map[] && NamesById(EMPTY.catalog) == map[];
    RunReflects(EMPTY, ops, BLANK);
  }

  // ---------------------------------------------- names that do not resolve

  /** The report is a second one of the same model from the same endpoint. */
  predicate Repeats(s: Store, info: Info, url: string) {
    Target(s, info).Some? && Target(s, info).value in s.catalog && HasSource(s.catalog[Target(s, info).value], url)
  }

  /** A reported name resolves afterwards unless the report is such a repeat, recognised by
      its digest, under a name that did not resolve before. */
  lemma NameResolvesIff(s: Store, info: Info, url: string, now: int)
    requires Consistent(s) && !Collides(s, info) && !Erases(s, info)
    ensures ByName(Process(s, info, url, now), info.name).Some?
       <==> !Repeats(s, info, url) || ByName(s, info.name).Some?
  {
    var s', m := Process(s, info, url, now), Result(s, info, url, now);
    ProcessConsistentIff(s, info, url, now);
    NameLookupIsScan(s', info.name);
    if Repeats(s, info, url) {
      RepeatAddsNoName(s, info, url, now);
    } else {
      NewReportIsNamed(s, info, url, now);
      assert m.id in s'.catalog && s'.catalog[m.id] == m;
    }
  }

  lemma RepeatAddsNoName(s: Store, info: Info, url: string, now: int)
    requires Consistent(s) && Repeats(s, info, url)
    ensures var s' := Process(s, info, url, now);
            (exists id :: id in s'.catalog && AnswersTo(s'.catalog[id], info.name)) <==> ByName(s, info.name).Some?
  {
    var s', m := Process(s, info, url, now), Result(s, info, url, now);
    TargetIsStored(s, info);
    NameLookupIsScan(s, info.name);
    assert m.id in s.catalog && s'.catalog == s.catalog[m.id := m];
    assert m.aliases == s.catalog[m.id].aliases;
    SameAnswers(s.catalog, s'.catalog, m, info.name);
  }

  lemma SameAnswers(before: map<string, Model>, after: map<string, Model>, m: Model, name: string)
    requires m.id in before && before[m.id].id == m.id && before[m.id].aliases == m.aliases
    requires after == before[m.id := m]
    ensures (exists id :: id in after && AnswersTo(after[id], name))
       <==> exists id :: id in before && AnswersTo(before[id], name)
  {
    forall id | id in before ensures AnswersTo(after[id], name) <==> AnswersTo(before[id], name) {
    }
  }

  lemma NewReportIsNamed(s: Store, info: Info, url: string, now: int)
    requires Consistent(s) && !Repeats(s, info, url)
    ensures AnswersTo(Result(s, info, url, now), info.name)
  {
    var m := Result(s, info, url, now);
    if Target(s, info).Some? {
      TargetIsStored(s, info);
      var aliases := s.catalog[Target(s, info).value].aliases;
      if info.name in aliases {
        var i :| 0 <= i < |aliases| && aliases[i] == info.name;
        assert Lower(m.aliases[i]) == Lower(info.name);
      } else {
        assert Lower(m.aliases[|aliases|]) == Lower(info.name);
      }
    } else {
      assert Lower(m.aliases[0]) == Lower(info.name);
    }
  }

  const FIRST := Info("a", Some("d"), 1)
  const SECOND := Info("b", Some("d"), 1)

  function OneModel(native: string): Store {
    Store(map["a" := Model("a", "d", ["a"], [Source("http://e", native, 1, 0)], 1, 0)],
          map["d" := ["a"]], map["a" := ["a"]], map[])
  }

  lemma AfterFirst()
    ensures Process(EMPTY, FIRST, "http://e", 0) == OneModel("a")
  {
    assert Lower("a") == "a" && Lower("b") == "b";
    assert LowerAll(["a"]) == ["a"] && ["a"][..0] == [] && ["d"][..0] == [];
  }

  lemma AfterSecond()
    ensures Process(OneModel("a"), SECOND, "http://e", 0) == OneModel("b")
  {
    var m := OneModel("a").catalog["a"];
    assert ByDigest(OneModel("a"), "d") == Some("a");
    assert m.sources[0].url == "http://e";
    assert Merge(m, SECOND, "http://e", 0).sources == [Source("http://e", "b", 1, 0)];
    assert [Source("http://e", "b", 1, 0)][..0] == [];
    assert Lower("a") == "a" && Lower("b") == "b";
    assert LowerAll(["a"]) == ["a"] && ["a"][..0] == [] && ["d"][..0] == [];
  }

  /** Two names for one digest at one endpoint: the second replaces the native name of the
      source and resolves to nothing. */
  lemma SecondNativeNameIsLost()
    ensures var s := Unify(EMPTY, [], [Some(FIRST), Some(SECOND)], "http://e", 0).0;
            && "a" in s.catalog && s.catalog["a"].sources == [Source("http://e", "b", 1, 0)]
            && ByName(s, "b") == None
  {
    AfterFirst();
    AfterSecond();
    TwoReports(FIRST, SECOND);
    assert Lower("b") == "b";
  }

  lemma TwoReports(first: Info, second: Info)
    ensures Unify(EMPTY, [], [Some(first), Some(second)], "http://e", 0).0.(endpointModels := map[])
         == Process(Process(EMPTY, first, "http://e", 0), second, "http://e", 0)
  {
    var infos := [Some(first), Some(second)];
    assert infos[..1] == [Some(first)] && infos[..1][..0] == [];
    assert Reported(infos[..1]) == [first] && Reported(infos) == [first, second];
    assert [first, second][..1] == [first] && [first][..0] == [];
    assert ProcessAll(EMPTY, [], "http://e", 0).0 == EMPTY;
    assert ProcessAll(EMPTY, [first], "http://e", 0).0 == Process(EMPTY, first, "http://e", 0);
    assert ProcessAll(EMPTY, [first, second], "http://e", 0).0
        == Process(Process(EMPTY, first, "http://e", 0), second, "http://e", 0);
    assert RemoveAllFromEndpoint(RemoveEach(EMPTY, []), IdsAt(EMPTY, "http://e"), "http://e") == EMPTY;
  }

  // ------------------------------------------------ reports that are not clean

  /** An endpoint reports the same name with one digest after the other. */
  function SameName(name: string, digests: seq<string>): (infos: seq<Option<Info>>)
    ensures |infos| == |digests|
  {
    seq(|digests|, i requires 0 <= i < |digests| => Some(Info(name, Some(digests[i]), 1)))
  }

  /** What these reports make of an empty catalogue. */
  function After(name: string, digests: seq<string>, url: string, now: int): Store {
    ProcessAll(EMPTY, Reported(SameName(name, digests)), url, now).0
  }

  ghost predicate AllClean(name: string, digests: seq<string>, url: string, now: int) {
    Clean(EMPTY, Reported(SameName(name, digests)), url, now)
  }

  lemma OneMore(name: string, digests: seq<string>, digest: string, url: string, now: int)
    ensures var info, s := Info(name, Some(digest), 1), After(name, digests, url, now);
            && After(name, digests + [digest], url, now) == Process(s, info, url, now)
            && (AllClean(name, digests + [digest], url, now)
                <==> AllClean(name, digests, url, now) && !Collides(s, info) && !Erases(s, info))
  {
    var reports := SameName(name, digests + [digest]);
    assert reports[..|reports| - 1] == SameName(name, digests);
    var all := Reported(reports);
    assert all == Reported(SameName(name, digests)) + [Info(name, Some(digest), 1)];
    assert all[..|all| - 1] == Reported(SameName(name, digests));
  }

  lemma EmptyIsConsistent()
    ensures Consistent(EMPTY)
  {
    assert DigestsById(EMPTY.catalog) == map[] && NamesById(EMPTY.catalog) == map[];
  }

  /** The first report of a name makes a model of that id. */
  lemma FirstReport(name: string, digest: string, url: string, now: int)
    ensures var s := After(name, [digest], url, now);
            && AllClean(name, [digest], url, now) && Consistent(s)
            && s.catalog.Keys == {name} && s.catalog[name].digest == digest
  {
    EmptyIsConsistent();
    assert SameName(name, []) == [] && [] + [digest] == [digest];
    OneMore(name, [], digest, url, now);
    ProcessConsistentIff(EMPTY, Info(name, Some(digest), 1), url, now);
  }

  /** name's model has a digest, and nobody has this one. */
  predicate IsNews(s: Store, name: string, digest: string) {
    && name in s.catalog && s.catalog[name].digest != ""
    && digest != "" && forall id :: id in s.catalog ==> s.catalog[id].digest != digest
  }

  /** Such a digest asks for an id of its own, made from the name and the digest's suffix. */
  lemma NewsGetsItsSuffix(s: Store, name: string, digest: string)
    requires Consistent(s) && IsNews(s, name, digest)
    ensures var info := Info(name, Some(digest), 1);
            Target(s, info) == None && NewId(s, info) == name + "-" + Suffix(digest)
  {
    DigestLookupIsScan(s, digest);
  }

  /** It gets that id unless it belongs to a model already. */
  lemma NewsIsClean(s: Store, name: string, digest: string, url: string, now: int)
    requires Consistent(s) && IsNews(s, name, digest)
    ensures var info := Info(name, Some(digest), 1); var id := name + "-" + Suffix(digest);
            var s' := Process(s, info, url, now);
            && !Erases(s, info) && (Collides(s, info) <==> id in s.catalog)
            && (Indexed(s') <==> id !in s.catalog) && (id !in s.catalog ==> Consistent(s'))
            && id in s'.catalog && s'.catalog == s.catalog[id := s'.catalog[id]] && s'.catalog[id].digest == digest
  {
    var info := Info(name, Some(digest), 1);
    NewsGetsItsSuffix(s, name, digest);
    if Collides(s, info) {
      CollisionBreaksIndex(s, info, url, now);
    } else {
      ProcessConsistentIff(s, info, url, now);
    }
  }

  lemma AnotherDigest(name: string, digests: seq<string>, digest: string, url: string, now: int)
    requires var s := After(name, digests, url, now); Consistent(s) && IsNews(s, name, digest)
    requires AllClean(name, digests, url, now)
    ensures var s, s' := After(name, digests, url, now), After(name, digests + [digest], url, now);
            var id := name + "-" + Suffix(digest);
            && (AllClean(name, digests + [digest], url, now) <==> id !in s.catalog)
            && (Indexed(s') <==> id !in s.catalog) && (id !in s.catalog ==> Consistent(s'))
            && id in s'.catalog && s'.catalog == s.catalog[id := s'.catalog[id]] && s'.catalog[id].digest == digest
  {
    OneMore(name, digests, digest, url, now);
    NewsIsClean(After(name, digests, url, now), name, digest, url, now);
  }

  lemma SuffixesAreTold(name: string, a: string, b: string)
    ensures name + "-" + Suffix(a) == name + "-" + Suffix(b) <==> Suffix(a) == Suffix(b)
    ensures name + "-" + Suffix(a) != name
  {
    assert (name + "-" + Suffix(a))[|name| + 1..] == Suffix(a) && (name + "-" + Suffix(b))[|name| + 1..] == Suffix(b);
    assert |name + "-" + Suffix(a)| > |name|;
  }

  lemma SecondReport(name: string, digests: seq<string>, second: string, url: string, now: int)
    requires |digests| == 1 && digests[0] != "" && second != "" && digests[0] != second
    ensures var s, id := After(name, digests + [second], url, now), name + "-" + Suffix(second);
            && AllClean(name, digests + [second], url, now) && Consistent(s)
            && s.catalog.Keys == {name, id} && s.catalog[name].digest == digests[0] && s.catalog[id].digest == second
  {
    assert digests == [digests[0]];
    FirstReport(name, digests[0], url, now);
    SuffixesAreTold(name, second, second);
    AnotherDigest(name, digests, second, url, now);
  }

  /** After a first and a second digest, a third gets an id of its own if and only if its
      suffix is not that of the second. */
  lemma ThirdReport(name: string, two: seq<string>, second: string, third: string, url: string, now: int)
    requires var s, id := After(name, two, url, now), name + "-" + Suffix(second);
             && AllClean(name, two, url, now) && Consistent(s) && IsNews(s, name, third)
             && s.catalog.Keys == {name, id}
    ensures AllClean(name, two + [third], url, now) <==> Suffix(second) != Suffix(third)
    ensures Indexed(After(name, two + [third], url, now)) <==> Suffix(second) != Suffix(third)
  {
    SuffixesAreTold(name, third, second);
    AnotherDigest(name, two, third, url, now);
  }

  lemma ThirdIsNews(name: string, one: seq<string>, second: string, third: string, url: string, now: int)
    requires |one| == 1 && one[0] != "" && second != "" && third != ""
    requires one[0] != second && one[0] != third && second != third
    ensures IsNews(After(name, one + [second], url, now), name, third)
  {
    SecondReport(name, one, second, url, now);
  }

  lemma ThreeReports(name: string, one: seq<string>, second: string, third: string, url: string, now: int)
    requires |one| == 1 && one[0] != "" && second != "" && third != ""
    requires one[0] != second && one[0] != third && second != third
    ensures var digests := one + [second] + [third];
            && (AllClean(name, digests, url, now) <==> Suffix(second) != Suffix(third))
            && (Indexed(After(name, digests, url, now)) <==> Suffix(second) != Suffix(third))
  {
    SecondReport(name, one, second, url, now);
    ThirdIsNews(name, one, second, third, url, now);
    ThirdReport(name, one + [second], second, third, url, now);
  }

  /** On an empty catalogue an update is its reports alone. */
  lemma UpdateOfNothing(infos: seq<Option<Info>>, url: string, now: int)
    ensures CleanUpdate(EMPTY, [], infos, url, now) <==> Clean(EMPTY, Reported(infos), url, now)
    ensures var s, s' := ProcessAll(EMPTY, Reported(infos), url, now).0, Unify(EMPTY, [], infos, url, now).0;
            && (Indexed(s') <==> Indexed(s)) && (Consistent(s') <==> Consistent(s))
  {
    assert RemoveAllFromEndpoint(RemoveEach(EMPTY, []), IdsAt(EMPTY, url), url) == EMPTY;
  }

  /** An endpoint that reports three digests under one name leaves the indexes right if and
      only if the second and the third digest differ in their last eight characters. */
  lemma SuffixesCollideIff(name: string, digests: seq<string>, url: string, now: int)
    requires |digests| == 3 && Distinct(digests) && "" !in digests
    ensures var infos := SameName(name, digests);
            && (CleanUpdate(EMPTY, [], infos, url, now) <==> Suffix(digests[1]) != Suffix(digests[2]))
            && (Indexed(Unify(EMPTY, [], infos, url, now).0) <==> Suffix(digests[1]) != Suffix(digests[2]))
  {
    ThreeReports(name, [digests[0]], digests[1], digests[2], url, now);
    assert digests == [digests[0]] + [digests[1]] + [digests[2]];
    UpdateOfNothing(SameName(name, digests), url, now);
  }

  /** Such as these. */
  lemma CollidingDigests()
    ensures var digests := ["aaaaaaaa11111111", "bbbbbbbb22222222", "cccccccc22222222"];
            !Indexed(Unify(EMPTY, [], SameName("m", digests), "http://e", 0).0)
  {
    var digests := ["aaaaaaaa11111111", "bbbbbbbb22222222", "cccccccc22222222"];
    assert digests[0][0] == 'a' && digests[1][0] == 'b' && digests[2][0] == 'c';
    assert Suffix(digests[1]) == "22222222" == Suffix(digests[2]);
    SuffixesCollideIff("m", digests, "http://e", 0);
  }

  lemma EmptyAfter(s: Store, name: string, url: string, now: int)
    requires Consistent(s) && name in s.catalog
    ensures var info, digest := Info(name, Some(""), 1), s.catalog[name].digest;
            && !Collides(s, info) && (Erases(s, info) <==> digest != "")
            && (Consistent(Process(s, info, url, now)) <==> digest == "")
  {
    var info := Info(name, Some(""), 1);
    assert ByName(s, name) == Some(name) && Target(s, info) == Some(name);
    ProcessConsistentIff(s, info, url, now);
  }

  /** An endpoint that reports a name with a digest and then with an empty one leaves the
      digest index wrong unless the first digest was empty too. */
  lemma EmptyDigestErasesIff(name: string, digest: string, url: string, now: int)
    ensures var infos := SameName(name, [digest, ""]);
            && (CleanUpdate(EMPTY, [], infos, url, now) <==> digest == "")
            && (Consistent(Unify(EMPTY, [], infos, url, now).0) <==> digest == "")
  {
    FirstReport(name, digest, url, now);
    var s := After(name, [digest], url, now);
    assert [digest] + [""] == [digest, ""];
    OneMore(name, [digest], "", url, now);
    EmptyAfter(s, name, url, now);
    UpdateOfNothing(SameName(name, [digest, ""]), url, now);
  }

  // -------------------------------------------------------------- the class

  class DefaultUnifier {
    const store: CatalogStore
    const staleThreshold: int

    constructor (store: CatalogStore, staleThreshold: int)
      ensures this.store == store && this.staleThreshold == staleThreshold
    {
      this.store := store;
      this.staleThreshold := staleThreshold;
    }

    method SumSizes(sources: seq<Source>) returns (total: int)
      ensures total == Total(sources)
    {
      total := 0;
      for i := 0 to |sources|
        invariant total == Total(sources[..i])
      {
        assert sources[..i + 1][..i] == sources[..i];
        total := total + sources[i].size;
      }
      assert sources[..|sources|] == sources;
    }

    method HasAlias(aliases: seq<string>, name: string) returns (found: bool)
      ensures found <==> name in aliases
    {
      for i := 0 to |aliases|
        invariant name !in aliases[..i]
      {
        if aliases[i] == name {
          return true;
        }
      }
      assert aliases[..|aliases|] == aliases;
      return false;
    }

    method MergeModel(m: Model, info: Info, url: string, now: int)
      modifies store
      ensures store.View() == Put(old(store.View()), Merge(m, info, url, now)) && store.lastCleanup == old(store.lastCleanup)
      ensures m.id in store.catalog && store.catalog[m.id].lastSeen == now
      ensures SourceFor(info, url, now) in store.catalog[m.id].sources
    {
      var sources, aliases := m.sources, m.aliases;
      var updated := false;
      for i := 0 to |sources|
        invariant forall j :: 0 <= j < i ==> m.sources[j].url != url
        invariant sources == m.sources && !updated
      {
        if sources[i].url == url {
          sources := sources[i := Source(url, info.name, info.size, now)];
          updated := true;
          assert HasSource(m, url) && SourceAt(m.sources, url) == i;
          break;
        }
      }
      if !updated {
        sources := sources + [Source(url, info.name, info.size, now)];
        var hasAlias := HasAlias(aliases, info.name);
        if !hasAlias {
          aliases := aliases + [info.name];
        }
      }
      ghost var k := if HasSource(m, url) then SourceAt(m.sources, url) else |m.sources|;
      assert sources[k] == SourceFor(info, url, now);
      var totalSize := SumSizes(sources);
      var digest := if info.digest.Some? then info.digest.value else m.digest;
      store.PutModel(Model(m.id, digest, aliases, sources, totalSize, now));
    }

    method ProcessModel(info: Info, url: string, now: int) returns (id: string)
      requires Consistent(store.View())
      modifies store
      ensures store.View() == Process(old(store.View()), info, url, now) && store.lastCleanup == old(store.lastCleanup)
      ensures id == Result(old(store.View()), info, url, now).id
    {
      var digest := if info.digest.Some? then info.digest.value else "";
      if digest != "" {
        var existing := store.ResolveByDigest(digest);
        if existing != [] {
          assert Result(store.View(), info, url, now) == Merge(existing[0], info, url, now);
          MergeModel(existing[0], info, url, now);
          return existing[0].id;
        }
      }
      NameLookupIsScan(store.View(), info.name);
      var named := store.ResolveByName(info.name);
      if named.Some? && CanMergeByName(named.value, digest) {
        assert Result(store.View(), info, url, now) == Merge(named.value, info, url, now);
        MergeModel(named.value, info, url, now);
        return named.value.id;
      }
      id := info.name;
      var existing := store.GetModel(id);
      if existing.Some? {
        id := UniqueId(id, digest, existing.value.digest);
      }
      assert Result(store.View(), info, url, now) == Create(id, info, url, now);
      store.PutModel(Create(id, info, url, now));
    }

    method RemoveModelFromEndpoint(id: string, url: string)
      requires Indexed(store.View())
      modifies store
      ensures store.View() == RemoveFromEndpoint(old(store.View()), id, url) && store.lastCleanup == old(store.lastCleanup)
    {
      var found := store.GetModel(id);
      if found == None {
        return;
      }
      var m := found.value;
      var sources: seq<Source> := [];
      for i := 0 to |m.sources|
        invariant sources == SourcesWithout(m.sources[..i], url)
      {
        assert m.sources[..i + 1][..i] == m.sources[..i];
        if m.sources[i].url != url {
          sources := sources + [m.sources[i]];
        }
      }
      assert m.sources[..|m.sources|] == m.sources;
      if sources == [] {
        var _ := store.RemoveModel(id);
      } else {
        var totalSize := SumSizes(sources);
        store.PutModel(m.(sources := sources, diskSize := totalSize));
      }
    }

    method ForgetEndpoint(url: string)
      requires Consistent(store.View())
      modifies store
      ensures store.View() == RemoveAllFromEndpoint(old(store.View()), IdsAt(old(store.View()), url), url)
      ensures store.lastCleanup == old(store.lastCleanup)
    {
      ghost var start := store.View();
      var oldIds := store.GetEndpointModels(url);
      for i := 0 to |oldIds|
        invariant store.View() == RemoveAllFromEndpoint(start, oldIds[..i], url)
        invariant Consistent(store.View()) && store.lastCleanup == old(store.lastCleanup)
      {
        assert oldIds[..i + 1][..i] == oldIds[..i];
        RemoveFromEndpointConsistent(store.View(), oldIds[i], url);
        RemoveModelFromEndpoint(oldIds[i], url);
      }
      assert oldIds[..|oldIds|] == oldIds;
    }

    method ProcessReports(infos: seq<Option<Info>>, url: string, now: int) returns (newIds: seq<string>)
      requires Consistent(store.View()) && TrackedWith(store.View(), url, []) && HostedAt(store.View(), url, [])
      requires Clean(store.View(), Reported(infos), url, now)
      modifies store
      ensures (store.View(), newIds) == ProcessAll(old(store.View()), Reported(infos), url, now)
      ensures store.lastCleanup == old(store.lastCleanup)
    {
      ghost var start := store.View();
      newIds := [];
      for i := 0 to |infos|
        invariant (store.View(), newIds) == ProcessAll(start, Reported(infos[..i]), url, now)
        invariant store.lastCleanup == old(store.lastCleanup)
      {
        NextReport(start, infos, i, url, now);
        if infos[i].None? {
          continue;
        }
        var id := ProcessModel(infos[i].value, url, now);
        newIds := newIds + [id];
      }
      assert infos[..|infos|] == infos;
    }

    method Collect(ids: seq<string>) returns (result: seq<Model>)
      requires Indexed(store.View()) && AllStored(store.View(), ids)
      ensures |result| == |ids|
      ensures forall i :: 0 <= i < |ids| ==> result[i] == store.catalog[ids[i]] && result[i].id == ids[i]
    {
      result := [];
      for i := 0 to |ids|
        invariant |result| == i
        invariant forall k :: 0 <= k < i ==> result[k] == store.catalog[ids[k]] && result[k].id == ids[k]
      {
        var found := store.GetModel(ids[i]);
        if found.Some? {
          result := result + [found.value];
        }
      }
    }

    /** swept reports the ids a due cleanup removed, in the order it met them. */
    method UnifyModels(infos: seq<Option<Info>>, url: string, now: int)
      returns (result: seq<Model>, ghost swept: seq<string>)
      requires Consistent(store.View()) && Tracked(store.View())
      requires forall ids ::
                 SetOf(ids) == (if now - store.lastCleanup > store.cleanupInterval
                                then Stale(store.catalog, now, staleThreshold) else {})
                 ==> CleanUpdate(store.View(), ids, infos, url, now)
      modifies store
      ensures SetOf(swept) == if old(now - store.lastCleanup > store.cleanupInterval)
                              then Stale(old(store.catalog), now, staleThreshold) else {}
      ensures store.lastCleanup == if old(now - store.lastCleanup > store.cleanupInterval) then now else old(store.lastCleanup)
      ensures store.View() == Unify(old(store.View()), swept, infos, url, now).0
      ensures IdsOf(result) == Unify(old(store.View()), swept, infos, url, now).1
      ensures forall m :: m in result ==> m.id in store.catalog && m == store.catalog[m.id]
      ensures Consistent(store.View()) && Tracked(store.View()) && HostedAt(store.View(), url, IdsOf(result))
      ensures Records(old(store.View()), store.View(), IdsOf(result), Reported(infos), url, now)
      ensures forall m :: m in result ==> m.lastSeen == now
    {
      ghost var start := store.View();
      swept := [];
      var due := store.NeedsCleanup(now);
      if due {
        var removed := store.CleanupStaleModels(now, staleThreshold);
        swept := removed;
      }
      assert CleanUpdate(start, swept, infos, url, now);
      RemoveEachKeeps(start, swept);
      UnifyTracks(start, swept, infos, url, now);
      EndpointIsFreed(store.View(), url);
      ForgetEndpoint(url);
      ghost var freed := store.View();
      var newIds := ProcessReports(infos, url, now);
      IdsAreStored(freed, Reported(infos), url, now);
      store.SetEndpointModels(url, newIds);
      result := Collect(newIds);
      assert IdsOf(result) == newIds;
      UpdateIsRecorded(start, swept, infos, url, now);
      AgesOfModels(start, store.View(), result, Reported(infos), url, now);
    }
  }

  lemma AgesOfModels(s: Store, s': Store, models: seq<Model>, infos: seq<Info>, url: string, now: int)
    requires Records(s, s', IdsOf(models), infos, url, now)
    requires forall m :: m in models ==> m.id in s'.catalog && m == s'.catalog[m.id]
    ensures forall m :: m in models ==> m.lastSeen == now
  {
    forall m | m in models ensures m.lastSeen == now {
      var i :| 0 <= i < |models| && models[i] == m;
      assert IdsOf(models)[i] == m.id;
    }
  }

  function IdsOf(models: seq<Model>): (ids: seq<string>)
    ensures |ids| == |models|
  {
    seq(|models|, i requires 0 <= i < |models| => models[i].id)
  }

  lemma ProcessOneMore(s: Store, infos: seq<Info>, next: Info, url: string, now: int)
    ensures var (before, ids) := ProcessAll(s, infos, url, now);
            ProcessAll(s, infos + [next], url, now) ==
            (Process(before, next, url, now), ids + [Result(before, next, url, now).id])
  {
    assert (infos + [next])[..|infos|] == infos;
  }

  lemma ReportedOneMore(infos: seq<Option<Info>>, i: nat)
    requires i < |infos|
    ensures Reported(infos[..i + 1])
         == if infos[i].None? then Reported(infos[..i]) else Reported(infos[..i]) + [infos[i].value]
  {
    assert infos[..i + 1][..i] == infos[..i];
  }

  /** One more entry of the list, when all before it have been processed. */
  lemma NextReport(s: Store, infos: seq<Option<Info>>, i: nat, url: string, now: int)
    requires i < |infos| && Clean(s, Reported(infos), url, now)
    requires Consistent(s) && TrackedWith(s, url, []) && HostedAt(s, url, [])
    ensures var (before, ids) := ProcessAll(s, Reported(infos[..i]), url, now);
            && Consistent(before)
            && ProcessAll(s, Reported(infos[..i + 1]), url, now)
               == if infos[i].None? then (before, ids)
                  else (Process(before, infos[i].value, url, now), ids + [Result(before, infos[i].value, url, now).id])
  {
    var done := Reported(infos[..i]);
    ReportedPrefix(infos, i);
    PrefixIsConsistent(s, Reported(infos), |done|, url, now);
    assert Reported(infos)[..|done|] == done;
    ReportedOneMore(infos, i);
    if infos[i].Some? {
      ProcessOneMore(s, done, infos[i].value, url, now);
    }
  }

  lemma PrefixIsConsistent(s: Store, infos: seq<Info>, n: nat, url: string, now: int)
    requires n <= |infos| && Clean(s, infos, url, now)
    requires Consistent(s) && TrackedWith(s, url, []) && HostedAt(s, url, [])
    ensures Consistent(ProcessAll(s, infos[..n], url, now).0)
  {
    CleanPrefix(s, infos, n, url, now);
    ProcessAllKeeps(s, infos[..n], url, now);
  }

  lemma {:induction false} ReportedPrefix(infos: seq<Option<Info>>, i: nat)
    requires i <= |infos|
    ensures Reported(infos[..i]) <= Reported(infos)
    decreases |infos|
  {
    if i < |infos| {
      assert infos[..|infos| - 1][..i] == infos[..i];
      ReportedPrefix(infos[..|infos| - 1], i);
    } else {
      assert infos[..i] == infos;
    }
  }

  lemma {:induction false} CleanPrefix(s: Store, infos: seq<Info>, i: nat, url: string, now: int)
    requires i <= |infos| && Clean(s, infos, url, now)
    ensures Clean(s, infos[..i], url, now)
    ensures i < |infos| ==> var before := ProcessAll(s, infos[..i], url, now).0;
                            !Collides(before, infos[i]) && !Erases(before, infos[i])
    decreases |infos|
  {
    if i < |infos| {
      assert infos[..|infos| - 1][..i] == infos[..i];
      CleanPrefix(s, infos[..|infos| - 1], i, url, now);
    } else {
      assert infos[..i] == infos;
    }
  }

  predicate AllStored(s: Store, ids: seq<string>) {
    forall id :: id in ids ==> id in s.catalog
  }

  lemma {:induction false} IdsAreStored(s: Store, infos: seq<Info>, url: string, now: int)
    ensures AllStored(ProcessAll(s, infos, url, now).0, ProcessAll(s, infos, url, now).1)
  {
    if infos != [] {
      var init, last := infos[..|infos| - 1], infos[|infos| - 1];
      IdsAreStored(s, init, url, now);
      var (before, ids) := ProcessAll(s, init, url, now);
      ProcessOneMore(s, init, last, url, now);
      assert init + [last] == infos;
      OneMoreStored(before, ids, last, url, now);
    }
  }

  lemma OneMoreStored(s: Store, ids: seq<string>, info: Info, url: string, now: int)
    requires AllStored(s, ids)
    ensures AllStored(Process(s, info, url, now), ids + [Result(s, info, url, now).id])
  {
  }
}
