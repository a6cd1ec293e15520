/** The catalogue of unified models: the models by id, the digest and name indexes, and
    the ids each endpoint reported; and the deduplication that feeds it. */
module Catalog {

  import opened Wrappers

  datatype Source = Source(url: string, nativeName: string, size: int, lastSeen: int)

  /** digest is "" when the metadata holds none. */
  datatype Model = Model(id: string, digest: string, aliases: seq<string>, sources: seq<Source>, diskSize: int, lastSeen: int)

  /** A model as an endpoint reports it. */
  datatype Info = Info(name: string, digest: Option<string>, size: int)

  type Index = map<string, seq<string>>

  datatype Store = Store(
    catalog: map<string, Model>,
    digestIndex: Index,
    nameIndex: Index,
    endpointModels: map<string, seq<string>>)

  // --------------------------------------------------------------- indexes

  function Without(ids: seq<string>, id: string): seq<string> {
    if ids == [] then []
    else Without(ids[..|ids| - 1], id) + if ids[|ids| - 1] == id then [] else [ids[|ids| - 1]]
  }

  function AddTo(index: Index, key: string, id: string): Index {
    if key !in index then index[key := [id]]
    else if id in index[key] then index
    else index[key := index[key] + [id]]
  }

  function RemoveFrom(index: Index, key: string, id: string): Index {
    if key !in index then index
    else if Without(index[key], id) == [] then index - {key}
    else index[key := Without(index[key], id)]
  }

  function AddKeys(index: Index, keys: seq<string>, id: string): Index {
    if keys == [] then index
    else AddTo(AddKeys(index, keys[..|keys| - 1], id), keys[|keys| - 1], id)
  }

  function RemoveKeys(index: Index, keys: seq<string>, id: string): Index {
    if keys == [] then index
    else RemoveFrom(RemoveKeys(index, keys[..|keys| - 1], id), keys[|keys| - 1], id)
  }

  predicate Listed(index: Index, key: string, id: string) {
    key in index && id in index[key]
  }

  predicate Distinct(ids: seq<string>) {
    forall i, j :: 0 <= i < j < |ids| ==> ids[i] != ids[j]
  }

  ghost predicate Tidy(index: Index) {
    forall key :: key in index ==> index[key] != [] && Distinct(index[key])
  }

  /** The index lists an id under a key exactly when the id has that key. */
  ghost predicate Inverts(index: Index, keys: map<string, set<string>>) {
    && Tidy(index)
    && forall key, id :: Listed(index, key, id) <==> id in keys && key in keys[id]
  }

  lemma {:induction false} WithoutIsFilter(ids: seq<string>, id: string)
    ensures forall other :: other in Without(ids, id) <==> other in ids && other != id
    ensures Distinct(ids) ==> Distinct(Without(ids, id))
  {
    if ids != [] {
      var init, last := ids[..|ids| - 1], ids[|ids| - 1];
      assert ids == init + [last];
      WithoutIsFilter(init, id);
      if Distinct(ids) {
        assert last !in init;
      }
    }
  }

  /** after lists what before does, plus or minus id under one of keys. */
  ghost predicate Relisted(before: Index, after: Index, keys: set<string>, id: string, add: bool) {
    && Tidy(after)
    && forall key, other :: Listed(after, key, other)
         <==> if other == id && key in keys then add else Listed(before, key, other)
  }

  lemma AddToLists(index: Index, key: string, id: string)
    requires Tidy(index)
    ensures Relisted(index, AddTo(index, key, id), {key}, id, true)
  {
  }

  lemma RemoveFromUnlists(index: Index, key: string, id: string)
    requires Tidy(index)
    ensures Relisted(index, RemoveFrom(index, key, id), {key}, id, false)
  {
    if key in index {
      WithoutIsFilter(index[key], id);
    }
  }

  function SetOf(keys: seq<string>): set<string> {
    set i | 0 <= i < |keys| :: keys[i]
  }

  lemma SetOfLast(keys: seq<string>)
    requires keys != []
    ensures SetOf(keys) == SetOf(keys[..|keys| - 1]) + {keys[|keys| - 1]}
  {
    var init := keys[..|keys| - 1];
    assert keys == init + [keys[|keys| - 1]];
    forall k ensures k in SetOf(keys) <==> k in keys {
    }
    forall k ensures k in SetOf(init) <==> k in init {
    }
  }

  lemma {:induction false} AddKeysLists(index: Index, keys: seq<string>, id: string)
    requires Tidy(index)
    ensures Relisted(index, AddKeys(index, keys, id), SetOf(keys), id, true)
  {
    if keys != [] {
      var before := AddKeys(index, keys[..|keys| - 1], id);
      AddKeysLists(index, keys[..|keys| - 1], id);
      SetOfLast(keys);
      AddToLists(before, keys[|keys| - 1], id);
    }
  }

  lemma {:induction false} RemoveKeysUnlists(index: Index, keys: seq<string>, id: string)
    requires Tidy(index)
    ensures Relisted(index, RemoveKeys(index, keys, id), SetOf(keys), id, false)
  {
    if keys != [] {
      var before := RemoveKeys(index, keys[..|keys| - 1], id);
      RemoveKeysUnlists(index, keys[..|keys| - 1], id);
      SetOfLast(keys);
      RemoveFromUnlists(before, keys[|keys| - 1], id);
    }
  }

  /** Adding keys never takes any back: the index stays an inverse exactly when the id
      keeps all the keys it had. */
  lemma AddKeysInvertsIff(index: Index, keys: map<string, set<string>>, id: string, added: seq<string>)
    requires Inverts(index, keys)
    ensures Inverts(AddKeys(index, added, id), keys[id := SetOf(added)])
       <==> id !in keys || keys[id] <= SetOf(added)
  {
    AddKeysLists(index, added, id);
    var after, keys' := AddKeys(index, added, id), keys[id := SetOf(added)];
    if id in keys && !(keys[id] <= SetOf(added)) {
      var key :| key in keys[id] && key !in SetOf(added);
      assert Listed(index, key, id) && Listed(after, key, id);
    }
  }

  lemma RemoveKeysInverts(index: Index, keys: map<string, set<string>>, id: string, removed: seq<string>)
    requires Inverts(index, keys) && id in keys && keys[id] == SetOf(removed)
    ensures Inverts(RemoveKeys(index, removed, id), keys - {id})
  {
    RemoveKeysUnlists(index, removed, id);
  }

  // ------------------------------------------------------------- the store

  function LowerAll(names: seq<string>): (r: seq<string>)
    ensures |r| == |names|
  {
    seq(|names|, i requires 0 <= i < |names| => Lower(names[i]))
  }

  function DigestKeys(m: Model): seq<string> { if m.digest == "" then [] else [m.digest] }

  function DigestsById(catalog: map<string, Model>): map<string, set<string>> {
    map id | id in catalog :: SetOf(DigestKeys(catalog[id]))
  }

  function NamesById(catalog: map<string, Model>): map<string, set<string>> {
    map id | id in catalog :: SetOf(LowerAll(catalog[id].aliases))
  }

  function Put(s: Store, m: Model): Store {
    s.(catalog := s.catalog[m.id := m],
       digestIndex := AddKeys(s.digestIndex, DigestKeys(m), m.id),
       nameIndex := AddKeys(s.nameIndex, LowerAll(m.aliases), m.id))
  }

  function Remove(s: Store, id: string): Store {
    if id !in s.catalog then s
    else
      var m := s.catalog[id];
      s.(catalog := s.catalog - {id},
         digestIndex := RemoveKeys(s.digestIndex, DigestKeys(m), id),
         nameIndex := RemoveKeys(s.nameIndex, LowerAll(m.aliases), id))
  }

  function RemoveEach(s: Store, ids: seq<string>): Store {
    if ids == [] then s else Remove(RemoveEach(s, ids[..|ids| - 1]), ids[|ids| - 1])
  }

  /** Both indexes are the inverse of the catalogue, and a digest belongs to one model. */
  ghost predicate Indexed(s: Store) {
    && (forall id :: id in s.catalog ==> s.catalog[id].id == id)
    && Inverts(s.digestIndex, DigestsById(s.catalog))
    && Inverts(s.nameIndex, NamesById(s.catalog))
  }

  ghost predicate UniqueDigests(catalog: map<string, Model>) {
    forall a, b :: a in catalog && b in catalog && catalog[a].digest == catalog[b].digest != "" ==> a == b
  }

  lemma DigestSet(m: Model)
    ensures SetOf(DigestKeys(m)) == if m.digest == "" then {} else {m.digest}
  {
    if m.digest != "" {
      assert DigestKeys(m)[0] == m.digest;
    }
  }

  /** Storing a model keeps the indexes exact exactly when it keeps the digest and the
      names of the model stored under its id before. */
  lemma PutIndexesIff(s: Store, m: Model)
    requires Indexed(s)
    ensures Indexed(Put(s, m)) <==>
              m.id in s.catalog ==>
                && (s.catalog[m.id].digest != "" ==> s.catalog[m.id].digest == m.digest)
                && SetOf(LowerAll(s.catalog[m.id].aliases)) <= SetOf(LowerAll(m.aliases))
  {
    AddKeysInvertsIff(s.digestIndex, DigestsById(s.catalog), m.id, DigestKeys(m));
    AddKeysInvertsIff(s.nameIndex, NamesById(s.catalog), m.id, LowerAll(m.aliases));
    var catalog := s.catalog[m.id := m];
    assert DigestsById(catalog) == DigestsById(s.catalog)[m.id := SetOf(DigestKeys(m))];
    assert NamesById(catalog) == NamesById(s.catalog)[m.id := SetOf(LowerAll(m.aliases))];
    DigestSet(m);
    if m.id in s.catalog {
      DigestSet(s.catalog[m.id]);
    }
  }

  lemma RemoveKeepsIndexed(s: Store, id: string)
    requires Indexed(s)
    ensures Indexed(Remove(s, id))
  {
    if id in s.catalog {
      var m := s.catalog[id];
      RemoveKeysInverts(s.digestIndex, DigestsById(s.catalog), id, DigestKeys(m));
      RemoveKeysInverts(s.nameIndex, NamesById(s.catalog), id, LowerAll(m.aliases));
      assert DigestsById(s.catalog - {id}) == DigestsById(s.catalog) - {id};
      assert NamesById(s.catalog - {id}) == NamesById(s.catalog) - {id};
    }
  }

  // --------------------------------------------------------------- lookups

  function ByDigest(s: Store, digest: string): Option<string> {
    if digest !in s.digestIndex then None else FirstStored(s.catalog, s.digestIndex[digest])
  }

  function FirstStored(catalog: map<string, Model>, ids: seq<string>): Option<string> {
    if ids == [] then None
    else if ids[0] in catalog then Some(ids[0])
    else FirstStored(catalog, ids[1..])
  }

  /** The id itself, or the first model indexed under the name. */
  function ByName(s: Store, name: string): Option<string> {
    if name in s.catalog then Some(name)
    else if Lower(name) in s.nameIndex && s.nameIndex[Lower(name)] != [] && s.nameIndex[Lower(name)][0] in s.catalog
    then Some(s.nameIndex[Lower(name)][0])
    else None
  }

  /** Names are first come, first served: storing a model leaves every name that resolves
      with the model it resolves to, unless the name is the id of the model stored. */
  lemma NamesStayTaken(s: Store, m: Model, name: string)
    requires ByName(s, name).Some? && name != m.id
    ensures ByName(Put(s, m), name) == ByName(s, name)
  {
    var key := Lower(name);
    if key in s.nameIndex {
      AddKeysKeeps(s.nameIndex, LowerAll(m.aliases), m.id, key);
    }
  }

  lemma {:induction false} AddKeysKeeps(index: Index, keys: seq<string>, id: string, key: string)
    requires key in index
    ensures key in AddKeys(index, keys, id) && index[key] <= AddKeys(index, keys, id)[key]
  {
    if keys != [] {
      AddKeysKeeps(index, keys[..|keys| - 1], id, key);
    }
  }

  /** Taking an id out of a list leaves the others in their order. */
  lemma {:induction false} WithoutConcat(a: seq<string>, b: seq<string>, id: string)
    ensures Without(a + b, id) == Without(a, id) + Without(b, id)
  {
    if b == [] {
      assert a + b == a;
    } else {
      WithoutConcat(a, b[..|b| - 1], id);
      assert (a + b)[..|a + b| - 1] == a + b[..|b| - 1];
    }
  }

  predicate AnswersTo(m: Model, name: string) {
    m.id == name || exists i :: 0 <= i < |m.aliases| && Lower(m.aliases[i]) == Lower(name)
  }

  lemma AliasKeys(m: Model, key: string)
    ensures key in SetOf(LowerAll(m.aliases)) <==> exists i :: 0 <= i < |m.aliases| && Lower(m.aliases[i]) == key
  {
    var keys := LowerAll(m.aliases);
    if key in SetOf(keys) {
      var i :| 0 <= i < |keys| && keys[i] == key;
      assert Lower(m.aliases[i]) == key;
    }
    if exists i :: 0 <= i < |m.aliases| && Lower(m.aliases[i]) == key {
      var i :| 0 <= i < |m.aliases| && Lower(m.aliases[i]) == key;
      assert keys[i] == key;
    }
  }

  /** The digest index finds a model exactly when a scan of the catalogue would, and it is
      the only one. */
  lemma DigestLookupIsScan(s: Store, digest: string)
    requires Indexed(s) && UniqueDigests(s.catalog) && digest != ""
    ensures ByDigest(s, digest).Some? <==> exists id :: id in s.catalog && s.catalog[id].digest == digest
    ensures forall id :: ByDigest(s, digest) == Some(id) <==> id in s.catalog && s.catalog[id].digest == digest
  {
    forall id ensures Listed(s.digestIndex, digest, id) <==> id in s.catalog && s.catalog[id].digest == digest {
      if id in s.catalog {
        DigestSet(s.catalog[id]);
      }
    }
    if digest in s.digestIndex {
      var first := s.digestIndex[digest][0];
      assert Listed(s.digestIndex, digest, first);
    }
  }

  /** The name index finds a model exactly when a scan of ids and aliases would. */
  lemma NameLookupIsScan(s: Store, name: string)
    requires Indexed(s)
    ensures ByName(s, name).Some? <==> exists id :: id in s.catalog && AnswersTo(s.catalog[id], name)
    ensures ByName(s, name).Some? ==> ByName(s, name).value in s.catalog
                                      && AnswersTo(s.catalog[ByName(s, name).value], name)
  {
    var key := Lower(name);
    forall id ensures Listed(s.nameIndex, key, id)
                 <==> id in s.catalog && exists i :: 0 <= i < |s.catalog[id].aliases| && Lower(s.catalog[id].aliases[i]) == key {
      if id in s.catalog {
        AliasKeys(s.catalog[id], key);
      }
    }
    if key in s.nameIndex {
      assert Listed(s.nameIndex, key, s.nameIndex[key][0]);
    }
  }

  // -------------------------------------------------------------- the class

  function Stale(catalog: map<string, Model>, now: int, threshold: int): set<string> {
    set id | id in catalog && now - catalog[id].lastSeen > threshold
  }

  class CatalogStore {
    var catalog: map<string, Model>
    var digestIndex: Index
    var nameIndex: Index
    var endpointModels: map<string, seq<string>>
    var lastCleanup: int
    const cleanupInterval: int

    function View(): Store
      reads this
    {
      Store(catalog, digestIndex, nameIndex, endpointModels)
    }

    constructor (cleanupInterval: int, now: int)
      ensures View() == Store(map[], map[], map[], map[])
      ensures this.cleanupInterval == cleanupInterval && lastCleanup == now
    {
      this.cleanupInterval := cleanupInterval;
      catalog, digestIndex, nameIndex, endpointModels, lastCleanup := map[], map[], map[], map[], now;
    }

    method GetModel(id: string) returns (m: Option<Model>)
      ensures m == if id in catalog then Some(catalog[id]) else None
    {
      m := if id in catalog then Some(catalog[id]) else None;
    }

    static method AddToIndex(index: Index, key: string, value: string) returns (r: Index)
      ensures r == AddTo(index, key, value)
    {
      if key !in index {
        return index[key := [value]];
      }
      var values := index[key];
      for i := 0 to |values|
        invariant value !in values[..i]
      {
        if values[i] == value {
          return index;
        }
      }
      assert values[..|values|] == values;
      return index[key := values + [value]];
    }

    static method RemoveFromIndex(index: Index, key: string, value: string) returns (r: Index)
      ensures r == RemoveFrom(index, key, value)
    {
      if key !in index {
        return index;
      }
      var values, kept := index[key], [];
      for i := 0 to |values|
        invariant kept == Without(values[..i], value)
      {
        assert values[..i + 1][..i] == values[..i];
        if values[i] != value {
          kept := kept + [values[i]];
        }
      }
      assert values[..|values|] == values;
      return if |kept| == 0 then index - {key} else index[key := kept];
    }

    method PutModel(m: Model)
      modifies this
      ensures View() == Put(old(View()), m) && lastCleanup == old(lastCleanup)
    {
      catalog := catalog[m.id := m];
      assert [m.digest][..0] == [];
      if m.digest != "" {
        digestIndex := AddToIndex(digestIndex, m.digest, m.id);
      }
      ghost var keys := LowerAll(m.aliases);
      for i := 0 to |m.aliases|
        invariant nameIndex == AddKeys(old(nameIndex), keys[..i], m.id)
        invariant catalog == old(catalog)[m.id := m] && digestIndex == AddKeys(old(digestIndex), DigestKeys(m), m.id)
        invariant endpointModels == old(endpointModels) && lastCleanup == old(lastCleanup)
      {
        assert keys[..i + 1][..i] == keys[..i];
        nameIndex := AddToIndex(nameIndex, Lower(m.aliases[i]), m.id);
      }
      assert keys[..|m.aliases|] == keys;
    }

    method RemoveModel(id: string) returns (removed: bool)
      requires Indexed(View())
      modifies this
      ensures removed <==> id in old(catalog)
      ensures View() == Remove(old(View()), id) && lastCleanup == old(lastCleanup)
    {
      if id !in catalog {
        return false;
      }
      var m := catalog[id];
      assert [m.digest][..0] == [];
      if m.digest != "" {
        digestIndex := RemoveFromIndex(digestIndex, m.digest, id);
      }
      ghost var keys := LowerAll(m.aliases);
      for i := 0 to |m.aliases|
        invariant nameIndex == RemoveKeys(old(nameIndex), keys[..i], id)
        invariant catalog == old(catalog) && digestIndex == RemoveKeys(old(digestIndex), DigestKeys(m), id)
        invariant endpointModels == old(endpointModels) && lastCleanup == old(lastCleanup)
      {
        assert keys[..i + 1][..i] == keys[..i];
        nameIndex := RemoveFromIndex(nameIndex, Lower(m.aliases[i]), id);
      }
      assert keys[..|m.aliases|] == keys;
      catalog := catalog - {id};
      return true;
    }

    /** The last resort, a scan of all aliases, finds nothing that the index misses. */
    method ResolveByName(name: string) returns (m: Option<Model>)
      requires Indexed(View())
      ensures m == match ByName(View(), name) case Some(id) => Some(catalog[id]) case None => None
    {
      NameLookupIsScan(View(), name);
      if name in catalog {
        return Some(catalog[name]);
      }
      var key := Lower(name);
      if key in nameIndex && |nameIndex[key]| > 0 && nameIndex[key][0] in catalog {
        return Some(catalog[nameIndex[key][0]]);
      }
      var rest := catalog.Keys;
      while rest != {}
        invariant rest <= catalog.Keys
        decreases rest
      {
        var id :| id in rest;
        var aliases := catalog[id].aliases;
        for i := 0 to |aliases| {
          assert !AnswersTo(catalog[id], name);
          if Lower(aliases[i]) == key {
            assert false;
          }
        }
        rest := rest - {id};
      }
      return None;
    }

    method ResolveByDigest(digest: string) returns (models: seq<Model>)
      requires Indexed(View())
      ensures models == [] <==> ByDigest(View(), digest) == None
      ensures models != [] ==> ByDigest(View(), digest) == Some(models[0].id)
                               && models[0].id in catalog && models[0] == catalog[models[0].id]
    {
      models := [];
      if digest !in digestIndex {
        return;
      }
      var ids := digestIndex[digest];
      for i := 0 to |ids|
        invariant models == [] ==> FirstStored(catalog, ids) == FirstStored(catalog, ids[i..])
        invariant models != [] ==> FirstStored(catalog, ids) == Some(models[0].id)
                                   && models[0].id in catalog && models[0] == catalog[models[0].id]
      {
        assert ids[i..][1..] == ids[i + 1..];
        if ids[i] in catalog {
          models := models + [catalog[ids[i]]];
        }
      }
    }

    method GetEndpointModels(url: string) returns (ids: seq<string>)
      ensures ids == if url in endpointModels then endpointModels[url] else []
    {
      ids := if url in endpointModels then endpointModels[url] else [];
    }

    method SetEndpointModels(url: string, ids: seq<string>)
      modifies this`endpointModels
      ensures endpointModels == old(endpointModels)[url := ids]
    {
      endpointModels := endpointModels[url := ids];
    }

    method NeedsCleanup(now: int) returns (due: bool)
      ensures due <==> now - lastCleanup > cleanupInterval
    {
      due := now - lastCleanup > cleanupInterval;
    }

    method CleanupStaleModels(now: int, threshold: int) returns (removed: seq<string>)
      requires Indexed(View())
      modifies this
      ensures SetOf(removed) == Stale(old(catalog), now, threshold)
      ensures View() == RemoveEach(old(View()), removed) && lastCleanup == now
      ensures Indexed(View())
    {
      lastCleanup := now;
      removed := [];
      var rest := catalog.Keys;
      while rest != {}
        invariant rest <= catalog.Keys && View() == old(View()) && lastCleanup == now
        invariant SetOf(removed) == Stale(catalog, now, threshold) - rest
        decreases rest
      {
        var id :| id in rest;
        if now - catalog[id].lastSeen > threshold {
          SetOfLast(removed + [id]);
          assert (removed + [id])[..|removed|] == removed;
          removed := removed + [id];
        }
        rest := rest - {id};
      }
      for i := 0 to |removed|
        invariant View() == RemoveEach(old(View()), removed[..i]) && Indexed(View()) && lastCleanup == now
      {
        assert removed[..i + 1][..i] == removed[..i];
        RemoveKeepsIndexed(View(), removed[i]);
        var _ := RemoveModel(removed[i]);
      }
      assert removed[..|removed|] == removed;
    }
  }
}
