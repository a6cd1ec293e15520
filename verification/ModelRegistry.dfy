/** The in-memory model registry: the list of models of each endpoint, and an index from
    model names back to endpoints that must always agree with those lists. */
module ModelRegistry {

  import opened Wrappers

  datatype ModelInfo = ModelInfo(name: string, size: int, kind: string, description: string, lastSeen: int)

  datatype Stats = Stats(totalEndpoints: nat, totalModels: nat, modelsPerEndpoint: map<string, nat>)

  datatype Registry = Registry(
    lists: map<string, seq<ModelInfo>>,
    index: map<string, set<string>>,
    stats: Stats)

  // ------------------------------------------------------------ the index

  function Names(models: seq<ModelInfo>): set<string> {
    set i | 0 <= i < |models| :: models[i].name
  }

  function ListOf(lists: map<string, seq<ModelInfo>>, url: string): seq<ModelInfo> {
    if url in lists then lists[url] else []
  }

  predicate Linked(index: map<string, set<string>>, name: string, url: string) {
    name in index && url in index[name]
  }

  function Link(index: map<string, set<string>>, name: string, url: string): map<string, set<string>> {
    index[name := (if name in index then index[name] else {}) + {url}]
  }

  function Unlink(index: map<string, set<string>>, name: string, url: string): map<string, set<string>> {
    if name !in index then index
    else if index[name] - {url} == {} then index - {name}
    else index[name := index[name] - {url}]
  }

  function LinkAll(index: map<string, set<string>>, models: seq<ModelInfo>, url: string): map<string, set<string>> {
    if models == [] then index
    else Link(LinkAll(index, models[..|models| - 1], url), models[|models| - 1].name, url)
  }

  function UnlinkAll(index: map<string, set<string>>, models: seq<ModelInfo>, url: string): map<string, set<string>> {
    if models == [] then index
    else Unlink(UnlinkAll(index, models[..|models| - 1], url), models[|models| - 1].name, url)
  }

  ghost predicate NoEmptySets(index: map<string, set<string>>) {
    forall name :: name in index ==> index[name] != {}
  }

  /** The index is the inverse of the lists. */
  ghost predicate Exact(lists: map<string, seq<ModelInfo>>, index: map<string, set<string>>) {
    && NoEmptySets(index)
    && forall name, url :: Linked(index, name, url) <==> url in lists && name in Names(lists[url])
  }

  /** after has exactly the links of before, plus or minus those of url under names. */
  ghost predicate Relinked(before: map<string, set<string>>, after: map<string, set<string>>,
                           url: string, names: set<string>, add: bool) {
    && NoEmptySets(after)
    && forall name, other :: Linked(after, name, other)
         <==> if other == url && name in names then add else Linked(before, name, other)
  }

  lemma LinkLinks(index: map<string, set<string>>, name: string, url: string)
    requires NoEmptySets(index)
    ensures Relinked(index, Link(index, name, url), url, {name}, true)
  {
  }

  lemma UnlinkUnlinks(index: map<string, set<string>>, name: string, url: string)
    requires NoEmptySets(index)
    ensures Relinked(index, Unlink(index, name, url), url, {name}, false)
  {
    if name in index {
      forall other | other in index[name] && other != url ensures other in index[name] - {url} {
      }
    }
  }

  lemma {:induction false} LinkAllLinks(index: map<string, set<string>>, models: seq<ModelInfo>, url: string)
    requires NoEmptySets(index)
    ensures Relinked(index, LinkAll(index, models, url), url, Names(models), true)
  {
    if models != [] {
      LinkAllLinks(index, models[..|models| - 1], url);
      LinkLinks(LinkAll(index, models[..|models| - 1], url), models[|models| - 1].name, url);
    }
  }

  lemma {:induction false} UnlinkAllUnlinks(index: map<string, set<string>>, models: seq<ModelInfo>, url: string)
    requires NoEmptySets(index)
    ensures Relinked(index, UnlinkAll(index, models, url), url, Names(models), false)
  {
    if models != [] {
      UnlinkAllUnlinks(index, models[..|models| - 1], url);
      UnlinkUnlinks(UnlinkAll(index, models[..|models| - 1], url), models[|models| - 1].name, url);
    }
  }

  // ------------------------------------------------------------ operations

  function AllNames(lists: map<string, seq<ModelInfo>>): set<string> {
    set url, name | url in lists && name in Names(lists[url]) :: name
  }

  function StatsFor(lists: map<string, seq<ModelInfo>>): Stats {
    Stats(|lists|, |AllNames(lists)|, map url | url in lists :: |lists[url]|)
  }

  ghost predicate Valid(r: Registry) {
    Exact(r.lists, r.index) && r.stats == StatsFor(r.lists)
  }

  const EMPTY := Registry(map[], map[], Stats(0, 0, map[]))

  function Upsert(models: seq<ModelInfo>, model: ModelInfo): seq<ModelInfo> {
    if models == [] then [model]
    else if models[0].name == model.name then [model] + models[1..]
    else [models[0]] + Upsert(models[1..], model)
  }

  lemma UpsertFrom(list: seq<ModelInfo>, model: ModelInfo, i: nat)
    requires i < |list|
    ensures list[..i] + Upsert(list[i..], model)
         == if list[i].name == model.name then list[i := model] else list[..i + 1] + Upsert(list[i + 1..], model)
  {
    assert list[i..][0] == list[i] && list[i..][1..] == list[i + 1..];
    if list[i].name == model.name {
      assert list[i := model] == list[..i] + ([model] + list[i + 1..]);
    } else {
      assert list[..i] + ([list[i]] + Upsert(list[i + 1..], model)) == list[..i + 1] + Upsert(list[i + 1..], model);
    }
  }

  /** The position of the first model of that name, else the length of the list. */
  function FirstNamed(models: seq<ModelInfo>, name: string): (i: nat)
    ensures i <= |models| && forall j :: 0 <= j < i ==> models[j].name != name
    ensures i < |models| ==> models[i].name == name
  {
    if models == [] || models[0].name == name then 0 else 1 + FirstNamed(models[1..], name)
  }

  /** Registering puts the model in the place of the first one of its name, or at the end,
      and leaves all others as they are. */
  lemma {:induction false} UpsertReplaces(models: seq<ModelInfo>, model: ModelInfo)
    ensures var i := FirstNamed(models, model.name);
            Upsert(models, model) == if i < |models| then models[i := model] else models + [model]
  {
    if models != [] && models[0].name != model.name {
      var first, rest := models[0], models[1..];
      UpsertReplaces(rest, model);
      assert models == [first] + rest;
      ReplacedBehind(first, rest, FirstNamed(rest, model.name), model);
    }
  }

  lemma ReplacedBehind(first: ModelInfo, rest: seq<ModelInfo>, i: nat, model: ModelInfo)
    requires i <= |rest|
    ensures i < |rest| ==> ([first] + rest)[i + 1 := model] == [first] + rest[i := model]
    ensures [first] + rest + [model] == [first] + (rest + [model])
  {
  }

  function Register(r: Registry, url: string, model: ModelInfo): Registry {
    var lists := r.lists[url := Upsert(ListOf(r.lists, url), model)];
    Registry(lists, Link(r.index, model.name, url), StatsFor(lists))
  }

  /** A batch up to, and not including, its first unnamed model; nil entries are skipped. */
  function Accepted(batch: seq<Option<ModelInfo>>): seq<ModelInfo> {
    if batch == [] then []
    else if batch[0].None? then Accepted(batch[1..])
    else if batch[0].value.name == "" then []
    else [batch[0].value] + Accepted(batch[1..])
  }

  lemma AcceptedFrom(batch: seq<Option<ModelInfo>>, i: nat)
    requires i < |batch|
    ensures Accepted(batch[i..])
         == if batch[i].None? then Accepted(batch[i + 1..])
            else if batch[i].value.name == "" then []
            else [batch[i].value] + Accepted(batch[i + 1..])
  {
    assert batch[i..][1..] == batch[i + 1..];
  }

  lemma LinkOneMore(index: map<string, set<string>>, models: seq<ModelInfo>, next: ModelInfo, url: string)
    ensures LinkAll(index, models + [next], url) == Link(LinkAll(index, models, url), next.name, url)
  {
    assert (models + [next])[..|models|] == models;
  }

  function Somes(batch: seq<Option<ModelInfo>>): nat {
    if batch == [] then 0 else Somes(batch[..|batch| - 1]) + if batch[|batch| - 1].Some? then 1 else 0
  }

  lemma {:induction false} AcceptedOneMore(batch: seq<Option<ModelInfo>>, next: Option<ModelInfo>)
    requires !HasUnnamed(batch)
    ensures Accepted(batch + [next])
         == Accepted(batch) + if next.Some? && next.value.name != "" then [next.value] else []
  {
    if batch == [] {
      assert [next][1..] == [];
    } else {
      assert (batch + [next])[0] == batch[0] && (batch + [next])[1..] == batch[1..] + [next];
      NamedRest(batch);
      assert batch[0].Some? ==> batch[0].value.name != "";
      AcceptedOneMore(batch[1..], next);
    }
  }

  lemma NamedRest(batch: seq<Option<ModelInfo>>)
    requires batch != [] && !HasUnnamed(batch)
    ensures !HasUnnamed(batch[1..]) && !HasUnnamed(batch[..|batch| - 1])
    ensures batch[|batch| - 1].Some? ==> batch[|batch| - 1].value.name != ""
  {
    assert forall i :: 0 <= i < |batch| - 1 ==> batch[1..][i] == batch[i + 1];
  }

  /** A batch without unnamed models is stored as it is, in its order, nil entries apart. */
  lemma {:induction false} AcceptedKeeps(batch: seq<Option<ModelInfo>>, i: nat)
    requires !HasUnnamed(batch) && i < |batch|
    ensures |Accepted(batch)| == Somes(batch)
    ensures batch[i].Some? ==> Somes(batch[..i]) < |Accepted(batch)| && Accepted(batch)[Somes(batch[..i])] == batch[i].value
    decreases |batch|
  {
    var init, last := batch[..|batch| - 1], batch[|batch| - 1];
    NamedRest(batch);
    AcceptedOneMore(init, last);
    assert batch == init + [last];
    if init == [] {
    } else if i < |init| {
      AcceptedKeeps(init, i);
      assert init[..i] == batch[..i];
    } else {
      AcceptedKeeps(init, 0);
      assert batch[..i] == init;
    }
  }

  predicate HasUnnamed(batch: seq<Option<ModelInfo>>) {
    exists i :: 0 <= i < |batch| && batch[i].Some? && batch[i].value.name == ""
  }

  function RegisterBatch(r: Registry, url: string, batch: seq<Option<ModelInfo>>): Registry {
    var freed := UnlinkAll(r.index, ListOf(r.lists, url), url);
    if batch == [] then
      Registry(r.lists - {url}, freed, StatsFor(r.lists - {url}))
    else if HasUnnamed(batch) then
      // The error return comes after the index has been touched.
      r.(index := LinkAll(freed, Accepted(batch), url))
    else
      var lists := r.lists[url := Accepted(batch)];
      Registry(lists, LinkAll(freed, Accepted(batch), url), StatsFor(lists))
  }

  function Remove(r: Registry, url: string): Registry {
    var lists := r.lists - {url};
    Registry(lists, UnlinkAll(r.index, ListOf(r.lists, url), url), StatsFor(lists))
  }

  // -------------------------------------------------------------- the class

  datatype Outcome = Ok | BadInput | Cancelled | UnnamedModel

  predicate Blank(s: string) {
    forall i :: 0 <= i < |s| ==> IsSpace(s[i])
  }

  class MemoryModelRegistry {
    var endpointModels: map<string, seq<ModelInfo>>
    var modelToEndpoints: map<string, set<string>>
    var stats: Stats
    // Whether a URL parses and has a scheme and a host.
    const wellFormed: string -> bool

    function View(): Registry
      reads this
    {
      Registry(endpointModels, modelToEndpoints, stats)
    }

    constructor (wellFormed: string -> bool)
      ensures View() == EMPTY && this.wellFormed == wellFormed
    {
      this.wellFormed := wellFormed;
      endpointModels, modelToEndpoints, stats := map[], map[], Stats(0, 0, map[]);
    }

    /** Replaces the first model of that name, or adds one at the end. */
    method InsertOrReplace(list: seq<ModelInfo>, model: ModelInfo) returns (models: seq<ModelInfo>)
      ensures models == Upsert(list, model)
    {
      for i := 0 to |list|
        invariant Upsert(list, model) == list[..i] + Upsert(list[i..], model)
      {
        UpsertFrom(list, model, i);
        if list[i].name == model.name {
          return list[i := model];
        }
      }
      assert list[..|list|] == list && list[|list|..] == [];
      models := list + [model];
    }

    method RegisterModel(cancelled: bool, url: string, model: ModelInfo) returns (outcome: Outcome)
      modifies this
      ensures outcome == (if Blank(url) || Blank(model.name) || !wellFormed(url) then BadInput
                          else if cancelled then Cancelled else Ok)
      ensures View() == if outcome == Ok then Register(old(View()), url, model) else old(View())
      ensures outcome == Ok ==>
                var list := ListOf(old(endpointModels), url); var i := FirstNamed(list, model.name);
                endpointModels == old(endpointModels)[url := if i < |list| then list[i := model] else list + [model]]
    {
      if Blank(url) || Blank(model.name) || !wellFormed(url) {
        return BadInput;
      }
      if cancelled {
        return Cancelled;
      }
      UpsertReplaces(ListOf(endpointModels, url), model);
      var models := InsertOrReplace(ListOf(endpointModels, url), model);
      endpointModels := endpointModels[url := models];
      modelToEndpoints := Link(modelToEndpoints, model.name, url);
      UpdateStats();
      return Ok;
    }

    method RegisterModels(cancelled: bool, url: string, batch: seq<Option<ModelInfo>>) returns (outcome: Outcome)
      modifies this
      ensures outcome == (if url == "" || !wellFormed(url) then BadInput
                          else if cancelled then Cancelled
                          else if HasUnnamed(batch) then UnnamedModel else Ok)
      ensures View() == if outcome == BadInput || outcome == Cancelled then old(View())
                        else RegisterBatch(old(View()), url, batch)
      ensures endpointModels == if outcome != Ok then old(endpointModels)
                                else if batch == [] then old(endpointModels) - {url}
                                else old(endpointModels)[url := Accepted(batch)]
    {
      if url == "" || !wellFormed(url) {
        return BadInput;
      }
      if cancelled {
        return Cancelled;
      }
      RemoveEndpointFromIndex(url);
      if |batch| == 0 {
        endpointModels := endpointModels - {url};
        UpdateStats();
        return Ok;
      }
      var models, named := IndexBatch(url, batch);
      if !named {
        return UnnamedModel;
      }
      endpointModels := endpointModels[url := models];
      UpdateStats();
      return Ok;
    }

    /** The loop of RegisterModels: indexes the batch and copies it, until a model has no
        name. */
    method IndexBatch(url: string, batch: seq<Option<ModelInfo>>) returns (models: seq<ModelInfo>, named: bool)
      modifies this`modelToEndpoints
      ensures models == Accepted(batch) && named == !HasUnnamed(batch)
      ensures modelToEndpoints == LinkAll(old(modelToEndpoints), models, url)
    {
      models := [];
      for i := 0 to |batch|
        invariant Accepted(batch) == models + Accepted(batch[i..])
        invariant forall k :: 0 <= k < i && batch[k].Some? ==> batch[k].value.name != ""
        invariant modelToEndpoints == LinkAll(old(modelToEndpoints), models, url)
      {
        AcceptedFrom(batch, i);
        if batch[i].None? {
          continue;
        }
        if batch[i].value.name == "" {
          return models, false;
        }
        LinkOneMore(old(modelToEndpoints), models, batch[i].value, url);
        assert models + Accepted(batch[i..]) == (models + [batch[i].value]) + Accepted(batch[i + 1..]);
        models := models + [batch[i].value];
        modelToEndpoints := Link(modelToEndpoints, batch[i].value.name, url);
      }
      assert batch[|batch|..] == [] && models + [] == models;
      return models, true;
    }

    method RemoveEndpoint(cancelled: bool, url: string) returns (outcome: Outcome)
      modifies this
      ensures outcome == if url == "" then BadInput else if cancelled then Cancelled else Ok
      ensures View() == if outcome == Ok then Remove(old(View()), url) else old(View())
      ensures outcome == Ok ==> endpointModels == old(endpointModels) - {url}
    {
      if url == "" {
        return BadInput;
      }
      if cancelled {
        return Cancelled;
      }
      RemoveEndpointFromIndex(url);
      endpointModels := endpointModels - {url};
      UpdateStats();
      return Ok;
    }

    method RemoveEndpointFromIndex(url: string)
      modifies this`modelToEndpoints
      ensures modelToEndpoints == UnlinkAll(old(modelToEndpoints), ListOf(endpointModels, url), url)
    {
      if url in endpointModels {
        var models := endpointModels[url];
        for i := 0 to |models|
          invariant modelToEndpoints == UnlinkAll(old(modelToEndpoints), models[..i], url)
        {
          assert models[..i + 1][..i] == models[..i];
          var name := models[i].name;
          if name in modelToEndpoints {
            modelToEndpoints := modelToEndpoints[name := modelToEndpoints[name] - {url}];
            if modelToEndpoints[name] == {} {
              modelToEndpoints := modelToEndpoints - {name};
            }
          }
          assert modelToEndpoints == UnlinkAll(old(modelToEndpoints), models[..i + 1], url);
        }
        assert models[..|models|] == models;
      }
    }

    method UpdateStats()
      modifies this`stats
      ensures stats == StatsFor(endpointModels)
    {
      var modelSet := {};
      var modelsPerEndpoint := map[];
      var rest := endpointModels.Keys;
      while rest != {}
        invariant rest <= endpointModels.Keys
        invariant modelsPerEndpoint == map url | url in endpointModels && url !in rest :: |endpointModels[url]|
        invariant modelSet == set url, name | url in endpointModels && url !in rest && name in Names(endpointModels[url]) :: name
        decreases rest
      {
        var url :| url in rest;
        modelsPerEndpoint := modelsPerEndpoint[url := |endpointModels[url]|];
        modelSet := modelSet + Names(endpointModels[url]);
        rest := rest - {url};
      }
      assert modelsPerEndpoint.Keys == endpointModels.Keys;
      assert modelSet == AllNames(endpointModels);
      stats := Stats(|modelsPerEndpoint|, |modelSet|, modelsPerEndpoint);
    }

    /** An error for an empty name or a cancelled request; nothing for an unknown model. */
    method GetEndpointsForModel(cancelled: bool, name: string) returns (outcome: Outcome, urls: set<string>)
      ensures outcome == if name == "" then BadInput else if cancelled then Cancelled else Ok
      ensures urls == if outcome == Ok && name in modelToEndpoints then modelToEndpoints[name] else {}
    {
      if name == "" {
        return BadInput, {};
      }
      if cancelled {
        return Cancelled, {};
      }
      return Ok, if name in modelToEndpoints then modelToEndpoints[name] else {};
    }

    /** The healthy endpoints that serve the model, in the order given; status is 0 when
        the request is routed, and when there is an error in place of a decision. */
    method GetRoutableEndpointsForModel(cancelled: bool, name: string, healthy: seq<string>)
      returns (outcome: Outcome, routable: seq<string>, status: int)
      requires Valid(View())
      ensures outcome == if name == "" then BadInput else if cancelled then Cancelled else Ok
      ensures outcome != Ok ==> routable == [] && status == 0
      ensures outcome == Ok ==>
                && routable == Serving(endpointModels, name, healthy)
                && status == if routable != [] then 0 else if name in AllNames(endpointModels) then 503 else 404
    {
      var urls: set<string>;
      outcome, urls := GetEndpointsForModel(cancelled, name);
      if outcome != Ok {
        return outcome, [], 0;
      }
      IndexKeys(View());
      if urls == {} {
        forall url | url in healthy ensures !Serves(endpointModels, name, url) {
          assert !Linked(modelToEndpoints, name, url);
        }
        NothingServes(endpointModels, name, healthy);
        return Ok, [], 404;
      }
      routable := [];
      for i := 0 to |healthy|
        invariant routable == Serving(endpointModels, name, healthy[..i])
      {
        assert healthy[..i + 1][..i] == healthy[..i];
        assert Linked(modelToEndpoints, name, healthy[i]) <==> Serves(endpointModels, name, healthy[i]);
        if healthy[i] in urls {
          routable := routable + [healthy[i]];
        }
      }
      assert healthy[..|healthy|] == healthy;
      status := if routable == [] then 503 else 0;
    }
  }

  predicate Serves(lists: map<string, seq<ModelInfo>>, name: string, url: string) {
    url in lists && name in Names(lists[url])
  }

  /** The full scan that the index replaces. */
  function Serving(lists: map<string, seq<ModelInfo>>, name: string, healthy: seq<string>): (r: seq<string>)
    ensures forall url :: url in r <==> url in healthy && Serves(lists, name, url)
    ensures (forall url :: url in healthy ==> Serves(lists, name, url)) ==> r == healthy
  {
    if healthy == [] then []
    else
      var last := healthy[|healthy| - 1];
      assert healthy == healthy[..|healthy| - 1] + [last];
      Serving(lists, name, healthy[..|healthy| - 1]) + if Serves(lists, name, last) then [last] else []
  }

  lemma {:induction false} NothingServes(lists: map<string, seq<ModelInfo>>, name: string, healthy: seq<string>)
    requires forall url :: url in healthy ==> !Serves(lists, name, url)
    ensures Serving(lists, name, healthy) == []
  {
    if healthy != [] {
      NothingServes(lists, name, healthy[..|healthy| - 1]);
    }
  }

  // ------------------------------------------------------------------- runs

  datatype Operation =
    | DoRegister(url: string, model: ModelInfo)
    | DoRegisterBatch(url: string, batch: seq<Option<ModelInfo>>)
    | DoRemove(url: string)

  function Apply(r: Registry, op: Operation): Registry {
    match op
    case DoRegister(url, model) => Register(r, url, model)
    case DoRegisterBatch(url, batch) => RegisterBatch(r, url, batch)
    case DoRemove(url) => Remove(r, url)
  }

  function Run(r: Registry, ops: seq<Operation>): Registry
    decreases |ops|
  {
    if ops == [] then r else Run(Apply(r, ops[0]), ops[1..])
  }

  /** What an endpoint lists, from what it listed before and the calls about it alone. */
  function Listing(before: Option<seq<ModelInfo>>, ops: seq<Operation>, url: string): Option<seq<ModelInfo>>
    decreases |ops|
  {
    if ops == [] then before else Listing(Relisted(before, ops[0], url), ops[1..], url)
  }

  function Relisted(before: Option<seq<ModelInfo>>, op: Operation, url: string): Option<seq<ModelInfo>> {
    if op.url != url then before
    else
      match op
      case DoRegister(_, model) =>
        var list := if before.Some? then before.value else [];
        var i := FirstNamed(list, model.name);
        Some(if i < |list| then list[i := model] else list + [model])
      case DoRegisterBatch(_, batch) =>
        if HasUnnamed(batch) then before else if batch == [] then None else Some(Accepted(batch))
      case DoRemove(_) => None
  }

  function Listed(r: Registry, url: string): Option<seq<ModelInfo>> {
    if url in r.lists then Some(r.lists[url]) else None
  }

  lemma BatchIsListed(r: Registry, u: string, batch: seq<Option<ModelInfo>>, url: string)
    ensures Listed(RegisterBatch(r, u, batch), url)
         == if u != url || HasUnnamed(batch) then Listed(r, url) else if batch == [] then None else Some(Accepted(batch))
  {
  }

  lemma RegisteredIsListed(r: Registry, u: string, model: ModelInfo, url: string)
    ensures Listed(Register(r, u, model), url) == Relisted(Listed(r, url), DoRegister(u, model), url)
  {
    UpsertReplaces(ListOf(r.lists, u), model);
  }

  lemma ListsFollow(r: Registry, op: Operation, url: string)
    ensures Listed(Apply(r, op), url) == Relisted(Listed(r, url), op, url)
  {
    match op {
      case DoRegister(u, model) => RegisteredIsListed(r, u, model, url);
      case DoRegisterBatch(u, batch) => BatchIsListed(r, u, batch, url);
      case DoRemove(u) =>
    }
  }

  /** After any calls, failed batches included, an endpoint lists what its last batch and the
      later registrations gave it, and calls about other endpoints change nothing. */
  lemma {:induction false} ListsFollowCalls(r: Registry, ops: seq<Operation>, url: string)
    ensures Listed(Run(r, ops), url) == Listing(Listed(r, url), ops, url)
    decreases |ops|
  {
    if ops != [] {
      ListsFollow(r, ops[0], url);
      ListsFollowCalls(Apply(r, ops[0]), ops[1..], url);
    }
  }

  predicate Succeeds(op: Operation) {
    op.DoRegisterBatch? ==> !HasUnnamed(op.batch)
  }

  lemma {:induction false} UpsertNames(models: seq<ModelInfo>, model: ModelInfo)
    ensures Names(Upsert(models, model)) == Names(models) + {model.name}
    ensures |Upsert(models, model)| <= |models| + 1
  {
    if models != [] {
      NamesOfFirst(models);
      if models[0].name == model.name {
        NamesOfFirst([model] + models[1..]);
        assert ([model] + models[1..])[1..] == models[1..];
      } else {
        UpsertNames(models[1..], model);
        NamesOfFirst(Upsert(models, model));
        assert Upsert(models, model)[1..] == Upsert(models[1..], model);
      }
    } else {
      assert Upsert(models, model)[0] == model;
    }
  }

  lemma NamesOfFirst(models: seq<ModelInfo>)
    requires models != []
    ensures Names(models) == {models[0].name} + Names(models[1..])
  {
    forall name | name in Names(models[1..]) ensures name in Names(models) {
      var i :| 0 <= i < |models[1..]| && models[1..][i].name == name;
      assert models[i + 1].name == name;
    }
    forall name | name in Names(models) ensures name in {models[0].name} + Names(models[1..]) {
      var i :| 0 <= i < |models| && models[i].name == name;
      assert i > 0 ==> models[1..][i - 1].name == name;
    }
  }

  lemma ReplacingListKeepsExact(lists: map<string, seq<ModelInfo>>, index: map<string, set<string>>, url: string,
                                models: seq<ModelInfo>)
    requires Exact(lists, index)
    ensures Exact(lists[url := models], LinkAll(UnlinkAll(index, ListOf(lists, url), url), models, url))
    ensures Exact(lists - {url}, UnlinkAll(index, ListOf(lists, url), url))
  {
    var freed := UnlinkAll(index, ListOf(lists, url), url);
    UnlinkAllUnlinks(index, ListOf(lists, url), url);
    LinkAllLinks(freed, models, url);
  }

  lemma AddingNameKeepsExact(lists: map<string, seq<ModelInfo>>, index: map<string, set<string>>, url: string,
                             models: seq<ModelInfo>, name: string)
    requires Exact(lists, index) && Names(models) == Names(ListOf(lists, url)) + {name}
    ensures Exact(lists[url := models], Link(index, name, url))
  {
    LinkLinks(index, name, url);
  }

  lemma ApplyKeepsValid(r: Registry, op: Operation)
    requires Valid(r) && Succeeds(op)
    ensures Valid(Apply(r, op))
  {
    match op {
      case DoRegister(url, model) =>
        UpsertNames(ListOf(r.lists, url), model);
        AddingNameKeepsExact(r.lists, r.index, url, Upsert(ListOf(r.lists, url), model), model.name);
      case DoRegisterBatch(url, batch) => ReplacingListKeepsExact(r.lists, r.index, url, Accepted(batch));
      case DoRemove(url) => ReplacingListKeepsExact(r.lists, r.index, url, []);
    }
  }

  lemma {:induction false} RunKeepsValid(r: Registry, ops: seq<Operation>)
    requires Valid(r) && forall i :: 0 <= i < |ops| ==> Succeeds(ops[i])
    ensures Valid(Run(r, ops))
    decreases |ops|
  {
    if ops != [] {
      ApplyKeepsValid(r, ops[0]);
      RunKeepsValid(Apply(r, ops[0]), ops[1..]);
    }
  }

  lemma IndexKeys(r: Registry)
    requires Valid(r)
    ensures r.index.Keys == AllNames(r.lists)
  {
    forall name ensures name in r.index <==> name in AllNames(r.lists) {
      if name in r.index {
        var url :| url in r.index[name];
        assert Linked(r.index, name, url);
      }
      if name in AllNames(r.lists) {
        var url :| url in r.lists && name in Names(r.lists[url]);
        assert Linked(r.index, name, url);
      }
    }
  }

  /** After any run of successful calls an endpoint is indexed under a name exactly when
      its list has a model of that name, no empty set is kept, the model count is the
      number of index keys, and both directions count the same links. */
  lemma IndexIsExact(ops: seq<Operation>)
    requires forall i :: 0 <= i < |ops| ==> Succeeds(ops[i])
    ensures var r := Run(EMPTY, ops);
            && (forall name, url :: Linked(r.index, name, url) <==> Serves(r.lists, name, url))
            && (forall name :: name in r.index ==> r.index[name] != {})
            && r.stats.totalModels == |r.index|
            && r.stats.totalEndpoints == |r.lists|
            && SumOfSizes(r.index) == SumOfSizes(map url | url in r.lists :: Names(r.lists[url]))
  {
    assert AllNames(EMPTY.lists) == {};
    assert EMPTY.stats == StatsFor(EMPTY.lists);
    RunKeepsValid(EMPTY, ops);
    var r := Run(EMPTY, ops);
    IndexKeys(r);
    assert |r.index| == |r.index.Keys|;
    var names := map url | url in r.lists :: Names(r.lists[url]);
    CountByPairs(r.index);
    CountByPairs(names);
    assert Pairs(names) == Swapped(Pairs(r.index)) by {
      forall url, name ensures (url, name) in Pairs(names) <==> (url, name) in Swapped(Pairs(r.index)) {
        assert Linked(r.index, name, url) <==> (name, url) in Pairs(r.index);
        if (name, url) in Pairs(r.index) {
          assert (url, name) in Swapped(Pairs(r.index));
        }
      }
    }
    SwapKeepsSize(Pairs(r.index));
  }

  // --------------------------------------------------------- counting links

  function Pairs(m: map<string, set<string>>): set<(string, string)> {
    set k, v | k in m && v in m[k] :: (k, v)
  }

  function Swapped(pairs: set<(string, string)>): set<(string, string)> {
    set p | p in pairs :: (p.1, p.0)
  }

  ghost function SumOfSizes(m: map<string, set<string>>): nat {
    if m == map[] then 0
    else
      var k :| k in m;
      |m[k]| + SumOfSizes(m - {k})
  }

  /** The sum does not depend on the order in which keys are taken: it counts pairs. */
  lemma {:induction false} CountByPairs(m: map<string, set<string>>)
    ensures SumOfSizes(m) == |Pairs(m)|
    decreases |m|
  {
    if m == map[] {
      assert Pairs(m) == {};
    } else {
      var k :| k in m && SumOfSizes(m) == |m[k]| + SumOfSizes(m - {k});
      CountByPairs(m - {k});
      var own := set v | v in m[k] :: (k, v);
      PairUpSize(k, m[k]);
      assert Pairs(m) == Pairs(m - {k}) + own;
      assert Pairs(m - {k}) !! own;
    }
  }

  lemma {:induction false} PairUpSize(k: string, vs: set<string>)
    ensures |set v | v in vs :: (k, v)| == |vs|
  {
    if vs != {} {
      var x :| x in vs;
      PairUpSize(k, vs - {x});
      assert (set v | v in vs :: (k, v)) == (set v | v in vs - {x} :: (k, v)) + {(k, x)};
    }
  }

  lemma {:induction false} SwapKeepsSize(pairs: set<(string, string)>)
    ensures |Swapped(pairs)| == |pairs|
  {
    if pairs != {} {
      var p :| p in pairs;
      SwapKeepsSize(pairs - {p});
      assert Swapped(pairs) == Swapped(pairs - {p}) + {(p.1, p.0)};
      assert (p.1, p.0) !in Swapped(pairs - {p});
    }
  }

  // -------------------------------------------------- batches that fail late

  /** A batch with an unnamed model is rejected after the index has been changed.  The
      index still agrees with the lists exactly when the names in front of that model are
      the names the endpoint already had. */
  lemma FailedBatchKeepsIndexIff(r: Registry, url: string, batch: seq<Option<ModelInfo>>)
    requires Valid(r) && HasUnnamed(batch)
    ensures Valid(RegisterBatch(r, url, batch)) <==> Names(Accepted(batch)) == Names(ListOf(r.lists, url))
  {
    var mine := ListOf(r.lists, url);
    UnlinkAllUnlinks(r.index, mine, url);
    LinkAllLinks(UnlinkAll(r.index, mine, url), Accepted(batch), url);
    var after := RegisterBatch(r, url, batch);
    forall name ensures Linked(after.index, name, url) <==> name in Names(Accepted(batch)) {
    }
    if Names(Accepted(batch)) == Names(mine) {
      assert Names(mine) != {} ==> url in r.lists;
    } else if Valid(after) {
      forall name ensures name in Names(Accepted(batch)) <==> name in Names(mine) {
        assert Linked(after.index, name, url) <==> url in r.lists && name in Names(r.lists[url]);
      }
    }
  }

  /** So one malformed batch can leave an endpoint indexed under a model it never had. */
  lemma FailedBatchCanBreakIndex()
    ensures var m := ModelInfo("llama", 1, "", "", 0);
            var r := RegisterBatch(EMPTY, "http://a", [Some(m), Some(m.(name := ""))]);
            Linked(r.index, "llama", "http://a") && !Serves(r.lists, "llama", "http://a")
  {
    var m := ModelInfo("llama", 1, "", "", 0);
    var batch := [Some(m), Some(m.(name := ""))];
    assert batch[1].value.name == "" && HasUnnamed(batch);
    assert batch[1..][0] == batch[1];
    assert Accepted(batch) == [m];
    assert LinkAll(map[], [m], "http://a") == Link(LinkAll(map[], [m][..0], "http://a"), "llama", "http://a");
  }
}
