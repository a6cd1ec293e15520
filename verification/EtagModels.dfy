/** The bytes behind the ETag of the models payload.  Its lists end with a bare separator
    and its sections have no count, so the fields alone do not determine the payload. */
module EtagModels {

  import opened Wrappers
  import opened Etag

  datatype ModelRecord = ModelRecord(
    name: string, kind: string, family: string, size: string, params: string, quant: string,
    endpoints: seq<string>, endpointIds: seq<string>, aliases: seq<string>, capabilities: seq<string>,
    lastSeen: Option<int>)

  datatype Group = Group(family: string, count: int, endpoints: seq<string>, models: seq<ModelRecord>)

  /** Families in the order they are hashed, which is sorted by name. */
  datatype ModelStatus = ModelStatus(
    families: seq<(string, seq<string>)>, recent: seq<ModelRecord>, groups: seq<Group>,
    totalModels: int, totalFamilies: int, totalEndpoints: int)

  function ListFields(l: seq<string>): seq<string> {
    l + [""]
  }

  function ModelFields(m: ModelRecord): seq<string> {
    [m.name, m.kind, m.family, m.size, m.params, m.quant]
    + ListFields(m.endpoints) + ListFields(m.endpointIds) + ListFields(m.aliases) + ListFields(m.capabilities)
    + [PrintMaybe(m.lastSeen)]
  }

  function ModelsFields(models: seq<ModelRecord>): seq<string> {
    if models == [] then [] else ModelFields(models[0]) + ModelsFields(models[1..])
  }

  function GroupFields(g: Group): seq<string> {
    [g.family, Print(g.count)] + ListFields(g.endpoints) + ModelsFields(g.models)
  }

  function GroupsFields(groups: seq<Group>): seq<string> {
    if groups == [] then [] else GroupFields(groups[0]) + GroupsFields(groups[1..])
  }

  function FamilyFields(f: (string, seq<string>)): seq<string> {
    [f.0] + ListFields(f.1)
  }

  function FamiliesFields(families: seq<(string, seq<string>)>): seq<string> {
    if families == [] then [] else FamilyFields(families[0]) + FamiliesFields(families[1..])
  }

  function TotalsFields(s: ModelStatus): seq<string> {
    [Print(s.totalModels), Print(s.totalFamilies), Print(s.totalEndpoints)]
  }

  function ModelStatusFields(s: ModelStatus): seq<string> {
    FamiliesFields(s.families) + ModelsFields(s.recent) + GroupsFields(s.groups)
    + TotalsFields(s)
  }

  function ModelStatusBytes(s: ModelStatus): string {
    Join(ModelStatusFields(s))
  }

  // ------------------------------------------------- reading a payload by shape

  /** How many families and recent models there are, and how many models in each group. */
  datatype Shape = Shape(families: nat, recent: nat, groups: seq<nat>)

  function Sizes(groups: seq<Group>): seq<nat> {
    if groups == [] then [] else [|groups[0].models|] + Sizes(groups[1..])
  }

  function ShapeOf(s: ModelStatus): Shape {
    Shape(|s.families|, |s.recent|, Sizes(s.groups))
  }

  predicate NoneEmpty(l: seq<string>) {
    "" !in l
  }

  predicate ModelOk(m: ModelRecord) {
    NoneEmpty(m.endpoints) && NoneEmpty(m.endpointIds) && NoneEmpty(m.aliases) && NoneEmpty(m.capabilities)
  }

  predicate ModelsOk(models: seq<ModelRecord>) {
    forall m :: m in models ==> ModelOk(m)
  }

  /** No list of the payload holds an empty string. */
  predicate ListsOk(s: ModelStatus) {
    && (forall f :: f in s.families ==> NoneEmpty(f.1))
    && ModelsOk(s.recent)
    && (forall g :: g in s.groups ==> NoneEmpty(g.endpoints) && ModelsOk(g.models))
  }

  function At(f: seq<string>, i: nat): string {
    if i < |f| then f[i] else ""
  }

  function From(f: seq<string>, i: nat): seq<string> {
    if i < |f| then f[i..] else []
  }

  /** The list at the front, and what follows its separator. */
  function TakeList(f: seq<string>): (seq<string>, seq<string>) {
    if f == [] || f[0] == "" then ([], From(f, 1))
    else
      var (l, rest) := TakeList(f[1..]);
      ([f[0]] + l, rest)
  }

  function TakeModel(f: seq<string>): (ModelRecord, seq<string>) {
    var (endpoints, f1) := TakeList(From(f, 6));
    var (ids, f2) := TakeList(f1);
    var (aliases, f3) := TakeList(f2);
    var (capabilities, f4) := TakeList(f3);
    (ModelRecord(At(f, 0), At(f, 1), At(f, 2), At(f, 3), At(f, 4), At(f, 5), endpoints, ids, aliases, capabilities,
                 ParseMaybe(At(f4, 0))), From(f4, 1))
  }

  function TakeModels(n: nat, f: seq<string>): (seq<ModelRecord>, seq<string>) {
    if n == 0 then ([], f)
    else
      var (m, f1) := TakeModel(f);
      var (ms, f2) := TakeModels(n - 1, f1);
      ([m] + ms, f2)
  }

  function TakeGroup(size: nat, f: seq<string>): (Group, seq<string>) {
    var (endpoints, f1) := TakeList(From(f, 2));
    var (models, f2) := TakeModels(size, f1);
    (Group(At(f, 0), Parse(At(f, 1)), endpoints, models), f2)
  }

  function TakeGroups(sizes: seq<nat>, f: seq<string>): (seq<Group>, seq<string>) {
    if sizes == [] then ([], f)
    else
      var (g, f1) := TakeGroup(sizes[0], f);
      var (groups, f2) := TakeGroups(sizes[1..], f1);
      ([g] + groups, f2)
  }

  function TakeFamily(f: seq<string>): ((string, seq<string>), seq<string>) {
    var (l, f1) := TakeList(From(f, 1));
    ((At(f, 0), l), f1)
  }

  function TakeFamilies(n: nat, f: seq<string>): (seq<(string, seq<string>)>, seq<string>) {
    if n == 0 then ([], f)
    else
      var (family, f1) := TakeFamily(f);
      var (families, f2) := TakeFamilies(n - 1, f1);
      ([family] + families, f2)
  }

  function ReadFields(shape: Shape, f: seq<string>): ModelStatus {
    var (families, f1) := TakeFamilies(shape.families, f);
    var (recent, f2) := TakeModels(shape.recent, f1);
    var (groups, f3) := TakeGroups(shape.groups, f2);
    ModelStatus(families, recent, groups, Parse(At(f3, 0)), Parse(At(f3, 1)), Parse(At(f3, 2)))
  }

  function ReadModelStatus(shape: Shape, bytes: string): ModelStatus {
    ReadFields(shape, Split(bytes))
  }

  lemma {:induction false} TakesList(l: seq<string>, rest: seq<string>)
    requires NoneEmpty(l)
    ensures TakeList(ListFields(l) + rest) == (l, rest)
  {
    var f := ListFields(l) + rest;
    if l == [] {
      assert f[1..] == rest;
    } else {
      TakesList(l[1..], rest);
      assert f[1..] == ListFields(l[1..]) + rest && f[0] == l[0] && l[0] in l;
      assert [l[0]] + l[1..] == l;
    }
  }

  lemma TakesModel(m: ModelRecord, rest: seq<string>)
    requires ModelOk(m)
    ensures TakeModel(ModelFields(m) + rest) == (m, rest)
  {
    var f := ModelFields(m) + rest;
    var f4 := [PrintMaybe(m.lastSeen)] + rest;
    var f3 := ListFields(m.capabilities) + f4;
    var f2 := ListFields(m.aliases) + f3;
    var f1 := ListFields(m.endpointIds) + f2;
    assert f == [m.name, m.kind, m.family, m.size, m.params, m.quant] + (ListFields(m.endpoints) + f1);
    assert From(f, 6) == ListFields(m.endpoints) + f1;
    TakesList(m.endpoints, f1);
    TakesList(m.endpointIds, f2);
    TakesList(m.aliases, f3);
    TakesList(m.capabilities, f4);
    assert From(f4, 1) == rest;
    ParseMaybeInvertsPrint(m.lastSeen);
  }

  lemma {:induction false} TakesModels(models: seq<ModelRecord>, rest: seq<string>)
    requires ModelsOk(models)
    ensures TakeModels(|models|, ModelsFields(models) + rest) == (models, rest)
  {
    if models == [] {
      assert ModelsFields(models) + rest == rest;
    } else {
      var after := ModelsFields(models[1..]) + rest;
      Assoc(ModelFields(models[0]), ModelsFields(models[1..]), rest);
      TakesModel(models[0], after);
      TakesModels(models[1..], rest);
      assert [models[0]] + models[1..] == models;
    }
  }

  lemma TakesGroup(g: Group, rest: seq<string>)
    requires NoneEmpty(g.endpoints) && ModelsOk(g.models)
    ensures TakeGroup(|g.models|, GroupFields(g) + rest) == (g, rest)
  {
    var f1 := ModelsFields(g.models) + rest;
    var f := GroupFields(g) + rest;
    assert f == [g.family, Print(g.count)] + (ListFields(g.endpoints) + f1);
    assert From(f, 2) == ListFields(g.endpoints) + f1;
    TakesList(g.endpoints, f1);
    TakesModels(g.models, rest);
    ParseInvertsPrint(g.count);
  }

  lemma {:induction false} TakesGroups(groups: seq<Group>, rest: seq<string>)
    requires forall g :: g in groups ==> NoneEmpty(g.endpoints) && ModelsOk(g.models)
    ensures TakeGroups(Sizes(groups), GroupsFields(groups) + rest) == (groups, rest)
  {
    if groups == [] {
      assert GroupsFields(groups) + rest == rest;
    } else {
      var after := GroupsFields(groups[1..]) + rest;
      Assoc(GroupFields(groups[0]), GroupsFields(groups[1..]), rest);
      TakesGroup(groups[0], after);
      TakesGroups(groups[1..], rest);
      TakesOneMore(groups[0], groups[1..], GroupsFields(groups) + rest, after, rest);
      assert [groups[0]] + groups[1..] == groups;
    }
  }

  lemma TakesOneMore(g: Group, groups: seq<Group>, f: seq<string>, after: seq<string>, rest: seq<string>)
    requires TakeGroup(|g.models|, f) == (g, after) && TakeGroups(Sizes(groups), after) == (groups, rest)
    ensures TakeGroups([|g.models|] + Sizes(groups), f) == ([g] + groups, rest)
  {
    assert ([|g.models|] + Sizes(groups))[1..] == Sizes(groups);
  }

  lemma TakesFamily(family: (string, seq<string>), rest: seq<string>)
    requires NoneEmpty(family.1)
    ensures TakeFamily(FamilyFields(family) + rest) == (family, rest)
  {
    Assoc([family.0], ListFields(family.1), rest);
    assert From(FamilyFields(family) + rest, 1) == ListFields(family.1) + rest;
    TakesList(family.1, rest);
  }

  lemma {:induction false} TakesFamilies(families: seq<(string, seq<string>)>, rest: seq<string>)
    requires forall f :: f in families ==> NoneEmpty(f.1)
    ensures TakeFamilies(|families|, FamiliesFields(families) + rest) == (families, rest)
  {
    if families == [] {
      assert FamiliesFields(families) + rest == rest;
    } else {
      Assoc(FamilyFields(families[0]), FamiliesFields(families[1..]), rest);
      TakesFamily(families[0], FamiliesFields(families[1..]) + rest);
      TakesFamilies(families[1..], rest);
      assert [families[0]] + families[1..] == families;
    }
  }

  lemma ReadsFields(s: ModelStatus)
    requires ListsOk(s)
    ensures ReadFields(ShapeOf(s), ModelStatusFields(s)) == s
  {
    var f3 := TotalsFields(s);
    var f2 := GroupsFields(s.groups) + f3;
    var f1 := ModelsFields(s.recent) + f2;
    FieldsFromFront(s);
    TakesFamilies(s.families, f1);
    TakesModels(s.recent, f2);
    TakesGroups(s.groups, f3);
    ReadsParts(s, ModelStatusFields(s), f1, f2);
  }

  lemma ReadsParts(s: ModelStatus, f: seq<string>, f1: seq<string>, f2: seq<string>)
    requires TakeFamilies(|s.families|, f) == (s.families, f1)
    requires TakeModels(|s.recent|, f1) == (s.recent, f2)
    requires TakeGroups(ShapeOf(s).groups, f2) == (s.groups, TotalsFields(s))
    ensures ReadFields(ShapeOf(s), f) == s
  {
    ParseInvertsPrint(s.totalModels);
    ParseInvertsPrint(s.totalFamilies);
    ParseInvertsPrint(s.totalEndpoints);
  }

  lemma FieldsFromFront(s: ModelStatus)
    ensures ModelStatusFields(s)
            == FamiliesFields(s.families) + (ModelsFields(s.recent) + (GroupsFields(s.groups) + TotalsFields(s)))
  {
  }

  /** Given the shape, the bytes determine the payload, for strings without a NUL and lists
      without an empty string. */
  lemma ModelStatusRoundTrip(s: ModelStatus)
    requires AllNulFree(ModelStatusFields(s)) && ListsOk(s)
    ensures ReadModelStatus(ShapeOf(s), ModelStatusBytes(s)) == s
  {
    SplitInvertsJoin(ModelStatusFields(s));
    ReadsFields(s);
  }

  /** So two such payloads with the same bytes are equal unless their shapes differ. */
  lemma SameBytesSamePayloadIff(s: ModelStatus, t: ModelStatus)
    requires AllNulFree(ModelStatusFields(s)) && ListsOk(s)
    requires AllNulFree(ModelStatusFields(t)) && ListsOk(t)
    requires ModelStatusBytes(s) == ModelStatusBytes(t)
    ensures s == t <==> ShapeOf(s) == ShapeOf(t)
  {
    ModelStatusRoundTrip(s);
    ModelStatusRoundTrip(t);
  }

  const MODEL := ModelRecord("m", "llm", "f", "7B", "7", "q4", [], [], [], [], None)
  const GROUPED := ModelStatus([], [], [Group("f", 1, [], [MODEL])], 1, 1, 1)
  const LOOKALIKE := ModelRecord("f", "1", "", "m", "llm", "f", ["7B", "7", "q4"], [], [], [], None)
  const RECENT := ModelStatus([], [LOOKALIKE], [], 1, 1, 1)

  /** The shapes can differ: a group with one model has the bytes of a recent model. */
  lemma ShapesCollide()
    ensures AllNulFree(ModelStatusFields(GROUPED)) && ListsOk(GROUPED) && ListsOk(RECENT)
    ensures GROUPED != RECENT && ModelStatusBytes(GROUPED) == ModelStatusBytes(RECENT)
  {
    GroupedFields();
    RecentFields();
    PlainFields();
    PlainLists();
  }

  lemma PlainFields()
    ensures AllNulFree(SHARED)
  {
  }

  lemma PlainLists()
    ensures ListsOk(GROUPED) && ListsOk(RECENT)
  {
  }

  const SHARED := ["f", "1", "", "m", "llm", "f", "7B", "7", "q4", "", "", "", "", "", "1", "1", "1"]

  lemma GroupedModel()
    ensures ModelsFields([MODEL]) == ["m", "llm", "f", "7B", "7", "q4", "", "", "", "", ""]
  {
    assert ModelFields(MODEL) == ["m", "llm", "f", "7B", "7", "q4", "", "", "", "", ""];
    assert [MODEL][1..] == [] && ModelsFields([MODEL]) == ModelFields(MODEL) + [];
  }

  lemma GroupedFields()
    ensures ModelStatusFields(GROUPED) == SHARED
  {
    var groups := GROUPED.groups;
    GroupedModel();
    assert Print(1) == "1";
    assert GroupFields(groups[0]) == ["f", "1", ""] + ModelsFields([MODEL]);
    assert groups[1..] == [] && GroupsFields(groups) == GroupFields(groups[0]) + [];
  }

  lemma RecentFields()
    ensures ModelStatusFields(RECENT) == SHARED
  {
    assert [LOOKALIKE][1..] == [];
    assert ModelFields(LOOKALIKE) == ["f", "1", "", "m", "llm", "f", "7B", "7", "q4", "", "", "", "", ""];
    assert ModelsFields([LOOKALIKE]) == ModelFields(LOOKALIKE) + [];
    assert Print(1) == "1";
  }

  /** Nor can an empty string in a list be told from the end of the list. */
  lemma EmptyElementsCollide(m: ModelRecord)
    ensures ModelFields(m.(endpoints := [""], endpointIds := [])) == ModelFields(m.(endpoints := [], endpointIds := [""]))
  {
    assert ListFields([""]) + ListFields([]) == ListFields([]) + ListFields([""]);
    var head := [m.name, m.kind, m.family, m.size, m.params, m.quant];
    assert (head + ListFields([""])) + ListFields([]) == (head + ListFields([])) + ListFields([""]);
  }
}
