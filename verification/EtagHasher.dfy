/** The hashing functions write field after field to a hasher; the bytes written are those
    of modules Etag and EtagModels. */
module EtagHasher {

  import opened Wrappers
  import opened Etag
  import opened EtagModels

  function PrintAll(l: seq<int>): (r: seq<string>)
    ensures |r| == |l| && forall i :: 0 <= i < |l| ==> r[i] == Print(l[i])
  {
    seq(|l|, i requires 0 <= i < |l| => Print(l[i]))
  }

  /** The bytes that have reached the hash, and the fields they spell. */
  class Hasher {
    var written: string
    ghost var fields: seq<string>

    ghost predicate Valid()
      reads this
    {
      written == Join(fields)
    }

    constructor ()
      ensures Valid() && fields == []
    {
      written, fields := "", [];
    }

    method WriteSeparator()
      requires Valid()
      modifies this
      ensures Valid() && fields == old(fields) + [""]
    {
      JoinNext(fields, "");
      written := written + [NUL];
      fields := fields + [""];
    }

    method WriteString(s: string)
      requires Valid()
      modifies this
      ensures Valid() && fields == old(fields) + [s]
    {
      JoinNext(fields, s);
      written := written + s;
      written := written + [NUL];
      fields := fields + [s];
    }

    method WriteInt64(v: int)
      requires Valid()
      modifies this
      ensures Valid() && fields == old(fields) + [Print(v)]
    {
      WriteString(Print(v));
    }

    /** An absent integer or an unset time. */
    method WriteMaybe(v: Option<int>)
      requires Valid()
      modifies this
      ensures Valid() && fields == old(fields) + [PrintMaybe(v)]
    {
      if v.None? {
        WriteSeparator();
      } else {
        WriteInt64(v.value);
      }
    }

    /** Several string fields in a row. */
    method WriteStrings(l: seq<string>)
      requires Valid()
      modifies this
      ensures Valid() && fields == old(fields) + l
    {
      for i := 0 to |l|
        invariant Valid() && fields == old(fields) + l[..i]
      {
        WriteString(l[i]);
      }
    }

    /** Several integer fields in a row. */
    method WriteInts(l: seq<int>)
      requires Valid()
      modifies this
      ensures Valid() && fields == old(fields) + PrintAll(l)
    {
      WriteStrings(PrintAll(l));
    }

    /** The strings of a list, closed by a bare separator. */
    method WriteStringSlice(l: seq<string>)
      requires Valid()
      modifies this
      ensures Valid() && fields == old(fields) + ListFields(l)
    {
      WriteStrings(l);
      WriteSeparator();
    }
  }

  method HashEndpointResponse(h: Hasher, e: EndpointRecord)
    requires h.Valid()
    modifies h
    ensures h.Valid() && h.fields == old(h.fields) + EndpointFields(e)
  {
    EndpointParts(old(h.fields), e);
    h.WriteStrings([e.id, e.name, e.status, e.url, e.successRate, e.avgLatency, e.traffic, e.issues]);
    h.WriteInts([e.priority, e.connections, e.requests, e.minLatencyMs, e.maxLatencyMs]);
    h.WriteMaybe(e.avgLatencyMs);
    h.WriteMaybe(e.modelsUpdated);
    h.WriteInt64(e.modelCount);
  }

  lemma EndpointParts(before: seq<string>, e: EndpointRecord)
    ensures before + EndpointFields(e)
         == before + [e.id, e.name, e.status, e.url, e.successRate, e.avgLatency, e.traffic, e.issues]
            + PrintAll([e.priority, e.connections, e.requests, e.minLatencyMs, e.maxLatencyMs])
            + [PrintMaybe(e.avgLatencyMs)] + [PrintMaybe(e.modelsUpdated)] + [Print(e.modelCount)]
  {
    var ints := [e.priority, e.connections, e.requests, e.minLatencyMs, e.maxLatencyMs];
    assert PrintAll(ints)
        == [Print(e.priority), Print(e.connections), Print(e.requests), Print(e.minLatencyMs), Print(e.maxLatencyMs)];
  }

  method HashEndpoints(h: Hasher, endpoints: seq<EndpointRecord>)
    requires h.Valid()
    modifies h
    ensures h.Valid() && h.fields == old(h.fields) + EndpointsFields(endpoints)
  {
    ghost var records := EndpointRecords(endpoints);
    for i := 0 to |endpoints|
      invariant h.Valid() && h.fields == old(h.fields) + Flatten(records[..i])
    {
      FlattenNext(records, i);
      Assoc(old(h.fields), Flatten(records[..i]), records[i]);
      HashEndpointResponse(h, endpoints[i]);
    }
    assert records[..|endpoints|] == records;
  }

  method HashStatusResponse(s: Status) returns (bytes: string)
    ensures bytes == StatusBytes(s)
  {
    var h := new Hasher();
    HashHead(h, s);
    HashEndpoints(h, s.endpoints);
    bytes := h.written;
  }

  method HashHead(h: Hasher, s: Status)
    requires h.Valid() && h.fields == []
    modifies h
    ensures h.Valid() && h.fields == HeadFields(s)
  {
    h.WriteStrings([s.engine, s.profile, s.balancer]);
    h.WriteMaybe(s.startTime);
    h.WriteStrings([s.status, s.endpointsUp, s.successRate, s.avgLatency, s.totalTraffic, s.version, s.commit]);
    h.WriteInts([s.activeConnections, s.securityViolations, s.totalRequests, s.totalFailures]);
    h.WriteString(s.securityStatus);
    h.WriteInts([s.blockedIPs, s.rateLimits, s.sizeLimits]);
  }

  method HashEndpointSummary(h: Hasher, s: SummaryRecord)
    requires h.Valid()
    modifies h
    ensures h.Valid() && h.fields == old(h.fields) + SummaryFields(s)
  {
    h.WriteStrings([s.id, s.name, s.kind, s.status, s.url, s.successRate, s.responseTime, s.issues]);
    h.WriteInts([s.priority, s.modelCount, s.requestCount, s.minLatencyMs, s.maxLatencyMs, s.activeConnections]);
    h.WriteMaybe(s.avgLatencyMs);
  }

  method HashSummaries(h: Hasher, endpoints: seq<SummaryRecord>)
    requires h.Valid()
    modifies h
    ensures h.Valid() && h.fields == old(h.fields) + SummariesFields(endpoints)
  {
    ghost var records := SummaryRecords(endpoints);
    for i := 0 to |endpoints|
      invariant h.Valid() && h.fields == old(h.fields) + Flatten(records[..i])
    {
      FlattenNext(records, i);
      Assoc(old(h.fields), Flatten(records[..i]), records[i]);
      HashEndpointSummary(h, endpoints[i]);
    }
    assert records[..|endpoints|] == records;
  }

  method HashEndpointStatusResponse(s: EndpointStatus) returns (bytes: string)
    ensures bytes == EndpointStatusBytes(s)
  {
    var h := new Hasher();
    HashSummaries(h, s.endpoints);
    h.WriteInt64(s.total);
    h.WriteInt64(s.healthy);
    h.WriteInt64(s.routable);
    ThreeMore([], SummariesFields(s.endpoints), [], Print(s.total), Print(s.healthy), Print(s.routable));
    assert h.fields == EndpointStatusFields(s);
    bytes := h.written;
  }

  /** Three sections and three fields, written one after another. */
  lemma ThreeMore(a: seq<string>, b: seq<string>, c: seq<string>, x: string, y: string, z: string)
    ensures [] + a + b + c + [x] + [y] + [z] == a + b + c + [x, y, z]
    ensures [] + b == b && a + b + c == a + (b + c)
  {
  }

  method HashModelSummary(h: Hasher, m: ModelRecord)
    requires h.Valid()
    modifies h
    ensures h.Valid() && h.fields == old(h.fields) + ModelFields(m)
  {
    ModelParts(h.fields, m);
    h.WriteStrings([m.name, m.kind, m.family, m.size, m.params, m.quant]);
    h.WriteStringSlice(m.endpoints);
    h.WriteStringSlice(m.endpointIds);
    h.WriteStringSlice(m.aliases);
    h.WriteStringSlice(m.capabilities);
    h.WriteMaybe(m.lastSeen);
  }

  lemma ModelParts(before: seq<string>, m: ModelRecord)
    ensures before + ModelFields(m)
         == before + [m.name, m.kind, m.family, m.size, m.params, m.quant]
            + ListFields(m.endpoints) + ListFields(m.endpointIds) + ListFields(m.aliases) + ListFields(m.capabilities)
            + [PrintMaybe(m.lastSeen)]
  {
  }

  method HashModels(h: Hasher, models: seq<ModelRecord>)
    requires h.Valid()
    modifies h
    ensures h.Valid() && h.fields == old(h.fields) + ModelsFields(models)
  {
    for i := 0 to |models|
      invariant h.Valid() && h.fields + ModelsFields(models[i..]) == old(h.fields) + ModelsFields(models)
    {
      assert models[i..][1..] == models[i + 1..];
      Assoc(h.fields, ModelFields(models[i]), ModelsFields(models[i + 1..]));
      HashModelSummary(h, models[i]);
    }
    assert models[|models|..] == [];
  }

  method HashModelGroupSummary(h: Hasher, g: Group)
    requires h.Valid()
    modifies h
    ensures h.Valid()
    ensures h.fields == old(h.fields) + GroupFields(g)
  {
    GroupParts(h.fields, g);
    h.WriteString(g.family);
    h.WriteInt64(g.count);
    h.WriteStringSlice(g.endpoints);
    HashModels(h, g.models);
  }

  lemma GroupParts(before: seq<string>, g: Group)
    ensures before + GroupFields(g)
         == before + [g.family] + [Print(g.count)] + ListFields(g.endpoints) + ModelsFields(g.models)
  {
  }

  method HashFamilies(h: Hasher, families: seq<(string, seq<string>)>)
    requires h.Valid()
    modifies h
    ensures h.Valid() && h.fields == old(h.fields) + FamiliesFields(families)
  {
    for i := 0 to |families|
      invariant h.Valid() && h.fields + FamiliesFields(families[i..]) == old(h.fields) + FamiliesFields(families)
    {
      assert families[i..][1..] == families[i + 1..];
      h.WriteString(families[i].0);
      h.WriteStringSlice(families[i].1);
    }
    assert families[|families|..] == [];
  }

  method HashGroups(h: Hasher, groups: seq<Group>)
    requires h.Valid()
    modifies h
    ensures h.Valid() && h.fields == old(h.fields) + GroupsFields(groups)
  {
    for i := 0 to |groups|
      invariant h.Valid() && h.fields + GroupsFields(groups[i..]) == old(h.fields) + GroupsFields(groups)
    {
      assert groups[i..][1..] == groups[i + 1..];
      Assoc(h.fields, GroupFields(groups[i]), GroupsFields(groups[i + 1..]));
      HashModelGroupSummary(h, groups[i]);
    }
    assert groups[|groups|..] == [];
  }

  method HashModelStatusResponse(s: ModelStatus) returns (bytes: string)
    ensures bytes == ModelStatusBytes(s)
  {
    var h := new Hasher();
    HashFamilies(h, s.families);
    HashModels(h, s.recent);
    HashGroups(h, s.groups);
    h.WriteInt64(s.totalModels);
    h.WriteInt64(s.totalFamilies);
    h.WriteInt64(s.totalEndpoints);
    ThreeMore(FamiliesFields(s.families), ModelsFields(s.recent), GroupsFields(s.groups),
              Print(s.totalModels), Print(s.totalFamilies), Print(s.totalEndpoints));
    bytes := h.written;
  }
}
