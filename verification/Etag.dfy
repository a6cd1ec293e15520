/** The bytes that the status handlers feed to the hash behind an ETag: every field is
    followed by a NUL, integers are in base 10, an absent integer or time is a bare NUL.
    For each payload a reader that gets the fields back, where there can be one. */
module Etag {

  import opened Wrappers

  const NUL := '\0'

  // -------------------------------------------------------------------- frames

  predicate NulFree(s: string) {
    NUL !in s
  }

  predicate AllNulFree(fields: seq<string>) {
    forall f :: f in fields ==> NulFree(f)
  }

  function Join(fields: seq<string>): string {
    if fields == [] then "" else Join(fields[..|fields| - 1]) + fields[|fields| - 1] + [NUL]
  }

  /** The fields that are closed, and the one that is still open. */
  function Scan(bytes: string): (seq<string>, string) {
    if bytes == "" then ([], "")
    else
      var (closed, current) := Scan(bytes[..|bytes| - 1]);
      var c := bytes[|bytes| - 1];
      if c == NUL then (closed + [current], "") else (closed, current + [c])
  }

  function Split(bytes: string): seq<string> {
    Scan(bytes).0
  }

  lemma JoinNext(fields: seq<string>, f: string)
    ensures Join(fields + [f]) == Join(fields) + f + [NUL]
  {
    assert (fields + [f])[..|fields|] == fields;
  }

  lemma {:induction false} ScanText(bytes: string, s: string)
    requires NulFree(s)
    ensures Scan(bytes + s) == (Scan(bytes).0, Scan(bytes).1 + s)
  {
    if s == "" {
      assert bytes + s == bytes && Scan(bytes).1 + s == Scan(bytes).1;
    } else {
      var n := |s| - 1;
      ScanText(bytes, s[..n]);
      var whole := bytes + s;
      assert whole[..|whole| - 1] == bytes + s[..n] && whole[|whole| - 1] == s[n] && s[n] in s;
      assert s[..n] + [s[n]] == s;
      assert Scan(bytes).1 + s == Scan(bytes).1 + s[..n] + [s[n]];
    }
  }

  lemma {:induction false} ScanJoin(fields: seq<string>)
    requires AllNulFree(fields)
    ensures Scan(Join(fields)) == (fields, "")
  {
    if fields != [] {
      var n := |fields| - 1;
      ScanJoin(fields[..n]);
      var before := Join(fields[..n]);
      ScanText(before, fields[n]);
      var bytes := Join(fields);
      assert bytes[..|bytes| - 1] == before + fields[n] && bytes[|bytes| - 1] == NUL;
      assert "" + fields[n] == fields[n];
      assert fields == fields[..n] + [fields[n]];
    }
  }

  /** Fields without a NUL can be read back from the bytes. */
  lemma SplitInvertsJoin(fields: seq<string>)
    requires AllNulFree(fields)
    ensures Split(Join(fields)) == fields
  {
    ScanJoin(fields);
  }

  function CountNuls(s: string): nat {
    if s == "" then 0 else CountNuls(s[..|s| - 1]) + if s[|s| - 1] == NUL then 1 else 0
  }

  lemma {:induction false} NulsOfBoth(a: string, b: string)
    ensures CountNuls(a + b) == CountNuls(a) + CountNuls(b)
  {
    if b == "" {
      assert a + b == a;
    } else {
      NulsOfBoth(a, b[..|b| - 1]);
      assert (a + b)[..|a + b| - 1] == a + b[..|b| - 1];
    }
  }

  lemma {:induction false} NoNuls(s: string)
    ensures CountNuls(s) == 0 <==> NulFree(s)
  {
    if s != "" {
      NoNuls(s[..|s| - 1]);
      assert s == s[..|s| - 1] + [s[|s| - 1]];
    }
  }

  lemma {:induction false} NulsOfJoin(fields: seq<string>)
    ensures CountNuls(Join(fields)) >= |fields|
    ensures CountNuls(Join(fields)) == |fields| <==> AllNulFree(fields)
  {
    if fields != [] {
      var before, last := fields[..|fields| - 1], fields[|fields| - 1];
      assert fields == before + [last];
      NulsOfJoin(before);
      NoNuls(last);
      NulsOfBoth(Join(before), last);
      NulsOfBoth(Join(before) + last, [NUL]);
      assert [NUL][..0] == "" && CountNuls([NUL]) == 1;
    }
  }

  lemma {:induction false} FieldsRead(bytes: string)
    ensures |Split(bytes)| == CountNuls(bytes)
  {
    if bytes != "" {
      FieldsRead(bytes[..|bytes| - 1]);
    }
  }

  /** The fields can be read back from the bytes if and only if none holds a NUL. */
  lemma SplitInvertsJoinIff(fields: seq<string>)
    ensures Split(Join(fields)) == fields <==> AllNulFree(fields)
  {
    NulsOfJoin(fields);
    FieldsRead(Join(fields));
    if AllNulFree(fields) {
      SplitInvertsJoin(fields);
    }
  }

  // ------------------------------------------------------------------ integers

  function Digits(n: nat): string {
    var digit := ['0' + (n % 10) as char];
    if n < 10 then digit else Digits(n / 10) + digit
  }

  function Print(v: int): string {
    if v < 0 then "-" + Digits(-v) else Digits(v)
  }

  function ParseDigits(s: string): int {
    if s == "" then 0 else ParseDigits(s[..|s| - 1]) * 10 + (s[|s| - 1] as int - '0' as int)
  }

  function Parse(s: string): int {
    if s != "" && s[0] == '-' then -ParseDigits(s[1..]) else ParseDigits(s)
  }

  /** A number takes at least one digit, and neither a sign nor a separator. */
  lemma {:induction false} DigitsArePlain(n: nat)
    ensures Digits(n) != "" && Digits(n)[0] != '-' && NulFree(Digits(n))
  {
    if n >= 10 {
      DigitsArePlain(n / 10);
    }
  }

  /** So an integer never breaks the framing, and is never taken for an absent one. */
  lemma IntegersAreFields(v: int)
    ensures Print(v) != "" && NulFree(Print(v))
  {
    DigitsArePlain(if v < 0 then -v else v);
  }

  lemma {:induction false} ParseInvertsDigits(n: nat)
    ensures ParseDigits(Digits(n)) == n
  {
    var s := Digits(n);
    if n < 10 {
      assert s[..|s| - 1] == "";
    } else {
      ParseInvertsDigits(n / 10);
      assert s[..|s| - 1] == Digits(n / 10);
    }
  }

  lemma ParseInvertsPrint(v: int)
    ensures Parse(Print(v)) == v
  {
    ParseInvertsDigits(if v < 0 then -v else v);
    DigitsArePlain(if v < 0 then -v else v);
  }

  function PrintMaybe(v: Option<int>): string {
    if v.None? then "" else Print(v.value)
  }

  function ParseMaybe(s: string): Option<int> {
    if s == "" then None else Some(Parse(s))
  }

  /** Absence differs from every integer, zero included. */
  lemma ParseMaybeInvertsPrint(v: Option<int>)
    ensures ParseMaybe(PrintMaybe(v)) == v
  {
    if v.Some? {
      ParseInvertsPrint(v.value);
      IntegersAreFields(v.value);
    }
  }

  // ----------------------------------------------------- records of equal size

  function Flatten(records: seq<seq<string>>): seq<string> {
    if records == [] then [] else Flatten(records[..|records| - 1]) + records[|records| - 1]
  }

  lemma FlattenNext(records: seq<seq<string>>, i: nat)
    requires i < |records|
    ensures Flatten(records[..i + 1]) == Flatten(records[..i]) + records[i]
  {
    assert records[..i + 1][..i] == records[..i];
  }

  /** The records of the given size, as many as there are. */
  function Chunks(size: nat, f: seq<string>): (r: seq<seq<string>>)
    requires size > 0
    ensures forall c :: c in r ==> |c| == size
  {
    if |f| < size then [] else Chunks(size, f[..|f| - size]) + [f[|f| - size..]]
  }

  lemma {:induction false} ChunksInvertFlatten(size: nat, records: seq<seq<string>>)
    requires size > 0 && forall r :: r in records ==> |r| == size
    ensures Chunks(size, Flatten(records)) == records
  {
    if records != [] {
      var before, last := records[..|records| - 1], records[|records| - 1];
      ChunksInvertFlatten(size, before);
      var f := Flatten(records);
      assert f[..|f| - size] == Flatten(before) && f[|f| - size..] == last;
      assert records == before + [last];
    }
  }

  // ------------------------------------------------------- the status payload

  /** The hashed fields of an endpoint; a time is an instant, or None for the zero time. */
  datatype EndpointRecord = EndpointRecord(
    id: string, name: string, status: string, url: string,
    successRate: string, avgLatency: string, traffic: string, issues: string,
    priority: int, connections: int, requests: int, minLatencyMs: int, maxLatencyMs: int,
    avgLatencyMs: Option<int>, modelsUpdated: Option<int>, modelCount: int)

  datatype Status = Status(
    engine: string, profile: string, balancer: string, startTime: Option<int>,
    status: string, endpointsUp: string, successRate: string, avgLatency: string,
    totalTraffic: string, version: string, commit: string,
    activeConnections: int, securityViolations: int, totalRequests: int, totalFailures: int,
    securityStatus: string, blockedIPs: int, rateLimits: int, sizeLimits: int,
    endpoints: seq<EndpointRecord>)

  const ENDPOINT_FIELDS := 16
  const STATUS_FIELDS := 19

  function EndpointFields(e: EndpointRecord): (r: seq<string>)
    ensures |r| == ENDPOINT_FIELDS
  {
    [e.id, e.name, e.status, e.url, e.successRate, e.avgLatency, e.traffic, e.issues,
     Print(e.priority), Print(e.connections), Print(e.requests), Print(e.minLatencyMs), Print(e.maxLatencyMs),
     PrintMaybe(e.avgLatencyMs), PrintMaybe(e.modelsUpdated), Print(e.modelCount)]
  }

  function ReadEndpoint(f: seq<string>): EndpointRecord
    requires |f| == ENDPOINT_FIELDS
  {
    EndpointRecord(f[0], f[1], f[2], f[3], f[4], f[5], f[6], f[7],
                   Parse(f[8]), Parse(f[9]), Parse(f[10]), Parse(f[11]), Parse(f[12]),
                   ParseMaybe(f[13]), ParseMaybe(f[14]), Parse(f[15]))
  }

  function EndpointRecords(endpoints: seq<EndpointRecord>): (r: seq<seq<string>>)
    ensures |r| == |endpoints| && forall i :: 0 <= i < |r| ==> r[i] == EndpointFields(endpoints[i])
  {
    seq(|endpoints|, i requires 0 <= i < |endpoints| => EndpointFields(endpoints[i]))
  }

  function EndpointsFields(endpoints: seq<EndpointRecord>): seq<string> {
    Flatten(EndpointRecords(endpoints))
  }

  function ReadEndpoints(f: seq<string>): seq<EndpointRecord> {
    var records := Chunks(ENDPOINT_FIELDS, f);
    seq(|records|, i requires 0 <= i < |records| => ReadEndpoint(records[i]))
  }

  function HeadFields(s: Status): (r: seq<string>)
    ensures |r| == STATUS_FIELDS
  {
    [s.engine, s.profile, s.balancer, PrintMaybe(s.startTime),
     s.status, s.endpointsUp, s.successRate, s.avgLatency, s.totalTraffic, s.version, s.commit,
     Print(s.activeConnections), Print(s.securityViolations), Print(s.totalRequests), Print(s.totalFailures),
     s.securityStatus, Print(s.blockedIPs), Print(s.rateLimits), Print(s.sizeLimits)]
  }

  function ReadHead(f: seq<string>, endpoints: seq<EndpointRecord>): Status
    requires |f| == STATUS_FIELDS
  {
    Status(f[0], f[1], f[2], ParseMaybe(f[3]), f[4], f[5], f[6], f[7], f[8], f[9], f[10],
           Parse(f[11]), Parse(f[12]), Parse(f[13]), Parse(f[14]), f[15], Parse(f[16]), Parse(f[17]), Parse(f[18]), endpoints)
  }

  function StatusFields(s: Status): seq<string> {
    HeadFields(s) + EndpointsFields(s.endpoints)
  }

  function StatusBytes(s: Status): string {
    Join(StatusFields(s))
  }

  function ReadStatus(bytes: string): Option<Status> {
    var f := Split(bytes);
    if |f| < STATUS_FIELDS then None
    else Some(ReadHead(f[..STATUS_FIELDS], ReadEndpoints(f[STATUS_FIELDS..])))
  }

  lemma ReadInvertsEndpoint(e: EndpointRecord)
    ensures ReadEndpoint(EndpointFields(e)) == e
  {
    ParseInvertsPrint(e.priority);
    ParseInvertsPrint(e.connections);
    ParseInvertsPrint(e.requests);
    ParseInvertsPrint(e.minLatencyMs);
    ParseInvertsPrint(e.maxLatencyMs);
    ParseMaybeInvertsPrint(e.avgLatencyMs);
    ParseMaybeInvertsPrint(e.modelsUpdated);
    ParseInvertsPrint(e.modelCount);
  }

  lemma ReadInvertsEndpoints(endpoints: seq<EndpointRecord>)
    ensures ReadEndpoints(EndpointsFields(endpoints)) == endpoints
  {
    ChunksInvertFlatten(ENDPOINT_FIELDS, EndpointRecords(endpoints));
    forall i | 0 <= i < |endpoints| ensures ReadEndpoints(EndpointsFields(endpoints))[i] == endpoints[i] {
      ReadInvertsEndpoint(endpoints[i]);
    }
  }

  lemma ReadInvertsHead(s: Status)
    ensures ReadHead(HeadFields(s), s.endpoints) == s
  {
    ParseMaybeInvertsPrint(s.startTime);
    ParseInvertsPrint(s.activeConnections);
    ParseInvertsPrint(s.securityViolations);
    ParseInvertsPrint(s.totalRequests);
    ParseInvertsPrint(s.totalFailures);
    ParseInvertsPrint(s.blockedIPs);
    ParseInvertsPrint(s.rateLimits);
    ParseInvertsPrint(s.sizeLimits);
  }

  /** For strings without a NUL the bytes determine every hashed field of the payload,
      whatever the number of endpoints. */
  lemma StatusRoundTrip(s: Status)
    requires AllNulFree(StatusFields(s))
    ensures ReadStatus(StatusBytes(s)) == Some(s)
  {
    SplitInvertsJoin(StatusFields(s));
    ReadInvertsEndpoints(s.endpoints);
    ReadInvertsHead(s);
    var f := StatusFields(s);
    assert f[..STATUS_FIELDS] == HeadFields(s) && f[STATUS_FIELDS..] == EndpointsFields(s.endpoints);
  }

  lemma StatusIsUnique(s: Status, t: Status)
    requires AllNulFree(StatusFields(s)) && AllNulFree(StatusFields(t))
    ensures StatusBytes(s) == StatusBytes(t) <==> s == t
  {
    StatusRoundTrip(s);
    StatusRoundTrip(t);
  }

  /** With a NUL inside a string it fails: the string can reach over the next separator. */
  lemma NulMovesTheBoundary(s: Status, a: string, b: string, c: string)
    ensures StatusBytes(s.(engine := a + [NUL] + b, profile := c)) == StatusBytes(s.(engine := a, profile := b + [NUL] + c))
  {
    StatusTail(s, a + [NUL] + b, c);
    StatusTail(s, a, b + [NUL] + c);
    ShiftedPair(a, b, c, HeadFields(s)[2..] + EndpointsFields(s.endpoints));
  }

  lemma StatusTail(s: Status, engine: string, profile: string)
    ensures StatusFields(s.(engine := engine, profile := profile))
            == [engine, profile] + (HeadFields(s)[2..] + EndpointsFields(s.endpoints))
  {
    HeadTail(s, engine, profile);
    Assoc([engine, profile], HeadFields(s)[2..], EndpointsFields(s.endpoints));
  }

  lemma HeadTail(s: Status, engine: string, profile: string)
    ensures HeadFields(s.(engine := engine, profile := profile)) == [engine, profile] + HeadFields(s)[2..]
  {
  }

  lemma Assoc(a: seq<string>, b: seq<string>, c: seq<string>)
    ensures (a + b) + c == a + (b + c)
  {
  }

  lemma ShiftedPair(a: string, b: string, c: string, tail: seq<string>)
    ensures Join([a + [NUL] + b, c] + tail) == Join([a, b + [NUL] + c] + tail)
  {
    JoinPair(a + [NUL] + b, c);
    JoinPair(a, b + [NUL] + c);
    JoinAppend([a + [NUL] + b, c], tail);
    JoinAppend([a, b + [NUL] + c], tail);
    assert a + [NUL] + b + [NUL] + c + [NUL] == a + [NUL] + (b + [NUL] + c) + [NUL];
  }

  lemma JoinPair(a: string, b: string)
    ensures Join([a, b]) == a + [NUL] + b + [NUL]
  {
    assert [a, b] == [a] + [b] && [a] == [] + [a];
    JoinNext([a], b);
    JoinNext([], a);
  }

  lemma {:induction false} JoinAppend(a: seq<string>, b: seq<string>)
    ensures Join(a + b) == Join(a) + Join(b)
  {
    if b == [] {
      assert a + b == a;
    } else {
      var before, last := b[..|b| - 1], b[|b| - 1];
      JoinAppend(a, before);
      assert b == before + [last] && a + b == (a + before) + [last];
      JoinNext(a + before, last);
      JoinNext(before, last);
      CloseBoth(Join(a), Join(before), last);
    }
  }

  lemma CloseBoth(a: string, b: string, last: string)
    ensures (a + b) + last + [NUL] == a + (b + last + [NUL])
  {
  }

  // ---------------------------------------------------- the endpoints payload

  datatype SummaryRecord = SummaryRecord(
    id: string, name: string, kind: string, status: string, url: string,
    successRate: string, responseTime: string, issues: string,
    priority: int, modelCount: int, requestCount: int, minLatencyMs: int, maxLatencyMs: int,
    activeConnections: int, avgLatencyMs: Option<int>)

  datatype EndpointStatus = EndpointStatus(endpoints: seq<SummaryRecord>, total: int, healthy: int, routable: int)

  const SUMMARY_FIELDS := 15

  function SummaryFields(s: SummaryRecord): (r: seq<string>)
    ensures |r| == SUMMARY_FIELDS
  {
    [s.id, s.name, s.kind, s.status, s.url, s.successRate, s.responseTime, s.issues,
     Print(s.priority), Print(s.modelCount), Print(s.requestCount), Print(s.minLatencyMs), Print(s.maxLatencyMs),
     Print(s.activeConnections), PrintMaybe(s.avgLatencyMs)]
  }

  function ReadSummary(f: seq<string>): SummaryRecord
    requires |f| == SUMMARY_FIELDS
  {
    SummaryRecord(f[0], f[1], f[2], f[3], f[4], f[5], f[6], f[7],
                  Parse(f[8]), Parse(f[9]), Parse(f[10]), Parse(f[11]), Parse(f[12]), Parse(f[13]), ParseMaybe(f[14]))
  }

  function SummaryRecords(endpoints: seq<SummaryRecord>): (r: seq<seq<string>>)
    ensures |r| == |endpoints| && forall i :: 0 <= i < |r| ==> r[i] == SummaryFields(endpoints[i])
  {
    seq(|endpoints|, i requires 0 <= i < |endpoints| => SummaryFields(endpoints[i]))
  }

  function SummariesFields(endpoints: seq<SummaryRecord>): seq<string> {
    Flatten(SummaryRecords(endpoints))
  }

  function ReadSummaries(f: seq<string>): seq<SummaryRecord> {
    var records := Chunks(SUMMARY_FIELDS, f);
    seq(|records|, i requires 0 <= i < |records| => ReadSummary(records[i]))
  }

  function EndpointStatusFields(s: EndpointStatus): seq<string> {
    SummariesFields(s.endpoints) + [Print(s.total), Print(s.healthy), Print(s.routable)]
  }

  function EndpointStatusBytes(s: EndpointStatus): string {
    Join(EndpointStatusFields(s))
  }

  function ReadEndpointStatus(bytes: string): Option<EndpointStatus> {
    var f := Split(bytes);
    var n := |f| - 3;
    if n < 0 then None else Some(EndpointStatus(ReadSummaries(f[..n]), Parse(f[n]), Parse(f[n + 1]), Parse(f[n + 2])))
  }

  lemma ReadInvertsSummary(s: SummaryRecord)
    ensures ReadSummary(SummaryFields(s)) == s
  {
    ParseInvertsPrint(s.priority);
    ParseInvertsPrint(s.modelCount);
    ParseInvertsPrint(s.requestCount);
    ParseInvertsPrint(s.minLatencyMs);
    ParseInvertsPrint(s.maxLatencyMs);
    ParseInvertsPrint(s.activeConnections);
    ParseMaybeInvertsPrint(s.avgLatencyMs);
  }

  lemma ReadInvertsSummaries(endpoints: seq<SummaryRecord>)
    ensures ReadSummaries(SummariesFields(endpoints)) == endpoints
  {
    ChunksInvertFlatten(SUMMARY_FIELDS, SummaryRecords(endpoints));
    forall i | 0 <= i < |endpoints| ensures ReadSummaries(SummariesFields(endpoints))[i] == endpoints[i] {
      ReadInvertsSummary(endpoints[i]);
    }
  }

  lemma EndpointStatusRoundTrip(s: EndpointStatus)
    requires AllNulFree(EndpointStatusFields(s))
    ensures ReadEndpointStatus(EndpointStatusBytes(s)) == Some(s)
  {
    var f := EndpointStatusFields(s);
    SplitInvertsJoin(f);
    ReadInvertsSummaries(s.endpoints);
    assert f[..|f| - 3] == SummariesFields(s.endpoints);
    ParseInvertsPrint(s.total);
    ParseInvertsPrint(s.healthy);
    ParseInvertsPrint(s.routable);
  }

  lemma EndpointStatusIsUnique(s: EndpointStatus, t: EndpointStatus)
    requires AllNulFree(EndpointStatusFields(s)) && AllNulFree(EndpointStatusFields(t))
    ensures EndpointStatusBytes(s) == EndpointStatusBytes(t) <==> s == t
  {
    EndpointStatusRoundTrip(s);
    EndpointStatusRoundTrip(t);
  }
}
