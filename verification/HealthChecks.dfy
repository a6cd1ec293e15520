/** What one health check does to an endpoint: its status, its backoff and the callbacks,
    and what that amounts to over runs of checks. */
module HealthChecks {

  import opened Wrappers
  import R = Resilience

  type Status = R.Status

  const HEALTHY: Status := R.Healthy

  predicate IsRoutable(s: Status)
    ensures IsRoutable(s) <==> s !in {R.Offline, R.Unhealthy, R.Unknown, R.ConfigError, R.RateLimited}
  {
    s == R.Healthy || s == R.Busy || s == R.Warming
  }

  // ---------------------------------------------------------- classification

  datatype ErrorType = NoError | Network | Timeout | CircuitOpenError | HttpError

  const SLOW := 10_000_000_000

  /** The status of a response, or of an error in place of one; times in nanoseconds. */
  function DetermineStatus(code: int, latency: int, failed: bool, errorType: ErrorType): Status {
    if failed then
      if errorType == Network || errorType == Timeout || errorType == CircuitOpenError then R.Offline else R.Unhealthy
    else if code == 401 || code == 403 then R.ConfigError
    else if code == 429 then R.RateLimited
    else if 200 <= code < 300 then
      if latency > SLOW then R.Busy else R.Healthy
    else if latency > SLOW then R.Busy
    else R.Unhealthy
  }

  /** The statuses partition the outcomes, for any client.  Every slow answer counts as busy unless it is
      about credentials or rates, an error code as much as a success; so what a probe tells
      the breaker is success if and only if the answer is slow or has a 2xx code. */
  lemma SlownessHidesErrors(code: int, latency: int, errorType: ErrorType)
    ensures var s := DetermineStatus(code, latency, false, errorType);
            && (s == R.ConfigError <==> code in {401, 403})
            && (s == R.RateLimited <==> code == 429)
            && (s == R.Busy <==> latency > SLOW && code !in {401, 403, 429})
            && (s == R.Healthy <==> latency <= SLOW && 200 <= code < 300)
            && (R.ReportOf(R.Checked(s)) == R.NoReport <==> code in {401, 403, 429})
            && (R.ReportOf(R.Checked(s)) == R.ReportSuccess
                <==> code !in {401, 403, 429} && (latency > SLOW || 200 <= code < 300))
    ensures var s := DetermineStatus(code, latency, true, errorType);
            s == if errorType in {Network, Timeout, CircuitOpenError} then R.Offline else R.Unhealthy
  {
  }

  /** The program's client gives up after five seconds, which is less than slow.  So no
      outcome of its probes is busy, and a response is unhealthy exactly for the codes that
      are neither a success nor about credentials or rates, as documented. */
  lemma NothingIsBusy(code: int, latency: int, failed: bool, errorType: ErrorType)
    requires latency <= R.CLIENT_TIMEOUT
    ensures var s := DetermineStatus(code, latency, failed, errorType);
            && s != R.Busy
            && (!failed ==> (s == R.Unhealthy <==> code !in {401, 403, 429} && !(200 <= code < 300)))
            && (!failed ==> (R.ReportOf(R.Checked(s)) == R.ReportFailure <==> s == R.Unhealthy))
  {
    SlownessHidesErrors(code, latency, errorType);
  }

  // ------------------------------------------------------------------ backoff

  datatype Limits = Limits(maxMultiplier: nat, maxWait: nat)

  const LIMITS := Limits(12, 60_000_000_000)

  datatype Endpoint = Endpoint(
    status: Status, multiplier: int, failures: nat, checkInterval: nat,
    lastChecked: int, lastLatency: int, rateLimitedUntil: Option<int>, nextCheck: int)

  datatype Probe = Probe(at: int, status: Status, latency: int, rateLimitedUntil: Option<int>)

  function Min(a: int, b: int): int {
    if a <= b then a else b
  }

  /** The wait until the next check and the multiplier to keep. */
  function CalculateBackoff(l: Limits, interval: nat, multiplier: int, success: bool): (int, int) {
    if success then (interval, 1)
    else if multiplier <= 1 then (interval, 2)
    else (Min(interval * multiplier, l.maxWait), Min(multiplier * 2, l.maxMultiplier))
  }

  function Checked(l: Limits, e: Endpoint, p: Probe): Endpoint {
    var success := p.status == HEALTHY;
    var (wait, multiplier) := CalculateBackoff(l, e.checkInterval, e.multiplier, success);
    Endpoint(p.status, multiplier, if success then 0 else e.failures + 1, e.checkInterval,
             p.at, p.latency, p.rateLimitedUntil, p.at + wait)
  }

  function Run(l: Limits, e: Endpoint, probes: seq<Probe>): Endpoint {
    if probes == [] then e else Checked(l, Run(l, e, probes[..|probes| - 1]), probes[|probes| - 1])
  }

  /** The length of the longest stretch of results at the end that are not healthy. */
  function Streak(probes: seq<Probe>): (k: nat)
    ensures k <= |probes|
    ensures forall i :: |probes| - k <= i < |probes| ==> probes[i].status != HEALTHY
    ensures k < |probes| ==> probes[|probes| - k - 1].status == HEALTHY
  {
    if probes == [] || probes[|probes| - 1].status == HEALTHY then 0 else Streak(probes[..|probes| - 1]) + 1
  }

  function Pow2(k: nat): nat {
    if k == 0 then 1 else 2 * Pow2(k - 1)
  }

  /** The wait after k results in a row that are not healthy. */
  function Wait(l: Limits, interval: nat, k: nat): int {
    if k <= 1 then interval else Min(interval * Min(Pow2(k - 1), l.maxMultiplier), l.maxWait)
  }

  /** After any run the backoff depends on the streak alone: the multiplier has doubled with
      each result up to its cap, and the wait is that of the multiplier before it. */
  lemma {:induction false} BackoffClosedForm(l: Limits, e: Endpoint, probes: seq<Probe>)
    requires l.maxMultiplier >= 2 && e.multiplier <= 1 && probes != []
    ensures var k := Streak(probes); var r := Run(l, e, probes);
            && r.multiplier == Min(Pow2(k), l.maxMultiplier)
            && r.nextCheck == probes[|probes| - 1].at + Wait(l, e.checkInterval, k)
            && r.failures == k + (if k == |probes| then e.failures else 0)
            && r.checkInterval == e.checkInterval
  {
    var before := probes[..|probes| - 1];
    PowGrows(Streak(before));
    if before != [] {
      BackoffClosedForm(l, e, before);
    }
  }

  lemma {:induction false} PowGrows(k: nat)
    ensures Pow2(k) >= 1 && (k >= 1 ==> Pow2(k) >= 2) && Pow2(k + 1) == 2 * Pow2(k)
  {
    if k > 0 {
      PowGrows(k - 1);
    }
  }

  /** Each wait is at least as long as the one before if and only if the interval is within
      the cap; the first wait is not capped. */
  lemma WaitsGrowIff(l: Limits, interval: nat)
    requires l.maxMultiplier >= 2
    ensures (forall k: nat :: k >= 1 ==> Wait(l, interval, k) <= Wait(l, interval, k + 1)) <==> interval <= l.maxWait
  {
    if interval <= l.maxWait {
      forall k: nat | k >= 1 ensures Wait(l, interval, k) <= Wait(l, interval, k + 1) {
        PowGrows(k - 1);
        PowGrows(k);
        ProductsGrow(interval, Min(Pow2(k - 1), l.maxMultiplier), Min(Pow2(k), l.maxMultiplier));
      }
    } else {
      assert Wait(l, interval, 2) == l.maxWait by {
        assert Pow2(1) == 2;
      }
      assert Wait(l, interval, 1) > Wait(l, interval, 1 + 1);
    }
  }

  lemma ProductsGrow(n: nat, a: int, b: int)
    requires 1 <= a <= b
    ensures n <= n * a <= n * b
  {
  }

  // ---------------------------------------------------------------- callbacks

  predicate Recovers(was: Status, now: Status) {
    was != now && now == HEALTHY && was != R.Unknown
  }

  predicate TurnsUnroutable(was: Status, now: Status) {
    was != now && !IsRoutable(now) && IsRoutable(was)
  }

  /** How often, in a run, a result meets the previous status so that a callback fires. */
  function Fired(fires: (Status, Status) -> bool, first: Status, results: seq<Status>): nat {
    if results == [] then 0
    else
      var n := |results| - 1;
      Fired(fires, first, results[..n]) + if fires(if n == 0 then first else results[n - 1], results[n]) then 1 else 0
  }

  /** From i up to j every status is in, the one before i is not, and neither is j: a block
      that the trace has completed. */
  predicate IsBlock(inside: Status -> bool, trace: seq<Status>, i: nat, j: nat) {
    && i < j < |trace|
    && (forall n :: i <= n < j ==> inside(trace[n]))
    && !inside(trace[j])
    && (i == 0 || !inside(trace[i - 1]))
  }

  function Blocks(inside: Status -> bool, trace: seq<Status>): set<(nat, nat)> {
    set i: nat, j: nat | 0 <= i < |trace| && 0 <= j < |trace| && IsBlock(inside, trace, i, j) :: (i, j)
  }

  /** Where the block that reaches the end of the trace starts. */
  function Start(inside: Status -> bool, trace: seq<Status>): (i: nat)
    requires trace != [] && inside(trace[|trace| - 1])
    ensures i < |trace| && (i == 0 || !inside(trace[i - 1]))
    ensures forall n :: i <= n < |trace| ==> inside(trace[n])
  {
    var n := |trace| - 1;
    if n == 0 || !inside(trace[n - 1]) then n else Start(inside, trace[..n])
  }

  lemma BlockStays(inside: Status -> bool, trace: seq<Status>, s: Status, i: nat, j: nat)
    requires j < |trace|
    ensures IsBlock(inside, trace + [s], i, j) <==> IsBlock(inside, trace, i, j)
  {
    var longer := trace + [s];
    assert longer[j] == trace[j];
    if i < j {
      assert forall n :: i <= n < j ==> longer[n] == trace[n];
      assert i > 0 ==> longer[i - 1] == trace[i - 1];
    }
  }

  lemma BlockAtEnd(inside: Status -> bool, trace: seq<Status>, s: Status, i: nat)
    ensures IsBlock(inside, trace + [s], i, |trace|)
            <==> trace != [] && inside(trace[|trace| - 1]) && !inside(s) && i == Start(inside, trace)
  {
    var n, longer := |trace|, trace + [s];
    assert longer[n] == s && forall k :: 0 <= k < n ==> longer[k] == trace[k];
    if i >= n || !inside(trace[n - 1]) {
      assert i < n ==> !inside(longer[n - 1]);
    } else {
      BlockStart(inside, trace, i);
      assert IsBlock(inside, longer, i, n)
        <==> (forall k :: i <= k < n ==> inside(trace[k])) && !inside(s) && (i == 0 || !inside(trace[i - 1]));
    }
  }

  lemma BlockStart(inside: Status -> bool, trace: seq<Status>, i: nat)
    requires i < |trace| && inside(trace[|trace| - 1])
    ensures (forall k :: i <= k < |trace| ==> inside(trace[k])) && (i == 0 || !inside(trace[i - 1]))
       <==> i == Start(inside, trace)
  {
    var start := Start(inside, trace);
    if i < start {
      assert !inside(trace[start - 1]);
    } else if start < i {
      assert inside(trace[i - 1]);
    }
  }

  lemma BlocksNext(inside: Status -> bool, trace: seq<Status>, s: Status)
    ensures |Blocks(inside, trace + [s])|
            == |Blocks(inside, trace)| + if trace != [] && inside(trace[|trace| - 1]) && !inside(s) then 1 else 0
  {
    var before, after := Blocks(inside, trace), Blocks(inside, trace + [s]);
    var n := |trace|;
    forall i: nat, j: nat | j < n ensures (i, j) in after <==> (i, j) in before {
      BlockStays(inside, trace, s, i, j);
    }
    forall i: nat ensures (i, n) in after <==> IsBlock(inside, trace + [s], i, n) {
    }
    if trace != [] && inside(trace[n - 1]) && !inside(s) {
      var start := Start(inside, trace);
      forall i: nat ensures (i, n) in after <==> i == start {
        BlockAtEnd(inside, trace, s, i);
      }
      OneMore(before, after, n, start);
    } else {
      forall i: nat ensures (i, n) !in after {
        BlockAtEnd(inside, trace, s, i);
      }
      assert after == before;
    }
  }

  lemma OneMore(before: set<(nat, nat)>, after: set<(nat, nat)>, n: nat, start: nat)
    requires forall i, j :: (i, j) in before ==> j < n
    requires forall i, j :: (i, j) in after ==> j <= n
    requires forall i: nat, j: nat :: j < n ==> ((i, j) in after <==> (i, j) in before)
    requires forall i: nat :: (i, n) in after <==> i == start
    ensures |after| == |before| + 1
  {
    forall p ensures p in after <==> p in before + {(start, n)} {
      assert p == (p.0, p.1);
    }
    assert after == before + {(start, n)};
  }

  const NotHealthy: Status -> bool := (s: Status) => s != HEALTHY
  const Routable: Status -> bool := (s: Status) => IsRoutable(s)
  const RECOVERY: (Status, Status) -> bool := (a: Status, b: Status) => Recovers(a, b)
  const LOSS: (Status, Status) -> bool := (a: Status, b: Status) => TurnsUnroutable(a, b)

  function Trace(first: Status, results: seq<Status>): seq<Status> {
    if first == R.Unknown then results else [first] + results
  }

  lemma TraceNext(first: Status, results: seq<Status>)
    requires R.Unknown !in results && results != []
    ensures var n := |results| - 1; var before := Trace(first, results[..n]);
            && Trace(first, results) == before + [results[n]]
            && (Recovers(if n == 0 then first else results[n - 1], results[n])
                <==> before != [] && before[|before| - 1] != HEALTHY && results[n] == HEALTHY)
  {
    var n := |results| - 1;
    assert results == results[..n] + [results[n]];
    if n > 0 {
      assert results[n - 1] in results && results[..n][n - 1] == results[n - 1];
    }
  }

  /** The recovery callbacks of a run are the completed blocks of statuses that are not
      healthy; an unknown first status belongs to no block. */
  lemma {:induction false} RecoveriesAreBlocks(first: Status, results: seq<Status>)
    requires R.Unknown !in results
    ensures Fired(RECOVERY, first, results) == |Blocks(NotHealthy, Trace(first, results))|
  {
    if results == [] {
      assert Blocks(NotHealthy, Trace(first, results)) == {};
    } else {
      var n := |results| - 1;
      RecoveriesAreBlocks(first, results[..n]);
      var before := Trace(first, results[..n]);
      TraceNext(first, results);
      BlocksNext(NotHealthy, before, results[n]);
    }
  }

  /** The unhealthy callbacks are the completed blocks of routable statuses: moving between
      healthy, busy and warming fires none. */
  lemma {:induction false} LossesAreBlocks(first: Status, results: seq<Status>)
    ensures Fired(LOSS, first, results) == |Blocks(Routable, [first] + results)|
  {
    if results == [] {
      assert Blocks(Routable, [first] + results) == {};
    } else {
      var n := |results| - 1;
      LossesAreBlocks(first, results[..n]);
      var before := [first] + results[..n];
      BlocksNext(Routable, before, results[n]);
      assert [first] + results == before + [results[n]];
    }
  }

  // ---------------------------------------------------- checks of a repository

  /** The repository of endpoints, and the callbacks triggered so far. */
  datatype Checker = Checker(repository: map<string, Endpoint>, recovered: seq<string>, lost: seq<string>)

  /** The check of an endpoint that was read earlier. */
  function CheckWith(c: Checker, url: string, e: Endpoint, p: Probe, updateFails: bool): Checker {
    if url !in c.repository || updateFails then c
    else
      Checker(c.repository[url := Checked(LIMITS, e, p)],
              c.recovered + if Recovers(e.status, p.status) then [url] else [],
              c.lost + if TurnsUnroutable(e.status, p.status) then [url] else [])
  }

  datatype Check = Check(url: string, probe: Probe, updateFails: bool)

  /** A check of the endpoint that the repository holds. */
  function CheckStored(c: Checker, k: Check): Checker {
    if k.url !in c.repository then c else CheckWith(c, k.url, c.repository[k.url], k.probe, k.updateFails)
  }

  function RunChecks(c: Checker, checks: seq<Check>): Checker {
    if checks == [] then c else CheckStored(RunChecks(c, checks[..|checks| - 1]), checks[|checks| - 1])
  }

  /** The probes of an endpoint that were stored. */
  function ProbesOf(checks: seq<Check>, url: string): seq<Probe> {
    if checks == [] then []
    else
      var last := checks[|checks| - 1];
      ProbesOf(checks[..|checks| - 1], url) + if last.url == url && !last.updateFails then [last.probe] else []
  }

  function Statuses(probes: seq<Probe>): (r: seq<Status>)
    ensures |r| == |probes| && forall i :: 0 <= i < |r| ==> r[i] == probes[i].status
  {
    seq(|probes|, i requires 0 <= i < |probes| => probes[i].status)
  }

  /** A stored check leaves the probe's own data in the entry. */
  lemma StoredIsProbe(l: Limits, e: Endpoint, p: Probe)
    ensures var r := Checked(l, e, p);
            && r.status == p.status && r.lastChecked == p.at && r.lastLatency == p.latency
            && r.rateLimitedUntil == p.rateLimitedUntil && r.checkInterval == e.checkInterval
            && (p.status == HEALTHY ==> r.failures == 0) && (p.status != HEALTHY ==> r.failures == e.failures + 1)
  {
  }

  lemma FiredNext(fires: (Status, Status) -> bool, first: Status, probes: seq<Probe>, p: Probe)
    ensures Fired(fires, first, Statuses(probes + [p]))
         == Fired(fires, first, Statuses(probes))
            + if fires(if probes == [] then first else probes[|probes| - 1].status, p.status) then 1 else 0
  {
    assert Statuses(probes + [p])[..|probes|] == Statuses(probes);
  }

  /** How often a URL is in a list. */
  function Times(l: seq<string>, url: string): nat {
    multiset(l)[url]
  }

  lemma CountOneMore(l: seq<string>, more: seq<string>, url: string)
    ensures Times(l + more, url) == Times(l, url) + Times(more, url)
  {
  }

  lemma CheckOfOne(c: Checker, k: Check, url: string)
    requires url in c.repository
    ensures var r, e := CheckStored(c, k), c.repository[url];
            && r.repository.Keys == c.repository.Keys
            && if k.url == url && !k.updateFails then
                 && r.repository[url] == Checked(LIMITS, e, k.probe)
                 && Times(r.recovered, url) == Times(c.recovered, url) + (if RECOVERY(e.status, k.probe.status) then 1 else 0)
                 && Times(r.lost, url) == Times(c.lost, url) + (if LOSS(e.status, k.probe.status) then 1 else 0)
               else
                 && r.repository[url] == e
                 && Times(r.recovered, url) == Times(c.recovered, url) && Times(r.lost, url) == Times(c.lost, url)
  {
    if k.url in c.repository && !k.updateFails {
      var was := c.repository[k.url].status;
      CountOneMore(c.recovered, if Recovers(was, k.probe.status) then [k.url] else [], url);
      CountOneMore(c.lost, if TurnsUnroutable(was, k.probe.status) then [k.url] else [], url);
    }
  }

  /** r is what some checks have made of c: an endpoint's entry and its callbacks are those
      of its own stored probes. */
  ghost predicate Follows(c: Checker, r: Checker, probes: seq<Probe>, url: string)
    requires url in c.repository
  {
    var e := c.repository[url];
    && r.repository.Keys == c.repository.Keys
    && r.repository[url] == Run(LIMITS, e, probes)
    && r.repository[url].status == (if probes == [] then e.status else probes[|probes| - 1].status)
    && Times(r.recovered, url) == Times(c.recovered, url) + Fired(RECOVERY, e.status, Statuses(probes))
    && Times(r.lost, url) == Times(c.lost, url) + Fired(LOSS, e.status, Statuses(probes))
  }

  lemma FollowsNext(c: Checker, r: Checker, probes: seq<Probe>, url: string, k: Check)
    requires url in c.repository && Follows(c, r, probes, url)
    ensures Follows(c, CheckStored(r, k), probes + if k.url == url && !k.updateFails then [k.probe] else [], url)
  {
    CheckOfOne(r, k, url);
    if k.url == url && !k.updateFails {
      ProbesNext(c.repository[url], probes, k.probe);
    } else {
      assert probes + [] == probes;
    }
  }

  lemma {:induction false} ChecksAreIndependent(c: Checker, checks: seq<Check>, url: string)
    requires url in c.repository
    ensures Follows(c, RunChecks(c, checks), ProbesOf(checks, url), url)
  {
    if checks != [] {
      ChecksAreIndependent(c, checks[..|checks| - 1], url);
      FollowsNext(c, RunChecks(c, checks[..|checks| - 1]), ProbesOf(checks[..|checks| - 1], url), url, checks[|checks| - 1]);
    }
  }

  lemma ProbesNext(e: Endpoint, probes: seq<Probe>, p: Probe)
    ensures Run(LIMITS, e, probes + [p]) == Checked(LIMITS, Run(LIMITS, e, probes), p)
    ensures Run(LIMITS, e, probes + [p]).status == p.status
    ensures var was := if probes == [] then e.status else probes[|probes| - 1].status;
            && Fired(RECOVERY, e.status, Statuses(probes + [p]))
               == Fired(RECOVERY, e.status, Statuses(probes)) + (if RECOVERY(was, p.status) then 1 else 0)
            && Fired(LOSS, e.status, Statuses(probes + [p]))
               == Fired(LOSS, e.status, Statuses(probes)) + (if LOSS(was, p.status) then 1 else 0)
  {
    assert (probes + [p])[..|probes|] == probes;
    StoredIsProbe(LIMITS, Run(LIMITS, e, probes), p);
    FiredNext(RECOVERY, e.status, probes, p);
    FiredNext(LOSS, e.status, probes, p);
  }

  /** The repository shows the endpoint as its last stored probe found it, and the callbacks
      for it are the completed blocks of its statuses. */
  ghost predicate Shows(first: Status, r: Checker, probes: seq<Probe>, url: string)
    requires probes != []
  {
    var last := probes[|probes| - 1];
    && url in r.repository
    && r.repository[url].status == last.status && r.repository[url].lastChecked == last.at
    && r.repository[url].lastLatency == last.latency && r.repository[url].rateLimitedUntil == last.rateLimitedUntil
    && Times(r.recovered, url) == |Blocks(NotHealthy, Trace(first, Statuses(probes)))|
    && Times(r.lost, url) == |Blocks(Routable, [first] + Statuses(probes))|
  }

  lemma FollowingShows(c: Checker, r: Checker, probes: seq<Probe>, url: string)
    requires url in c.repository && Follows(c, r, probes, url) && c.recovered == [] && c.lost == []
    requires probes != [] && R.Unknown !in Statuses(probes)
    ensures Shows(c.repository[url].status, r, probes, url)
  {
    StoredIsProbe(LIMITS, Run(LIMITS, c.repository[url], probes[..|probes| - 1]), probes[|probes| - 1]);
    RecoveriesAreBlocks(c.repository[url].status, Statuses(probes));
    LossesAreBlocks(c.repository[url].status, Statuses(probes));
  }

  /** After any run of checks over any endpoints it does, of every endpoint checked. */
  lemma RepositoryFollowsProbes(repository: map<string, Endpoint>, checks: seq<Check>, url: string)
    requires url in repository && ProbesOf(checks, url) != []
    requires R.Unknown !in Statuses(ProbesOf(checks, url))
    ensures Shows(repository[url].status, RunChecks(Checker(repository, [], []), checks), ProbesOf(checks, url), url)
  {
    ChecksAreIndependent(Checker(repository, [], []), checks, url);
    FollowingShows(Checker(repository, [], []), RunChecks(Checker(repository, [], []), checks), ProbesOf(checks, url), url);
  }

  // ------------------------------------------------------------------ checker

  class HTTPHealthChecker {
    var repository: map<string, Endpoint>
    var recovered: seq<string>
    var lost: seq<string>

    function View(): Checker
      reads this
    {
      Checker(repository, recovered, lost)
    }

    constructor (repository: map<string, Endpoint>)
      ensures this.repository == repository && recovered == [] && lost == []
    {
      this.repository, recovered, lost := repository, [], [];
    }

    /** Works on a copy; an endpoint that has been removed, or cannot be updated, keeps its
        state and triggers nothing. */
    method CheckEndpoint(url: string, endpoint: Endpoint, p: Probe, updateFails: bool)
      modifies this
      ensures View() == CheckWith(old(View()), url, endpoint, p, updateFails)
      ensures url in old(repository) && !updateFails ==>
                && url in repository
                && repository[url].status == p.status && repository[url].lastChecked == p.at
                && repository[url].lastLatency == p.latency && repository[url].rateLimitedUntil == p.rateLimitedUntil
    {
      var oldStatus := endpoint.status;
      var statusChanged := oldStatus != p.status;
      var copy := endpoint.(status := p.status, lastChecked := p.at, lastLatency := p.latency,
                            rateLimitedUntil := p.rateLimitedUntil);
      var isSuccess := p.status == HEALTHY;
      var (wait, multiplier) := CalculateBackoff(LIMITS, copy.checkInterval, copy.multiplier, isSuccess);
      if isSuccess {
        copy := copy.(failures := 0, multiplier := 1);
      } else {
        copy := copy.(failures := copy.failures + 1, multiplier := multiplier);
      }
      copy := copy.(nextCheck := p.at + wait);
      if url !in repository || updateFails {
        return;
      }
      repository := repository[url := copy];
      if statusChanged && p.status == HEALTHY && oldStatus != R.Unknown {
        recovered := recovered + [url];
      }
      if statusChanged && !IsRoutable(p.status) && IsRoutable(oldStatus) {
        lost := lost + [url];
      }
    }
  }
}
