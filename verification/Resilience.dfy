/** The shared circuit breaker with each call taken as one step, and the health-check
    client that keys one breaker per URL.  Times are integers (nanoseconds); every
    clock read is an input. */
module Resilience {

  import opened Wrappers

  datatype Phase = Closed | Open | HalfOpen

  datatype Config = Config(threshold: int, openDuration: int)

  datatype State = State(failures: int, lastFailure: int, lastAttempt: int, phase: Phase)

  datatype Verdict = Blocked | Admitted(attempt: int)

  /** The clock reads of one IsOpen call, in the order it makes them. */
  datatype Clock = Clock(entered: int, stamp: int, checked: int)

  datatype Event =
    | Asked(staleness: int, clock: Clock)
    | Succeeded(attempt: int)
    | Failed(attempt: int, at: int)

  const NEW_STATE := State(0, 0, 0, Closed)

  // ------------------------------------------------- one call as a function

  function Gate(s: State, staleness: int, clock: Clock): (State, Verdict) {
    if s.lastAttempt == 0 then (s.(lastAttempt := clock.stamp), Admitted(clock.stamp))
    else if s.lastAttempt + staleness > clock.checked then (s, Blocked)
    else (s.(lastAttempt := clock.stamp), Admitted(clock.stamp))
  }

  function Ask(cfg: Config, s: State, staleness: int, clock: Clock): (State, Verdict) {
    match s.phase
    case Closed => (s, Admitted(0))
    case Open =>
      if s.lastFailure + cfg.openDuration < clock.entered
      then Gate(s.(phase := HalfOpen), staleness, clock)
      else (s, Blocked)
    case HalfOpen => Gate(s, staleness, clock)
  }

  /** A record is taken into account unless it carries the token of another probe. */
  predicate Current(s: State, attempt: int) {
    attempt == 0 || s.lastAttempt == attempt
  }

  function Success(s: State, attempt: int): State {
    if Current(s, attempt) then State(0, s.lastFailure, 0, Closed) else s
  }

  function Failure(cfg: Config, s: State, attempt: int, at: int): State {
    if !Current(s, attempt) then s
    else
      State(s.failures + 1, at, 0, if s.failures + 1 >= cfg.threshold then Open else s.phase)
  }

  function Apply(cfg: Config, s: State, e: Event): State {
    match e
    case Asked(staleness, clock) => Ask(cfg, s, staleness, clock).0
    case Succeeded(attempt) => Success(s, attempt)
    case Failed(attempt, at) => Failure(cfg, s, attempt, at)
  }

  // ----------------------------------------------------- the class itself

  class Breaker {
    var failures: int
    var lastFailure: int
    var lastAttempt: int
    var phase: Phase
    const cfg: Config

    function View(): State
      reads this
    {
      State(failures, lastFailure, lastAttempt, phase)
    }

    constructor (cfg: Config)
      ensures View() == NEW_STATE && this.cfg == cfg
    {
      this.cfg := cfg;
      failures, lastFailure, lastAttempt, phase := 0, 0, 0, Closed;
    }

    method IsOpen(probeStaleness: int, clock: Clock) returns (open: bool, attempt: int)
      modifies this
      ensures (View(), if open then Blocked else Admitted(attempt)) == Ask(cfg, old(View()), probeStaleness, clock)
      ensures open ==> attempt == 0
    {
      var seen := phase;
      if seen == Closed {
        return false, 0;
      }
      if seen == Open {
        if !(lastFailure + cfg.openDuration < clock.entered) {
          return true, 0;
        }
        if phase == Open {
          phase := HalfOpen;
        }
      }
      var now := clock.stamp;
      if lastAttempt == 0 {
        lastAttempt := now;
        return false, now;
      }
      var last := lastAttempt;
      if last + probeStaleness > clock.checked {
        return true, 0;
      }
      if lastAttempt == last {
        lastAttempt := now;
        return false, now;
      }
      return true, 0;
    }

    method RecordSuccess(attempt: int)
      modifies this
      ensures View() == Success(old(View()), attempt)
    {
      if attempt != 0 && lastAttempt != attempt {
        return;
      }
      failures := 0;
      lastAttempt := 0;
      phase := Closed;
    }

    method RecordFailure(attempt: int, now: int)
      modifies this
      ensures View() == Failure(cfg, old(View()), attempt, now)
    {
      if attempt != 0 && lastAttempt != attempt {
        return;
      }
      failures := failures + 1;
      var count := failures;
      lastFailure := now;
      lastAttempt := 0;
      if count >= cfg.threshold {
        phase := Open;
      }
    }

    method Tripped() returns (r: bool)
      ensures r <==> View().phase != Closed
    {
      r := phase != Closed;
    }
  }

  // ------------------------------------------------------------------ runs

  function Run(cfg: Config, s: State, events: seq<Event>): State
    decreases |events|
  {
    if events == [] then s else Run(cfg, Apply(cfg, s, events[0]), events[1..])
  }

  /** The clock moves forward from one call to the next. */
  predicate Later(e: Event, now: int) {
    match e
    case Asked(_, clock) => now < clock.entered <= clock.stamp <= clock.checked
    case Succeeded(_) => true
    case Failed(_, at) => now < at
  }

  function EndOf(e: Event, now: int): int {
    match e
    case Asked(_, clock) => clock.checked
    case Succeeded(_) => now
    case Failed(_, at) => at
  }

  predicate Timed(events: seq<Event>, now: int) {
    events == [] || (Later(events[0], now) && Timed(events[1..], EndOf(events[0], now)))
  }

  function ClockAfter(events: seq<Event>, now: int): int {
    if events == [] then now else ClockAfter(events[1..], EndOf(events[0], now))
  }

  lemma {:induction false} RunConcat(cfg: Config, s: State, a: seq<Event>, b: seq<Event>)
    ensures Run(cfg, s, a + b) == Run(cfg, Run(cfg, s, a), b)
    decreases |a|
  {
    if a == [] {
      assert a + b == b;
    } else {
      assert (a + b)[0] == a[0] && (a + b)[1..] == a[1..] + b;
      RunConcat(cfg, Apply(cfg, s, a[0]), a[1..], b);
    }
  }

  lemma {:induction false} TimedConcat(a: seq<Event>, b: seq<Event>, now: int)
    ensures Timed(a + b, now) <==> Timed(a, now) && Timed(b, ClockAfter(a, now))
    ensures ClockAfter(a + b, now) == ClockAfter(b, ClockAfter(a, now))
  {
    if a == [] {
      assert a + b == b;
    } else {
      assert (a + b)[0] == a[0] && (a + b)[1..] == a[1..] + b;
      TimedConcat(a[1..], b, EndOf(a[0], now));
    }
  }

  /** What every run keeps, whatever tokens the records carry. */
  predicate Inv(cfg: Config, s: State, now: int) {
    && 0 <= s.failures && 0 <= s.lastAttempt <= now && s.lastFailure <= now
    && (s.phase != Closed <==> s.failures >= cfg.threshold)
    && (s.lastAttempt != 0 ==> s.phase == HalfOpen)
  }

  lemma {:induction false} RunKeepsInv(cfg: Config, s: State, events: seq<Event>, now: int)
    requires cfg.threshold >= 1 && 0 <= now && Inv(cfg, s, now) && Timed(events, now)
    ensures now <= ClockAfter(events, now) && Inv(cfg, Run(cfg, s, events), ClockAfter(events, now))
    decreases |events|
  {
    if events != [] {
      RunKeepsInv(cfg, Apply(cfg, s, events[0]), events[1..], EndOf(events[0], now));
    }
  }

  /** From a new breaker: tripped exactly when the failures have reached the threshold,
      and a probe can only be outstanding while half-open. */
  lemma TrippedIffThreshold(cfg: Config, events: seq<Event>)
    requires cfg.threshold >= 1 && Timed(events, 0)
    ensures var s := Run(cfg, NEW_STATE, events);
            && (s.phase != Closed <==> s.failures >= cfg.threshold)
            && (s.lastAttempt != 0 ==> s.phase == HalfOpen)
  {
    RunKeepsInv(cfg, NEW_STATE, events, 0);
  }

  /** A threshold below one breaks the equivalence before the first call. */
  lemma TrippedNeedsThreshold(cfg: Config)
    ensures (forall events: seq<Event> | Timed(events, 0) ::
               var s := Run(cfg, NEW_STATE, events); s.phase != Closed <==> s.failures >= cfg.threshold)
       <==> cfg.threshold >= 1
  {
    if cfg.threshold >= 1 {
      forall events: seq<Event> | Timed(events, 0)
        ensures var s := Run(cfg, NEW_STATE, events); s.phase != Closed <==> s.failures >= cfg.threshold
      {
        TrippedIffThreshold(cfg, events);
      }
    } else {
      var none: seq<Event> := [];
      assert Timed(none, 0) && Run(cfg, NEW_STATE, none) == NEW_STATE;
    }
  }

  // ------------------------------------------------------------ no lockout

  /** However a run went, and even if no probe ever reported, a call made once both the open
      period and its probe window have passed since the last call is admitted. */
  lemma NoLockout(cfg: Config, events: seq<Event>, staleness: int, clock: Clock)
    requires cfg.threshold >= 1 && Timed(events, 0)
    requires var last := ClockAfter(events, 0);
             last + cfg.openDuration < clock.entered && last + staleness <= clock.checked
    ensures Ask(cfg, Run(cfg, NEW_STATE, events), staleness, clock).1.Admitted?
  {
    RunKeepsInv(cfg, NEW_STATE, events, 0);
  }

  /** A call is turned away for one of two reasons only, and both expire. */
  lemma BlockedIff(cfg: Config, events: seq<Event>, staleness: int, clock: Clock)
    requires cfg.threshold >= 1 && Timed(events, 0)
    ensures var s := Run(cfg, NEW_STATE, events);
            Ask(cfg, s, staleness, clock).1.Blocked? <==>
              && s.failures >= cfg.threshold
              && (if s.phase == Open then clock.entered <= s.lastFailure + cfg.openDuration
                  else s.lastAttempt != 0 && clock.checked < s.lastAttempt + staleness)
  {
    RunKeepsInv(cfg, NEW_STATE, events, 0);
  }

  // ---------------------------------------------------------- probe tokens

  /** A token that the gate no longer holds never comes back. */
  lemma {:induction false} TokenIsGone(cfg: Config, s: State, events: seq<Event>, now: int, token: int)
    requires cfg.threshold >= 1 && 0 <= now && Inv(cfg, s, now) && Timed(events, now)
    requires token != 0 && token <= now && s.lastAttempt != token
    ensures Run(cfg, s, events).lastAttempt != token
    decreases |events|
  {
    if events != [] {
      RunKeepsInv(cfg, s, events[..1], now);
      assert Run(cfg, s, events[..1]) == Apply(cfg, s, events[0]) by {
        assert events[..1] == [events[0]];
      }
      TokenIsGone(cfg, Apply(cfg, s, events[0]), events[1..], EndOf(events[0], now), token);
    }
  }

  predicate IsRecordOf(e: Event, token: int) {
    (e.Succeeded? || e.Failed?) && e.attempt == token
  }

  /** Each admitted token is taken into account at most once: when one record of it has
      been, every later record of the same token leaves the breaker as it is. */
  lemma TokenCountsOnce(cfg: Config, before: seq<Event>, first: Event, between: seq<Event>, second: Event, token: int)
    requires cfg.threshold >= 1 && token != 0 && IsRecordOf(first, token) && IsRecordOf(second, token)
    requires Timed(before + [first] + between, 0)
    requires Run(cfg, NEW_STATE, before).lastAttempt == token
    ensures var s := Run(cfg, NEW_STATE, before + [first] + between); Apply(cfg, s, second) == s
  {
    TimedConcat(before + [first], between, 0);
    TimedConcat(before, [first], 0);
    RunConcat(cfg, NEW_STATE, before + [first], between);
    RunConcat(cfg, NEW_STATE, before, [first]);
    RunKeepsInv(cfg, NEW_STATE, before, 0);
    RunKeepsInv(cfg, NEW_STATE, before + [first], 0);
    TokenIsGone(cfg, Run(cfg, NEW_STATE, before + [first]), between, ClockAfter(before + [first], 0), token);
  }

  /** A probe that a replacement has superseded never changes the breaker again. */
  lemma SupersededNeverCounts(cfg: Config, before: seq<Event>, staleness: int, clock: Clock,
                              after: seq<Event>, late: Event, token: int)
    requires cfg.threshold >= 1 && token != 0 && IsRecordOf(late, token)
    requires Timed(before + [Asked(staleness, clock)] + after, 0)
    requires Run(cfg, NEW_STATE, before).lastAttempt == token
    requires Ask(cfg, Run(cfg, NEW_STATE, before), staleness, clock).1.Admitted?
    ensures var s := Run(cfg, NEW_STATE, before + [Asked(staleness, clock)] + after); Apply(cfg, s, late) == s
  {
    var ask := Asked(staleness, clock);
    TimedConcat(before + [ask], after, 0);
    TimedConcat(before, [ask], 0);
    RunConcat(cfg, NEW_STATE, before + [ask], after);
    RunConcat(cfg, NEW_STATE, before, [ask]);
    RunKeepsInv(cfg, NEW_STATE, before, 0);
    RunKeepsInv(cfg, NEW_STATE, before + [ask], 0);
    assert Timed([ask], ClockAfter(before, 0));
    TokenIsGone(cfg, Run(cfg, NEW_STATE, before + [ask]), after, ClockAfter(before + [ask], 0), token);
  }

  /** While a probe is outstanding and its window has not passed, nobody else gets in:
      every call is blocked and the gate keeps the token. */
  ghost predicate InWindow(events: seq<Event>, token: int) {
    forall e :: e in events ==>
      match e
      case Asked(staleness, clock) => clock.checked < token + staleness
      case _ => e.attempt != 0 && e.attempt != token
  }

  lemma {:induction false} SingleFlight(cfg: Config, s: State, events: seq<Event>, token: int)
    requires s.phase == HalfOpen && s.lastAttempt == token != 0
    requires InWindow(events, token)
    ensures Run(cfg, s, events) == s
    ensures forall i :: 0 <= i < |events| && events[i].Asked? ==>
              Ask(cfg, Run(cfg, s, events[..i]), events[i].staleness, events[i].clock).1 == Blocked
  {
    if events != [] {
      assert events[0] in events;
      assert Apply(cfg, s, events[0]) == s;
      SingleFlight(cfg, s, events[1..], token);
      forall i | 0 < i < |events| && events[i].Asked?
        ensures Ask(cfg, Run(cfg, s, events[..i]), events[i].staleness, events[i].clock).1 == Blocked
      {
        assert events[..i][1..] == events[1..][..i - 1];
      }
    }
  }

  // ------------------------------------------------- the health-check client

  const SECOND := 1_000_000_000
  const MAX_RETRIES := 2
  const HEALTH_CONFIG := Config(3, 30 * SECOND)

  /** The window in which an endpoint's probe is trusted. */
  function ProbeStaleness(checkTimeout: int): int {
    (if checkTimeout <= 0 then 2 * SECOND else checkTimeout) * 2 + SECOND
  }

  datatype Status = Healthy | Busy | Offline | Warming | Unhealthy | Unknown | ConfigError | RateLimited

  /** How one try of a probe went.  A wait that is cut short ends the probe before the
      try is made, and so does a panic. */
  datatype Try = Answered(status: Status) | Errored(retryable: bool) | WaitCut | Panicked

  datatype CheckResult = CircuitOpen | RetryCancelled | PanicRecovered | CheckFailed | Checked(status: Status)

  datatype Report = NoReport | ReportSuccess | ReportFailure

  /** How a probe ends, given the tries still to come. */
  function ResultOf(tries: seq<Try>): CheckResult
    requires tries != []
  {
    match tries[0]
    case Answered(status) => Checked(status)
    case Errored(retryable) => if retryable && |tries| > 1 then ResultOf(tries[1..]) else CheckFailed
    case WaitCut => RetryCancelled
    case Panicked => PanicRecovered
  }

  /** What the end of a probe tells the breaker. */
  function ReportOf(result: CheckResult): Report {
    match result
    case Checked(status) =>
      if status == ConfigError || status == RateLimited then NoReport
      else if status == Healthy || status == Busy then ReportSuccess
      else ReportFailure
    case CheckFailed => ReportFailure
    case _ => NoReport
  }

  function RecordEvents(report: Report, attempt: int, at: int): seq<Event> {
    match report
    case NoReport => []
    case ReportSuccess => [Succeeded(attempt)]
    case ReportFailure => [Failed(attempt, at)]
  }

  // ------------------------------------------------------ one check, whole

  /** A check of a URL: how each of its tries goes if it is reached, and the clock when a
      failure would be recorded. */
  datatype Checkup = Checkup(checkTimeout: int, clock: Clock, tries: seq<Try>, at: int) {
    predicate Valid() {
      |tries| == MAX_RETRIES + 1 && !tries[0].WaitCut?
    }
  }

  /** The state after the end of an admitted check is recorded. */
  function Conclude(s: State, attempt: int, tries: seq<Try>, at: int): State
    requires tries != []
  {
    Run(HEALTH_CONFIG, s, RecordEvents(ReportOf(ResultOf(tries)), attempt, at))
  }

  function CheckOnce(s: State, c: Checkup): (State, Verdict, CheckResult)
    requires c.Valid()
  {
    var (asked, v) := Ask(HEALTH_CONFIG, s, ProbeStaleness(c.checkTimeout), c.clock);
    if v.Blocked? then (asked, v, CircuitOpen)
    else (Conclude(asked, v.attempt, c.tries, c.at), v, ResultOf(c.tries))
  }

  /** The first try that is not a retryable error decides the check, or else the last. */
  function Deciding(tries: seq<Try>): (i: nat)
    requires tries != []
    ensures i < |tries| && forall j :: 0 <= j < i ==> tries[j] == Errored(true)
    ensures i == |tries| - 1 || tries[i] != Errored(true)
  {
    if |tries| == 1 || tries[0] != Errored(true) then 0 else 1 + Deciding(tries[1..])
  }

  predicate Fails(t: Try) {
    t.Errored? || (t.Answered? && t.status !in {Healthy, Busy, ConfigError, RateLimited})
  }

  predicate Succeeds(t: Try) {
    t.Answered? && t.status in {Healthy, Busy}
  }

  lemma {:induction false} ResultIsDeciding(tries: seq<Try>)
    requires tries != []
    ensures ResultOf(tries) == match tries[Deciding(tries)]
                               case Answered(status) => Checked(status)
                               case Errored(_) => CheckFailed
                               case WaitCut => RetryCancelled
                               case Panicked => PanicRecovered
  {
    if |tries| > 1 && tries[0] == Errored(true) {
      ResultIsDeciding(tries[1..]);
    }
  }

  lemma OneReport(s: State, report: Report, attempt: int, at: int)
    ensures Run(HEALTH_CONFIG, s, RecordEvents(report, attempt, at))
         == match report
            case NoReport => s
            case ReportSuccess => Success(s, attempt)
            case ReportFailure => Failure(HEALTH_CONFIG, s, attempt, at)
  {
    var told := RecordEvents(report, attempt, at);
    if told != [] {
      assert told[1..] == [] && Run(HEALTH_CONFIG, s, told) == Apply(HEALTH_CONFIG, s, told[0]);
    }
  }

  /** What a check does to its URL's breaker, whatever happened there between its admission
      and its end: while its token is current, a deciding try that fails adds one failure,
      restarts the open period and opens at three, and one that succeeds closes the breaker;
      any other, and any under a token that has been replaced, changes nothing. */
  lemma CheckCounts(s: State, attempt: int, tries: seq<Try>, at: int)
    requires tries != []
    ensures var t, s' := tries[Deciding(tries)], Conclude(s, attempt, tries, at);
            if (attempt == 0 || s.lastAttempt == attempt) && Fails(t) then
              && s'.failures == s.failures + 1 && s'.lastFailure == at && s'.lastAttempt == 0
              && s'.phase == (if s.failures + 1 >= 3 then Open else s.phase)
            else if (attempt == 0 || s.lastAttempt == attempt) && Succeeds(t) then
              s'.failures == 0 && s'.phase == Closed && s'.lastAttempt == 0 && s'.lastFailure == s.lastFailure
            else s' == s
  {
    ResultIsDeciding(tries);
    OneReport(s, ReportOf(ResultOf(tries)), attempt, at);
  }

  predicate AllValid(checks: seq<Checkup>) {
    forall c :: c in checks ==> c.Valid()
  }

  /** Checks of one URL, one after the other. */
  function Checks(s: State, checks: seq<Checkup>): State
    requires AllValid(checks)
  {
    if checks == [] then s else CheckOnce(Checks(s, checks[..|checks| - 1]), checks[|checks| - 1]).0
  }

  /** The failures that count: those of admitted checks since the last success. */
  function Strikes(s: State, checks: seq<Checkup>): nat
    requires AllValid(checks)
  {
    if checks == [] then 0
    else
      var init, last := checks[..|checks| - 1], checks[|checks| - 1];
      assert last in checks;
      var t := last.tries[Deciding(last.tries)];
      if Ask(HEALTH_CONFIG, Checks(s, init), ProbeStaleness(last.checkTimeout), last.clock).1.Blocked? then Strikes(s, init)
      else if Fails(t) then Strikes(s, init) + 1
      else if Succeeds(t) then 0
      else Strikes(s, init)
  }

  /** One check after the other at a URL that is new: its breaker leaves the closed state
      exactly when three checks have failed since one succeeded. */
  lemma {:induction false} ThreeStrikes(checks: seq<Checkup>)
    requires AllValid(checks)
    ensures var s := Checks(NEW_STATE, checks);
            s.failures == Strikes(NEW_STATE, checks) && (s.phase != Closed <==> Strikes(NEW_STATE, checks) >= 3)
  {
    if checks != [] {
      var init, last := checks[..|checks| - 1], checks[|checks| - 1];
      ThreeStrikes(init);
      OneCheck(Checks(NEW_STATE, init), last);
    }
  }

  /** A check alone always reports under a current token. */
  lemma OneCheck(s: State, c: Checkup)
    requires c.Valid()
    ensures var t := c.tries[Deciding(c.tries)]; var (s', v, _) := CheckOnce(s, c);
            if v.Blocked? then s'.failures == s.failures && (s'.phase == Closed <==> s.phase == Closed)
            else if Fails(t) then
              && s'.failures == s.failures + 1
              && (s.failures + 1 >= 3 ==> s'.phase == Open && s'.lastFailure == c.at)
              && (s.failures + 1 < 3 && s.phase == Closed ==> s'.phase == Closed)
            else if Succeeds(t) then s'.failures == 0 && s'.phase == Closed
            else s'.failures == s.failures && (s'.phase == Closed <==> s.phase == Closed)
  {
    var (asked, v) := Ask(HEALTH_CONFIG, s, ProbeStaleness(c.checkTimeout), c.clock);
    if v.Admitted? {
      CheckCounts(asked, v.attempt, c.tries, c.at);
    }
  }

  /** An endpoint all of whose checks fail is checked three times; then its breaker is not
      closed again, and within the open period of the third check the next one is refused. */
  lemma DeadEndpointOpens(checks: seq<Checkup>)
    requires AllValid(checks) && forall c :: c in checks ==> Fails(c.tries[Deciding(c.tries)])
    ensures |checks| >= 3 <==> Checks(NEW_STATE, checks).phase != Closed
    ensures |checks| < 3 ==> Checks(NEW_STATE, checks).failures == |checks|
    ensures |checks| == 3 ==>
              && Checks(NEW_STATE, checks).phase == Open
              && forall staleness, clock: Clock :: clock.entered <= checks[2].at + 30 * SECOND ==>
                   Ask(HEALTH_CONFIG, Checks(NEW_STATE, checks), staleness, clock).1 == Blocked
  {
    ThreeStrikes(checks);
    if checks != [] {
      var init, last := checks[..|checks| - 1], checks[|checks| - 1];
      DeadEndpointOpens(init);
      ThreeStrikes(init);
      OneCheck(Checks(NEW_STATE, init), last);
    }
  }

  function StateOf(endpoints: map<string, State>, url: string): State {
    if url in endpoints then endpoints[url] else NEW_STATE
  }

  /** One call for one URL; only a failure makes a breaker. */
  function ApplyAt(endpoints: map<string, State>, url: string, e: Event): map<string, State> {
    if url in endpoints || e.Failed?
    then endpoints[url := Apply(HEALTH_CONFIG, StateOf(endpoints, url), e)]
    else endpoints
  }

  function RunAt(endpoints: map<string, State>, calls: seq<(string, Event)>): map<string, State>
    decreases |calls|
  {
    if calls == [] then endpoints else RunAt(ApplyAt(endpoints, calls[0].0, calls[0].1), calls[1..])
  }

  function CallsAt(calls: seq<(string, Event)>, url: string): seq<Event> {
    if calls == [] then []
    else (if calls[0].0 == url then [calls[0].1] else []) + CallsAt(calls[1..], url)
  }

  /** The breakers do not interfere: what a URL's breaker has become is what its own
      calls, taken alone, make of a new breaker. */
  lemma {:induction false} EndpointsAreIndependent(endpoints: map<string, State>, calls: seq<(string, Event)>, url: string)
    requires url in endpoints || StateOf(endpoints, url) == NEW_STATE
    ensures StateOf(RunAt(endpoints, calls), url) == Run(HEALTH_CONFIG, StateOf(endpoints, url), CallsAt(calls, url))
    decreases |calls|
  {
    if calls != [] {
      EndpointsAreIndependent(ApplyAt(endpoints, calls[0].0, calls[0].1), calls[1..], url);
      if calls[0].0 == url {
        assert CallsAt(calls, url)[1..] == CallsAt(calls[1..], url);
      } else {
        assert CallsAt(calls, url) == CallsAt(calls[1..], url);
      }
    }
  }

  /** Probes that end without a report cannot lock a URL out, whatever the interleaving
      with other probes of the same and of other URLs: once nothing has happened at the URL
      for the open period and for the probe window, the next probe is admitted. */
  lemma ClientIsNeverLockedOut(calls: seq<(string, Event)>, url: string, checkTimeout: int, clock: Clock)
    requires Timed(CallsAt(calls, url), 0)
    requires var last := ClockAfter(CallsAt(calls, url), 0);
             && last + HEALTH_CONFIG.openDuration < clock.entered
             && last + ProbeStaleness(checkTimeout) <= clock.checked
    ensures Ask(HEALTH_CONFIG, StateOf(RunAt(map[], calls), url), ProbeStaleness(checkTimeout), clock).1.Admitted?
  {
    EndpointsAreIndependent(map[], calls, url);
    NoLockout(HEALTH_CONFIG, CallsAt(calls, url), ProbeStaleness(checkTimeout), clock);
  }

  /** What happens at other URLs cannot supersede a probe: if nobody else asks at its own URL
      before it reports, its report is that of the current probe, however long it took. */
  lemma OwnUrlIsProtected(before: seq<(string, Event)>, meanwhile: seq<(string, Event)>, url: string, token: int)
    requires StateOf(RunAt(map[], before), url).lastAttempt == token
    requires forall call :: call in meanwhile ==> call.0 != url
    ensures Current(StateOf(RunAt(map[], before + meanwhile), url), token)
  {
    EndpointsAreIndependent(map[], before, url);
    EndpointsAreIndependent(map[], before + meanwhile, url);
    CallsElsewhere(before, meanwhile, url);
  }

  lemma {:induction false} CallsElsewhere(before: seq<(string, Event)>, meanwhile: seq<(string, Event)>, url: string)
    requires forall call :: call in meanwhile ==> call.0 != url
    ensures CallsAt(before + meanwhile, url) == CallsAt(before, url)
    decreases |before| + |meanwhile|
  {
    var all := before + meanwhile;
    if before != [] {
      assert all[0] == before[0] && all[1..] == before[1..] + meanwhile;
      CallsElsewhere(before[1..], meanwhile, url);
    } else if meanwhile != [] {
      assert all == meanwhile && all[1..] == [] + meanwhile[1..] && meanwhile[0] in meanwhile;
      CallsElsewhere([], meanwhile[1..], url);
    }
  }

  // ------------------------------------------- how long a probe is protected

  /** What other probes of the URL do until a time: they ask with their own timeout, and
      record only under tokens of their own. */
  ghost predicate Others(events: seq<Event>, token: int, otherTimeout: int, until: int) {
    forall e :: e in events ==>
      match e
      case Asked(staleness, clock) => staleness == ProbeStaleness(otherTimeout) && clock.checked <= until
      case _ => e.attempt != 0 && e.attempt != token
  }

  /** Whatever happened before and whatever other probes do meanwhile, a probe that reports
      within the duration is still the current one. */
  ghost predicate Protected(otherTimeout: int, duration: int) {
    forall before, events, token ::
      && Timed(before + events, 0)
      && token != 0 && Run(HEALTH_CONFIG, NEW_STATE, before).lastAttempt == token
      && Others(events, token, otherTimeout, token + duration)
      ==> Current(Run(HEALTH_CONFIG, NEW_STATE, before + events), token)
  }

  /** While it is, nobody else has been let through the gate. */
  lemma OthersAreBlocked(s: State, events: seq<Event>, token: int, otherTimeout: int, duration: int)
    requires s.phase == HalfOpen && s.lastAttempt == token != 0
    requires Others(events, token, otherTimeout, token + duration) && duration < ProbeStaleness(otherTimeout)
    ensures Run(HEALTH_CONFIG, s, events) == s
    ensures forall i :: 0 <= i < |events| && events[i].Asked? ==>
              Ask(HEALTH_CONFIG, Run(HEALTH_CONFIG, s, events[..i]), events[i].staleness, events[i].clock).1 == Blocked
  {
    SingleFlight(HEALTH_CONFIG, s, events, token);
  }

  /** A probe is protected for a duration if and only if that is less than the window of the
      probes that could replace it. */
  lemma ProtectedIff(otherTimeout: int, duration: int)
    ensures Protected(otherTimeout, duration) <==> duration < ProbeStaleness(otherTimeout)
  {
    if duration < ProbeStaleness(otherTimeout) {
      forall before, events, token |
        && Timed(before + events, 0)
        && token != 0 && Run(HEALTH_CONFIG, NEW_STATE, before).lastAttempt == token
        && Others(events, token, otherTimeout, token + duration)
        ensures Current(Run(HEALTH_CONFIG, NEW_STATE, before + events), token)
      {
        TimedConcat(before, events, 0);
        RunConcat(HEALTH_CONFIG, NEW_STATE, before, events);
        RunKeepsInv(HEALTH_CONFIG, NEW_STATE, before, 0);
        OthersAreBlocked(Run(HEALTH_CONFIG, NEW_STATE, before), events, token, otherTimeout, duration);
      }
    } else {
      var before, token := ProbeOutstanding(otherTimeout);
      var rival := Rival(token, otherTimeout);
      RivalTakesOver(before, token, otherTimeout);
      assert Others([rival], token, otherTimeout, token + duration);
      assert !Current(Run(HEALTH_CONFIG, NEW_STATE, before + [rival]), token);
    }
  }

  /** Three failures open the breaker; the first call after the open period is the probe. */
  lemma ProbeOutstanding(checkTimeout: int) returns (before: seq<Event>, token: int)
    ensures Timed(before, 0) && ClockAfter(before, 0) == token > 0
    ensures Run(HEALTH_CONFIG, NEW_STATE, before) == State(3, 3, token, HalfOpen)
  {
    token := 3 + HEALTH_CONFIG.openDuration + 1;
    var ask := [Asked(ProbeStaleness(checkTimeout), Clock(token, token, token))];
    var failed := [Failed(0, 1), Failed(0, 2), Failed(0, 3)];
    before := failed + ask;
    assert failed[1..] == [Failed(0, 2), Failed(0, 3)] && [Failed(0, 2), Failed(0, 3)][1..] == [Failed(0, 3)];
    assert Run(HEALTH_CONFIG, State(2, 2, 0, Closed), [Failed(0, 3)]) == State(3, 3, 0, Open);
    assert Run(HEALTH_CONFIG, State(1, 1, 0, Closed), [Failed(0, 2), Failed(0, 3)]) == State(3, 3, 0, Open);
    assert Run(HEALTH_CONFIG, NEW_STATE, failed) == State(3, 3, 0, Open);
    assert Timed(failed, 0) && ClockAfter(failed, 0) == 3;
    assert ask[1..] == [] && Timed(ask, 3) && ClockAfter(ask, 3) == token;
    TimedConcat(failed, ask, 0);
    RunConcat(HEALTH_CONFIG, NEW_STATE, failed, ask);
  }

  /** A probe that asks as soon as its own window since the token has passed. */
  function Rival(token: int, otherTimeout: int): Event {
    var at := token + ProbeStaleness(otherTimeout);
    Asked(ProbeStaleness(otherTimeout), Clock(at, at, at))
  }

  lemma RivalTakesOver(before: seq<Event>, token: int, otherTimeout: int)
    requires Timed(before, 0) && ClockAfter(before, 0) == token > 0
    requires Run(HEALTH_CONFIG, NEW_STATE, before) == State(3, 3, token, HalfOpen)
    ensures var rival := Rival(token, otherTimeout);
            && Timed(before + [rival], 0)
            && Ask(HEALTH_CONFIG, Run(HEALTH_CONFIG, NEW_STATE, before), rival.staleness, rival.clock).1
               == Admitted(token + ProbeStaleness(otherTimeout))
            && Run(HEALTH_CONFIG, NEW_STATE, before + [rival])
               == State(3, 3, token + ProbeStaleness(otherTimeout), HalfOpen)
  {
    var rival := Rival(token, otherTimeout);
    assert [rival][1..] == [] && Timed([rival], token);
    TimedConcat(before, [rival], 0);
    RunConcat(HEALTH_CONFIG, NEW_STATE, before, [rival]);
  }

  // ------------------------------------------------ how long a check can take

  /** The timeout of the HTTP client, on top of the endpoint's own. */
  const CLIENT_TIMEOUT := 5 * SECOND

  function TryTimeout(checkTimeout: int): int {
    if checkTimeout < CLIENT_TIMEOUT then checkTimeout else CLIENT_TIMEOUT
  }

  /** How long the tries of a check last.  A try that uses up its time ends with a deadline
      error, which is not retried, so that only the last one can. */
  ghost predicate Tries(checkTimeout: int, tries: seq<int>) {
    && 1 <= |tries| <= MAX_RETRIES + 1
    && forall i :: 0 <= i < |tries| ==>
         0 <= tries[i] <= TryTimeout(checkTimeout) && (i < |tries| - 1 ==> tries[i] < TryTimeout(checkTimeout))
  }

  /** The delays before the second and the third try: a tenth and two tenths of a second,
      each at most an eighth shorter. */
  datatype Delays = Delays(second: int, third: int) {
    predicate Valid() {
      7 * SECOND / 80 <= second && 7 * SECOND / 40 <= third
    }
  }

  function Elapsed(tries: seq<int>, delays: Delays): int
    requires 1 <= |tries| <= MAX_RETRIES + 1
  {
    if |tries| == 1 then tries[0]
    else if |tries| == 2 then tries[0] + delays.second + tries[1]
    else tries[0] + delays.second + tries[1] + delays.third + tries[2]
  }

  function Min(a: int, b: int): int {
    if a <= b then a else b
  }

  /** None is a context without a deadline. */
  function CheckLength(tries: seq<int>, delays: Delays, deadline: Option<int>): int
    requires 1 <= |tries| <= MAX_RETRIES + 1
  {
    if deadline.Some? then Min(Elapsed(tries, delays), deadline.value) else Elapsed(tries, delays)
  }

  /** Two retries that just miss their deadline and a third try that reaches it. */
  function Slowest(checkTimeout: int): (tries: seq<int>)
    ensures |tries| == MAX_RETRIES + 1
  {
    [TryTimeout(checkTimeout) - 1, TryTimeout(checkTimeout) - 1, TryTimeout(checkTimeout)]
  }

  lemma SlowestIsSlowest(checkTimeout: int, tries: seq<int>, delays: Delays, deadline: Option<int>)
    requires checkTimeout > 0 && Tries(checkTimeout, tries) && delays.Valid()
    ensures Tries(checkTimeout, Slowest(checkTimeout))
    ensures CheckLength(tries, delays, deadline) <= CheckLength(Slowest(checkTimeout), delays, deadline)
  {
  }

  /** However its tries go, a check reports while its probe is current. */
  ghost predicate CheckIsProtected(checkTimeout: int, otherTimeout: int, delays: Delays, deadline: Option<int>) {
    forall tries :: Tries(checkTimeout, tries) ==> Protected(otherTimeout, CheckLength(tries, delays, deadline))
  }

  /** It does if and only if the time of three tries with the delays between them, or else
      the context's deadline, is within the window of the probes that could replace it. */
  lemma CheckIsProtectedIff(checkTimeout: int, otherTimeout: int, delays: Delays, deadline: Option<int>)
    requires checkTimeout > 0 && delays.Valid()
    ensures CheckIsProtected(checkTimeout, otherTimeout, delays, deadline)
            <==> (|| 3 * TryTimeout(checkTimeout) - 2 + delays.second + delays.third < ProbeStaleness(otherTimeout)
                  || (deadline.Some? && deadline.value < ProbeStaleness(otherTimeout)))
  {
    var longest := CheckLength(Slowest(checkTimeout), delays, deadline);
    SlowestIsSlowest(checkTimeout, Slowest(checkTimeout), delays, deadline);
    ProtectedIff(otherTimeout, longest);
    if longest < ProbeStaleness(otherTimeout) {
      forall tries | Tries(checkTimeout, tries) ensures Protected(otherTimeout, CheckLength(tries, delays, deadline)) {
        SlowestIsSlowest(checkTimeout, tries, delays, deadline);
        ProtectedIff(otherTimeout, CheckLength(tries, delays, deadline));
      }
    }
  }

  /** The context of HTTPHealthChecker.Check has twice the timeout, and that is enough. */
  lemma WrappedCheckIsProtected(checkTimeout: int, delays: Delays)
    requires checkTimeout > 0 && delays.Valid()
    ensures CheckIsProtected(checkTimeout, checkTimeout, delays, Some(2 * checkTimeout))
  {
    CheckIsProtectedIff(checkTimeout, checkTimeout, delays, Some(2 * checkTimeout));
  }

  const TICK_DEADLINE := 15 * SECOND

  /** The scheduled checks share a context of fifteen seconds instead.  Against probes with
      the same timeout theirs are protected if and only if the timeout is short or longer
      than seven seconds. */
  lemma ScheduledCheckIsProtectedIff(checkTimeout: int, delays: Delays)
    requires checkTimeout > 0 && delays.Valid()
    ensures CheckIsProtected(checkTimeout, checkTimeout, delays, Some(TICK_DEADLINE))
            <==> checkTimeout - 2 + delays.second + delays.third < SECOND || checkTimeout > 7 * SECOND
  {
    CheckIsProtectedIff(checkTimeout, checkTimeout, delays, Some(TICK_DEADLINE));
  }

  /** Without a deadline, as in RunHealthCheck, the timeout has to exceed seven seconds by
      half of the delays. */
  lemma UnboundedCheckIsProtectedIff(checkTimeout: int, delays: Delays)
    requires checkTimeout > 0 && delays.Valid()
    ensures CheckIsProtected(checkTimeout, checkTimeout, delays, None)
            <==> (|| checkTimeout - 2 + delays.second + delays.third < SECOND
                  || 2 * checkTimeout > 14 * SECOND - 2 + delays.second + delays.third)
  {
    CheckIsProtectedIff(checkTimeout, checkTimeout, delays, None);
  }

  /** With the default timeout of two seconds a scheduled check can be superseded, whatever
      the delays, by the check of another endpoint with the same health-check URL: that one
      asks five seconds after it, within the same tick and before it reports, is let through,
      and leaves its report without effect. */
  lemma DefaultScheduledCheckIsExposed(delays: Delays)
    returns (before: seq<Event>, token: int, tries: seq<int>, rival: Event)
    requires delays.Valid()
    ensures Timed(before + [rival], 0) && Run(HEALTH_CONFIG, NEW_STATE, before).lastAttempt == token > 0
    ensures Tries(2 * SECOND, tries)
    ensures rival == Rival(token, 2 * SECOND)
    ensures rival.clock.checked < token + CheckLength(tries, delays, Some(TICK_DEADLINE))
    ensures Ask(HEALTH_CONFIG, Run(HEALTH_CONFIG, NEW_STATE, before), rival.staleness, rival.clock).1.Admitted?
    ensures var s := Run(HEALTH_CONFIG, NEW_STATE, before + [rival]);
            forall late :: IsRecordOf(late, token) ==> Apply(HEALTH_CONFIG, s, late) == s
  {
    before, token := ProbeOutstanding(2 * SECOND);
    tries, rival := Slowest(2 * SECOND), Rival(token, 2 * SECOND);
    RivalTakesOver(before, token, 2 * SECOND);
    SlowestIsSlowest(2 * SECOND, tries, delays, Some(TICK_DEADLINE));
  }

  class HealthCircuitBreaker {
    var endpoints: map<string, State>

    constructor ()
      ensures endpoints == map[]
    {
      endpoints := map[];
    }

    method IsOpen(url: string, checkTimeout: int, clock: Clock) returns (verdict: Verdict)
      modifies this
      ensures (StateOf(endpoints, url), verdict)
           == Ask(HEALTH_CONFIG, StateOf(old(endpoints), url), ProbeStaleness(checkTimeout), clock)
      ensures forall other :: other != url ==> StateOf(endpoints, other) == StateOf(old(endpoints), other)
    {
      if url !in endpoints {
        return Admitted(0);
      }
      var (s, v) := Ask(HEALTH_CONFIG, endpoints[url], ProbeStaleness(checkTimeout), clock);
      endpoints := endpoints[url := s];
      return v;
    }

    method RecordSuccess(url: string, attempt: int)
      modifies this
      ensures StateOf(endpoints, url) == Success(StateOf(old(endpoints), url), attempt)
      ensures forall other :: other != url ==> StateOf(endpoints, other) == StateOf(old(endpoints), other)
    {
      if url in endpoints {
        endpoints := endpoints[url := Success(endpoints[url], attempt)];
      }
    }

    method RecordFailure(url: string, attempt: int, at: int)
      modifies this
      ensures StateOf(endpoints, url) == Failure(HEALTH_CONFIG, StateOf(old(endpoints), url), attempt, at)
      ensures forall other :: other != url ==> StateOf(endpoints, other) == StateOf(old(endpoints), other)
    {
      if url !in endpoints {
        endpoints := endpoints[url := NEW_STATE];
      }
      endpoints := endpoints[url := Failure(HEALTH_CONFIG, endpoints[url], attempt, at)];
    }
  }

  /** The result of a check is that of the try that decided it. */
  predicate AnswersFor(result: CheckResult, t: Try) {
    match t
    case Answered(status) => result == Checked(status)
    case Errored(_) => result == CheckFailed
    case WaitCut => result == RetryCancelled
    case Panicked => result == PanicRecovered
  }

  class HealthClient {
    const breaker: HealthCircuitBreaker

    constructor (breaker: HealthCircuitBreaker)
      ensures this.breaker == breaker
    {
      this.breaker := breaker;
    }

    method Check(url: string, c: Checkup) returns (verdict: Verdict, result: CheckResult)
      requires c.Valid()
      modifies breaker
      ensures (StateOf(breaker.endpoints, url), verdict, result) == CheckOnce(StateOf(old(breaker.endpoints), url), c)
      ensures verdict.Admitted? ==> AnswersFor(result, c.tries[Deciding(c.tries)])
      ensures forall other :: other != url ==> StateOf(breaker.endpoints, other) == StateOf(old(breaker.endpoints), other)
    {
      verdict := breaker.IsOpen(url, c.checkTimeout, c.clock);
      if verdict.Blocked? {
        return verdict, CircuitOpen;
      }
      label AfterAsk:
      var tries, at := c.tries, c.at;
      ResultIsDeciding(tries);
      OneReport(StateOf(breaker.endpoints, url), ReportOf(ResultOf(tries)), verdict.attempt, at);
      var last := tries[0];
      for i := 0 to MAX_RETRIES + 1
        invariant ResultOf(tries) == if i > MAX_RETRIES then CheckFailed else ResultOf(tries[i..])
        invariant i > 0 ==> last == Errored(true)
        invariant breaker.endpoints == old@AfterAsk(breaker.endpoints)
      {
        if tries[i] == WaitCut {
          return verdict, RetryCancelled;
        }
        if tries[i] == Panicked {
          return verdict, PanicRecovered;
        }
        last := tries[i];
        if last.Answered? || !last.retryable {
          break;
        }
        assert i < MAX_RETRIES ==> tries[i..][1..] == tries[i + 1..];
      }
      match last {
        case Errored(_) =>
          breaker.RecordFailure(url, verdict.attempt, at);
          result := CheckFailed;
        case Answered(status) =>
          if status == ConfigError || status == RateLimited {
          } else if status == Healthy || status == Busy {
            breaker.RecordSuccess(url, verdict.attempt);
          } else {
            breaker.RecordFailure(url, verdict.attempt, at);
          }
          result := Checked(status);
        case _ =>
          assert false;
      }
    }
  }
}
