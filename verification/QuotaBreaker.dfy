/** The unifier's circuit breaker, which lets a fixed number of calls through while it is
    half-open, and the endpoint manager that owns one breaker per endpoint.  Each call is
    one step.  The counters are 32-bit and wrap around. */
module QuotaBreaker {

  const MAX32 := 0x7fff_ffff
  const MIN32 := -0x8000_0000

  function Inc32(x: int): int {
    if x == MAX32 then MIN32 else x + 1
  }

  datatype Phase = Closed | Open | HalfOpen

  datatype Config = Config(
    enabled: bool, failureThreshold: int, successThreshold: int, openDuration: int, halfOpenRequests: int)

  datatype State = State(phase: Phase, failures: int, successes: int, halfOpenRequests: int, lastFailure: int)

  const NEW_STATE := State(Closed, 0, 0, 0, 0)

  // --------------------------------------------------------- single calls

  function ToOpen(s: State): State { s.(phase := Open, successes := 0, halfOpenRequests := 0) }

  function ToHalfOpen(s: State): State { State(HalfOpen, 0, 0, 0, s.lastFailure) }

  function ToClosed(s: State): State { State(Closed, 0, 0, 0, s.lastFailure) }

  function AskHalfOpen(cfg: Config, s: State): (State, bool) {
    (s.(halfOpenRequests := Inc32(s.halfOpenRequests)), Inc32(s.halfOpenRequests) <= cfg.halfOpenRequests)
  }

  function Ask(cfg: Config, s: State, now: int): (State, bool) {
    if !cfg.enabled then (s, true)
    else match s.phase
      case Closed => (s, true)
      case Open => if now - s.lastFailure > cfg.openDuration then AskHalfOpen(cfg, ToHalfOpen(s)) else (s, false)
      case HalfOpen => AskHalfOpen(cfg, s)
  }

  function Success(cfg: Config, s: State): State {
    if !cfg.enabled then s
    else match s.phase
      case Closed => s.(failures := 0)
      case HalfOpen =>
        if Inc32(s.successes) >= cfg.successThreshold then ToClosed(s) else s.(successes := Inc32(s.successes))
      case Open => s
  }

  function Failure(cfg: Config, s: State, now: int): State {
    if !cfg.enabled then s
    else
      var counted := s.(lastFailure := now, failures := Inc32(s.failures));
      match s.phase
      case Closed => if counted.failures >= cfg.failureThreshold then ToOpen(counted) else counted
      case HalfOpen => ToOpen(counted)
      case Open => counted
  }

  class CircuitBreaker {
    const config: Config
    var phase: Phase
    var failures: int
    var successes: int
    var halfOpenRequests: int
    var lastFailureTime: int

    function View(): State
      reads this
    {
      State(phase, failures, successes, halfOpenRequests, lastFailureTime)
    }

    constructor (config: Config)
      ensures View() == NEW_STATE && this.config == config
    {
      this.config := config;
      phase, failures, successes, halfOpenRequests, lastFailureTime := Closed, 0, 0, 0, 0;
    }

    method Allow(now: int) returns (ok: bool)
      modifies this
      ensures (View(), ok) == Ask(config, old(View()), now)
    {
      if !config.enabled {
        return true;
      }
      match phase {
        case Closed => return true;
        case Open =>
          if now - lastFailureTime > config.openDuration {
            phase, failures, successes, halfOpenRequests := HalfOpen, 0, 0, 0;
            ok := AllowHalfOpen();
          } else {
            ok := false;
          }
        case HalfOpen => ok := AllowHalfOpen();
      }
    }

    method AllowHalfOpen() returns (ok: bool)
      modifies this
      ensures (View(), ok) == AskHalfOpen(config, old(View()))
    {
      halfOpenRequests := Inc32(halfOpenRequests);
      return halfOpenRequests <= config.halfOpenRequests;
    }

    method RecordSuccess()
      modifies this
      ensures View() == Success(config, old(View()))
    {
      if !config.enabled {
        return;
      }
      match phase {
        case Closed => failures := 0;
        case HalfOpen =>
          successes := Inc32(successes);
          if successes >= config.successThreshold {
            phase, failures, successes, halfOpenRequests := Closed, 0, 0, 0;
          }
        case Open =>
      }
    }

    method RecordFailure(now: int)
      modifies this
      ensures View() == Failure(config, old(View()), now)
    {
      if !config.enabled {
        return;
      }
      lastFailureTime := now;
      failures := Inc32(failures);
      match phase {
        case Closed =>
          if failures >= config.failureThreshold {
            phase, successes, halfOpenRequests := Open, 0, 0;
          }
        case HalfOpen => phase, successes, halfOpenRequests := Open, 0, 0;
        case Open =>
      }
    }

    method Reset()
      modifies this
      ensures View() == ToClosed(old(View()))
    {
      phase, failures, successes, halfOpenRequests := Closed, 0, 0, 0;
    }
  }

  // --------------------------------------------------- when it opens and closes

  datatype Event = Asked(now: int) | Succeeded | Failed(now: int)

  function Apply(cfg: Config, s: State, e: Event): State {
    match e
    case Asked(now) => Ask(cfg, s, now).0
    case Succeeded => Success(cfg, s)
    case Failed(now) => Failure(cfg, s, now)
  }

  function Run(cfg: Config, s: State, events: seq<Event>): State {
    if events == [] then s else Apply(cfg, Run(cfg, s, events[..|events| - 1]), events[|events| - 1])
  }

  /** The failures since the last success. */
  function Streak(events: seq<Event>): nat {
    if events == [] then 0
    else
      var before := Streak(events[..|events| - 1]);
      match events[|events| - 1]
      case Asked(_) => before
      case Succeeded => 0
      case Failed(_) => before + 1
  }

  function LastFailure(events: seq<Event>): int {
    if events == [] then 0
    else if events[|events| - 1].Failed? then events[|events| - 1].now
    else LastFailure(events[..|events| - 1])
  }

  /** A new breaker opens with the failure that makes as many in a row as the threshold, and
      not before; calls do not matter until then, and all of them are let through. */
  lemma {:induction false} OpensAtThreshold(cfg: Config, events: seq<Event>)
    requires cfg.enabled && 1 <= cfg.failureThreshold <= MAX32
    requires forall i :: 0 <= i < |events| ==> Streak(events[..i]) < cfg.failureThreshold
    ensures var s, k := Run(cfg, NEW_STATE, events), Streak(events);
            && s == State(if k < cfg.failureThreshold then Closed else Open, k, 0, 0, LastFailure(events))
            && (k < cfg.failureThreshold ==> forall now :: Ask(cfg, s, now).1)
  {
    if events != [] {
      var init := events[..|events| - 1];
      forall i | 0 <= i < |init| ensures Streak(init[..i]) < cfg.failureThreshold {
        assert init[..i] == events[..i];
      }
      assert Streak(events[..|init|]) < cfg.failureThreshold;
      OpensAtThreshold(cfg, init);
    }
  }

  /** An open breaker turns every call away until more than the open period has passed since
      the last failure, whoever reported it; the next call makes it half-open, with no
      successes counted and the call as its first. */
  lemma {:induction false} OpenLasts(cfg: Config, s: State, events: seq<Event>, now: int)
    requires cfg.enabled && s.phase == Open
    requires forall i :: 0 <= i < |events| && events[i].Asked? ==>
               events[i].now - LastOf(s, events[..i]) <= cfg.openDuration
    ensures var s' := Run(cfg, s, events); var (after, ok) := Ask(cfg, s', now);
            && s'.phase == Open && s'.lastFailure == LastOf(s, events)
            && (ok <==> now - LastOf(s, events) > cfg.openDuration && 1 <= cfg.halfOpenRequests)
            && (if now - LastOf(s, events) > cfg.openDuration
                then after == State(HalfOpen, 0, 0, 1, LastOf(s, events)) else after == s')
    ensures forall i :: 0 <= i < |events| && events[i].Asked? ==> !Ask(cfg, Run(cfg, s, events[..i]), events[i].now).1
  {
    if events != [] {
      var init, last := events[..|events| - 1], events[|events| - 1];
      forall i | 0 <= i < |init| && init[i].Asked? ensures init[i].now - LastOf(s, init[..i]) <= cfg.openDuration {
        assert init[..i] == events[..i];
      }
      OpenLasts(cfg, s, init, if last.Asked? then last.now else 0);
      forall i | 0 <= i < |events| && events[i].Asked? ensures !Ask(cfg, Run(cfg, s, events[..i]), events[i].now).1 {
        if i < |init| {
          assert init[..i] == events[..i] && init[i] == events[i];
        } else {
          assert events[..i] == init;
        }
      }
    }
  }

  function LastOf(s: State, events: seq<Event>): int {
    if events == [] then s.lastFailure
    else if events[|events| - 1].Failed? then events[|events| - 1].now
    else LastOf(s, events[..|events| - 1])
  }

  function Wins(events: seq<Event>): nat {
    if events == [] then 0
    else Wins(events[..|events| - 1]) + if events[|events| - 1].Succeeded? then 1 else 0
  }

  predicate NoneFailed(events: seq<Event>) {
    forall e :: e in events ==> !e.Failed?
  }

  /** A half-open breaker stays so until something fails or enough has succeeded: a first
      failure opens it again, and the success that completes the threshold closes it with
      all counters cleared. */
  lemma {:induction false} HalfOpenEnds(cfg: Config, s: State, events: seq<Event>)
    requires cfg.enabled && s.phase == HalfOpen && s.successes == 0 && 1 <= cfg.successThreshold <= MAX32
    requires NoneFailed(events) && Wins(events) < cfg.successThreshold
    ensures var s' := Run(cfg, s, events);
            && s'.phase == HalfOpen && s'.successes == Wins(events) && s'.lastFailure == s.lastFailure
            && Success(cfg, s') == (if Wins(events) + 1 < cfg.successThreshold then s'.(successes := Wins(events) + 1)
                                    else State(Closed, 0, 0, 0, s.lastFailure))
            && forall now :: Failure(cfg, s', now) == State(Open, Inc32(s'.failures), 0, 0, now)
  {
    if events != [] {
      var init, last := events[..|events| - 1], events[|events| - 1];
      assert last in events && forall e :: e in init ==> e in events;
      HalfOpenEnds(cfg, s, init);
    }
  }

  // ------------------------------------------- the quota of one half-open epoch

  predicate StaysHalfOpen(cfg: Config, s: State, events: seq<Event>)
    decreases |events|
  {
    s.phase == HalfOpen && (events == [] || StaysHalfOpen(cfg, Apply(cfg, s, events[0]), events[1..]))
  }

  function Asks(events: seq<Event>): nat {
    if events == [] then 0 else (if events[0].Asked? then 1 else 0) + Asks(events[1..])
  }

  function Admissions(cfg: Config, s: State, events: seq<Event>): nat
    decreases |events|
  {
    if events == [] then 0
    else (if events[0].Asked? && Ask(cfg, s, events[0].now).1 then 1 else 0)
         + Admissions(cfg, Apply(cfg, s, events[0]), events[1..])
  }

  function Min(a: int, b: int): int { if a < b then a else b }

  function Max(a: int, b: int): int { if a < b then b else a }

  lemma {:induction false} QuotaFrom(cfg: Config, s: State, events: seq<Event>)
    requires cfg.enabled && StaysHalfOpen(cfg, s, events)
    requires 0 <= s.halfOpenRequests && s.halfOpenRequests + Asks(events) <= MAX32
    ensures Admissions(cfg, s, events)
         == Max(0, Min(Asks(events), cfg.halfOpenRequests - s.halfOpenRequests))
    decreases |events|
  {
    if events != [] {
      QuotaFrom(cfg, Apply(cfg, s, events[0]), events[1..]);
    }
  }

  /** While the breaker stays half-open it admits exactly its quota of the calls made,
      whatever outcomes are recorded meanwhile, for up to 2^31 - 1 calls. */
  lemma EpochQuota(cfg: Config, s: State, events: seq<Event>)
    requires cfg.enabled && StaysHalfOpen(cfg, ToHalfOpen(s), events) && Asks(events) <= MAX32
    ensures Admissions(cfg, ToHalfOpen(s), events) == Max(0, Min(Asks(events), cfg.halfOpenRequests))
  {
    QuotaFrom(cfg, ToHalfOpen(s), events);
  }

  /** The call after that wraps the counter and is admitted beyond the quota. */
  lemma WrappedCounterAdmits(cfg: Config, s: State, now: int)
    requires cfg.enabled && s.phase == HalfOpen && MIN32 <= cfg.halfOpenRequests < MAX32
    requires s.halfOpenRequests > cfg.halfOpenRequests
    ensures Ask(cfg, s, now).1 <==> s.halfOpenRequests == MAX32
  {
  }

  // ------------------------------------------------- every call reports once

  /** The breaker together with the number of admitted calls that have not reported. */
  datatype World = World(s: State, outstanding: nat)

  datatype Turn = Call(now: int) | Finish(ok: bool, now: int)

  predicate Enabled(w: World, t: Turn) {
    t.Finish? ==> w.outstanding > 0
  }

  function Step(cfg: Config, w: World, t: Turn): World
    requires Enabled(w, t)
  {
    match t
    case Call(now) =>
      var (s, ok) := Ask(cfg, w.s, now);
      World(s, if ok then w.outstanding + 1 else w.outstanding)
    case Finish(ok, now) =>
      World(if ok then Success(cfg, w.s) else Failure(cfg, w.s, now), w.outstanding - 1)
  }

  ghost predicate Reachable(cfg: Config, w: World, n: nat)
    decreases n
  {
    if n == 0 then w == World(NEW_STATE, 0)
    else exists v: World, t: Turn :: Reachable(cfg, v, n - 1) && Enabled(v, t) && Step(cfg, v, t) == w
  }

  /** Half-open with nothing outstanding, and yet the next call is turned away. */
  predicate Wedged(cfg: Config, w: World) {
    w.s.phase == HalfOpen && w.outstanding == 0 && !Ask(cfg, w.s, 0).1
  }

  /** Every admission of the epoch is outstanding or has been counted as a success. */
  predicate Inv(cfg: Config, w: World) {
    && MIN32 <= w.s.halfOpenRequests <= MAX32
    && (w.s.phase == HalfOpen ==>
          && Min(w.s.halfOpenRequests, cfg.halfOpenRequests) <= w.s.successes + w.outstanding
          && 0 <= w.s.successes < cfg.successThreshold)
  }

  lemma {:induction false} ReachableKeepsInv(cfg: Config, w: World, n: nat)
    requires cfg.enabled && 1 <= cfg.successThreshold <= MAX32 && Reachable(cfg, w, n)
    ensures Inv(cfg, w)
    decreases n
  {
    if n > 0 {
      var v: World, t: Turn :| Reachable(cfg, v, n - 1) && Enabled(v, t) && Step(cfg, v, t) == w;
      ReachableKeepsInv(cfg, v, n - 1);
    }
  }

  lemma Extend(cfg: Config, v: World, n: nat, t: Turn) returns (w: World)
    requires Reachable(cfg, v, n) && Enabled(v, t)
    ensures w == Step(cfg, v, t) && Reachable(cfg, w, n + 1)
  {
    w := Step(cfg, v, t);
  }

  /** Failing calls, one after the other, open the breaker. */
  lemma {:induction false} Trip(cfg: Config, k: nat) returns (w: World, n: nat)
    requires cfg.enabled && cfg.failureThreshold <= MAX32 && k < Max(1, cfg.failureThreshold)
    ensures Reachable(cfg, w, n) && w == World(State(Closed, k, 0, 0, 0), 0)
  {
    if k == 0 {
      w, n := World(NEW_STATE, 0), 0;
    } else {
      w, n := Trip(cfg, k - 1);
      w := Extend(cfg, w, n, Call(0));
      w := Extend(cfg, w, n + 1, Finish(false, 0));
      n := n + 2;
    }
  }

  lemma Reopen(cfg: Config) returns (w: World, n: nat)
    requires cfg.enabled && cfg.failureThreshold <= MAX32
    ensures Reachable(cfg, w, n) && w == World(State(Open, Max(1, cfg.failureThreshold), 0, 0, 0), 0)
  {
    w, n := Trip(cfg, Max(1, cfg.failureThreshold) - 1);
    w := Extend(cfg, w, n, Call(0));
    w := Extend(cfg, w, n + 1, Finish(false, 0));
    n := n + 2;
  }

  lemma FirstProbe(cfg: Config) returns (w: World, n: nat)
    requires cfg.enabled && cfg.failureThreshold <= MAX32
    ensures Reachable(cfg, w, n)
    ensures w == World(State(HalfOpen, 0, 0, 1, 0), if cfg.halfOpenRequests >= 1 then 1 else 0)
  {
    w, n := Reopen(cfg);
    w := Extend(cfg, w, n, Call(Max(0, cfg.openDuration) + 1));
    n := n + 1;
  }

  /** Then k probes, each succeeding before the next, too few to close it. */
  lemma {:induction false} Probe(cfg: Config, k: nat) returns (w: World, n: nat)
    requires cfg.enabled && cfg.failureThreshold <= MAX32 && cfg.successThreshold > cfg.halfOpenRequests
    requires 1 <= k <= cfg.halfOpenRequests && k < MAX32
    ensures Reachable(cfg, w, n) && w == World(State(HalfOpen, 0, k, k, 0), 0)
    decreases k
  {
    if k == 1 {
      w, n := FirstProbe(cfg);
    } else {
      w, n := Probe(cfg, k - 1);
      w := Extend(cfg, w, n, Call(0));
      n := n + 1;
    }
    w := Extend(cfg, w, n, Finish(true, 0));
    n := n + 1;
  }

  /** If every admitted call reports exactly once, the breaker can wedge exactly when it
      needs more successes to close than it lets calls through. */
  lemma CanWedgeIff(cfg: Config)
    requires cfg.enabled && cfg.failureThreshold <= MAX32
    requires 1 <= cfg.successThreshold <= MAX32 && cfg.halfOpenRequests < MAX32
    ensures (exists w, n :: Reachable(cfg, w, n) && Wedged(cfg, w)) <==> cfg.successThreshold > cfg.halfOpenRequests
  {
    if cfg.successThreshold > cfg.halfOpenRequests {
      if cfg.halfOpenRequests >= 1 {
        var w, n := Probe(cfg, cfg.halfOpenRequests);
        assert Reachable(cfg, w, n) && Wedged(cfg, w);
      } else {
        var w, n := FirstProbe(cfg);
        assert Reachable(cfg, w, n) && Wedged(cfg, w);
      }
    } else {
      forall w, n | Reachable(cfg, w, n) ensures !Wedged(cfg, w) {
        ReachableKeepsInv(cfg, w, n);
      }
    }
  }

  /** A wedged breaker stays wedged: nothing can report, and every further call is turned
      away, until the counter wraps. */
  lemma {:induction false} WedgeLasts(cfg: Config, w: World, turns: seq<Turn>)
    requires cfg.enabled && Wedged(cfg, w) && 0 <= w.s.halfOpenRequests
    requires w.s.halfOpenRequests + |turns| < MAX32
    requires forall i :: 0 <= i < |turns| ==> turns[i].Call?
    ensures Wedged(cfg, Play(cfg, w, turns))
    ensures Play(cfg, w, turns).s.halfOpenRequests == w.s.halfOpenRequests + |turns|
    decreases |turns|
  {
    if turns != [] {
      WedgeLasts(cfg, Step(cfg, w, turns[0]), turns[1..]);
    }
  }

  function Play(cfg: Config, w: World, turns: seq<Turn>): World
    requires forall i :: 0 <= i < |turns| ==> turns[i].Call?
    decreases |turns|
  {
    if turns == [] then w else Play(cfg, Step(cfg, w, turns[0]), turns[1..])
  }

  // ------------------------------------------------------ endpoint manager

  datatype Health = Online | Degraded | Offline

  datatype Info = Info(health: Health, consecutiveFailures: nat)

  function InfoFor(failures: nat, maxConsecutiveFailures: int): Info {
    Info(if failures == 0 then Online else if failures >= maxConsecutiveFailures then Offline else Degraded, failures)
  }

  class EndpointManager {
    var endpointStates: map<string, Info>
    var endpointFailures: map<string, nat>
    var circuitBreakers: map<string, State>
    const config: Config
    const maxConsecutiveFailures: int

    function FailuresOf(url: string): nat
      reads this
    {
      if url in endpointFailures then endpointFailures[url] else 0
    }

    function BreakerOf(url: string): State
      reads this
    {
      if url in circuitBreakers then circuitBreakers[url] else NEW_STATE
    }

    /** The state shown for an endpoint is a function of its failure count. */
    ghost predicate Valid()
      reads this
    {
      forall url :: url in endpointStates ==> endpointStates[url] == InfoFor(FailuresOf(url), maxConsecutiveFailures)
    }

    constructor (config: Config, maxConsecutiveFailures: int)
      ensures Valid() && endpointStates == map[] && endpointFailures == map[] && circuitBreakers == map[]
      ensures this.config == config && this.maxConsecutiveFailures == maxConsecutiveFailures
    {
      this.config, this.maxConsecutiveFailures := config, maxConsecutiveFailures;
      endpointStates, endpointFailures, circuitBreakers := map[], map[], map[];
    }

    method AllowCall(url: string, now: int) returns (ok: bool)
      requires Valid()
      modifies this`circuitBreakers
      ensures Valid()
      ensures (BreakerOf(url), ok) == Ask(config, old(BreakerOf(url)), now)
      ensures forall other :: other != url ==> BreakerOf(other) == old(BreakerOf(other))
    {
      if !config.enabled {
        return true;
      }
      var (s, allowed) := Ask(config, BreakerOf(url), now);
      circuitBreakers := circuitBreakers[url := s];
      return allowed;
    }

    method RecordFailure(url: string, now: int)
      requires Valid()
      modifies this
      ensures Valid() && FailuresOf(url) == old(FailuresOf(url)) + 1
      ensures url in endpointStates && endpointStates[url].consecutiveFailures == FailuresOf(url)
      ensures endpointStates[url].health == if FailuresOf(url) >= maxConsecutiveFailures then Offline else Degraded
      ensures BreakerOf(url) == Failure(config, old(BreakerOf(url)), now)
      ensures forall other :: other != url ==>
                BreakerOf(other) == old(BreakerOf(other)) && FailuresOf(other) == old(FailuresOf(other))
      ensures endpointStates - {url} == old(endpointStates) - {url}
    {
      endpointFailures := endpointFailures[url := FailuresOf(url) + 1];
      var failures := endpointFailures[url];
      if config.enabled {
        circuitBreakers := circuitBreakers[url := Failure(config, BreakerOf(url), now)];
      }
      var health := if failures >= maxConsecutiveFailures then Offline else Degraded;
      endpointStates := endpointStates[url := Info(health, failures)];
    }

    method RecordSuccess(url: string)
      requires Valid()
      modifies this
      ensures Valid() && url in endpointStates && FailuresOf(url) == 0 && endpointStates[url] == Info(Online, 0)
      ensures BreakerOf(url) == Success(config, old(BreakerOf(url)))
      ensures forall other :: other != url ==>
                BreakerOf(other) == old(BreakerOf(other)) && FailuresOf(other) == old(FailuresOf(other))
      ensures endpointStates - {url} == old(endpointStates) - {url}
    {
      assert url in endpointStates && endpointStates[url].health == Online ==> FailuresOf(url) == 0;
      endpointFailures := endpointFailures[url := 0];
      if config.enabled {
        circuitBreakers := circuitBreakers[url := Success(config, BreakerOf(url))];
      }
      ShowOnline(url);
    }

    method ShowOnline(url: string)
      requires FailuresOf(url) == 0
      requires forall other :: other in endpointStates && other != url ==>
                 endpointStates[other] == InfoFor(FailuresOf(other), maxConsecutiveFailures)
      requires url in endpointStates && endpointStates[url].health == Online ==> endpointStates[url] == Info(Online, 0)
      modifies this`endpointStates
      ensures Valid() && url in endpointStates && endpointStates - {url} == old(endpointStates) - {url}
    {
      if url in endpointStates {
        if endpointStates[url].health != Online {
          endpointStates := endpointStates[url := Info(Online, 0)];
        }
      } else {
        endpointStates := endpointStates[url := Info(Online, 0)];
      }
    }

    method RemoveEndpoint(url: string)
      requires Valid()
      modifies this
      ensures Valid() && endpointStates == old(endpointStates) - {url}
      ensures FailuresOf(url) == 0 && BreakerOf(url) == NEW_STATE
      ensures forall other :: other != url ==>
                BreakerOf(other) == old(BreakerOf(other)) && FailuresOf(other) == old(FailuresOf(other))
    {
      endpointStates := endpointStates - {url};
      endpointFailures := endpointFailures - {url};
      circuitBreakers := circuitBreakers - {url};
    }

    /** A unification: asks the breaker, and once admitted reports exactly once. */
    method UnifyModels(url: string, succeeds: bool, now: int) returns (admitted: bool)
      requires Valid()
      modifies this
      ensures Valid()
      ensures var (s, ok) := Ask(config, old(BreakerOf(url)), now);
              && admitted == ok
              && BreakerOf(url) == (if !ok then s else if succeeds then Success(config, s) else Failure(config, s, now))
              && FailuresOf(url) == (if !ok then old(FailuresOf(url)) else if succeeds then 0 else old(FailuresOf(url)) + 1)
              && (ok ==> url in endpointStates)
      ensures !admitted ==> endpointStates == old(endpointStates)
      ensures endpointStates - {url} == old(endpointStates) - {url}
      ensures forall other :: other != url ==>
                BreakerOf(other) == old(BreakerOf(other)) && FailuresOf(other) == old(FailuresOf(other))
    {
      admitted := AllowCall(url, now);
      if !admitted {
        return;
      }
      if succeeds {
        RecordSuccess(url);
      } else {
        RecordFailure(url, now);
      }
    }
  }
}
