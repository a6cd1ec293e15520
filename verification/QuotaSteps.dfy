/** The unifier's circuit breaker with every atomic operation and clock read as a step of its
    own, under any interleaving of any number of callers: how many calls its quota lets
    through, and how the transition to half-open, which several callers can make, adds to it. */
module QuotaSteps {

  import Q = QuotaBreaker

  type Config = Q.Config

  datatype Call = Allow | RecordSuccess | RecordFailure

  /** Where a caller is: each value names the operation it performs next. */
  datatype Local =
    | Idle
    | LoadState
    | LoadFailureTime
    | ReadSince(lastFailure: int)
    | HalfOpenState
    | HalfOpenFailures
    | HalfOpenSuccesses
    | HalfOpenRequests
    | AddRequest
    | Returned(ok: bool)
    | SuccessState
    | ClearFailures
    | AddSuccess
    | ClosedState
    | ClosedFailures
    | ClosedSuccesses
    | ClosedRequests
    | StampFailure
    | AddFailure
    | FailureState(count: int)
    | OpenState
    | OpenSuccesses
    | OpenRequests

  /** The breaker's fields, the callers, and what has happened: the stores that have opened
      the breaker and those that have cleared the request counter, the increments of that
      counter in all and since it was last cleared, and the calls let through by it. */
  datatype World = World(
    s: Q.State,
    callers: map<nat, Local>,
    openings: nat,
    clears: nat,
    asked: nat,
    askedSince: nat,
    admitted: nat,
    admittedSince: nat)

  /** A caller starts a call, or performs its next operation; now is what the clock shows if
      that operation reads it. */
  datatype Action = Start(caller: nat, call: Call) | Move(caller: nat, now: int)

  const START := World(Q.NEW_STATE, map[], 0, 0, 0, 0, 0, 0)

  function At(w: World, caller: nat): Local {
    if caller in w.callers then w.callers[caller] else Idle
  }

  function Goto(w: World, caller: nat, next: Local): World {
    w.(callers := w.callers[caller := next])
  }

  predicate Enabled(w: World, a: Action) {
    match a
    case Start(caller, _) => At(w, caller).Idle? || At(w, caller).Returned?
    case Move(caller, _) => !At(w, caller).Idle? && !At(w, caller).Returned?
  }

  function Entry(cfg: Config, call: Call): Local {
    match call
    case Allow => if cfg.enabled then LoadState else Returned(true)
    case RecordSuccess => if cfg.enabled then SuccessState else Idle
    case RecordFailure => if cfg.enabled then StampFailure else Idle
  }

  /** Clears the request counter. */
  function Clear(w: World): World {
    w.(s := w.s.(halfOpenRequests := 0), clears := w.clears + 1, askedSince := 0, admittedSince := 0)
  }

  /** Counts a request and lets it through while the count is within the quota. */
  function Count(cfg: Config, w: World): (World, bool) {
    var count := Q.Inc32(w.s.halfOpenRequests);
    var ok := count <= cfg.halfOpenRequests;
    var one := if ok then 1 else 0;
    (w.(s := w.s.(halfOpenRequests := count), asked := w.asked + 1, askedSince := w.askedSince + 1,
        admitted := w.admitted + one, admittedSince := w.admittedSince + one), ok)
  }

  function Step(cfg: Config, w: World, a: Action): World
    requires Enabled(w, a)
  {
    match a
    case Start(c, call) => Goto(w, c, Entry(cfg, call))
    case Move(c, now) =>
      match At(w, c)
      case LoadState =>
        Goto(w, c, match w.s.phase
                   case Closed => Returned(true)
                   case Open => LoadFailureTime
                   case HalfOpen => AddRequest)
      case LoadFailureTime => Goto(w, c, ReadSince(w.s.lastFailure))
      case ReadSince(lastFailure) => Goto(w, c, if now - lastFailure > cfg.openDuration then HalfOpenState else Returned(false))
      case HalfOpenState => Goto(w.(s := w.s.(phase := Q.HalfOpen)), c, HalfOpenFailures)
      case HalfOpenFailures => Goto(w.(s := w.s.(failures := 0)), c, HalfOpenSuccesses)
      case HalfOpenSuccesses => Goto(w.(s := w.s.(successes := 0)), c, HalfOpenRequests)
      case HalfOpenRequests => Goto(Clear(w), c, AddRequest)
      case AddRequest =>
        var (w', ok) := Count(cfg, w);
        Goto(w', c, Returned(ok))
      case SuccessState =>
        Goto(w, c, match w.s.phase
                   case Closed => ClearFailures
                   case HalfOpen => AddSuccess
                   case Open => Idle)
      case ClearFailures => Goto(w.(s := w.s.(failures := 0)), c, Idle)
      case AddSuccess =>
        var count := Q.Inc32(w.s.successes);
        Goto(w.(s := w.s.(successes := count)), c, if count >= cfg.successThreshold then ClosedState else Idle)
      case ClosedState => Goto(w.(s := w.s.(phase := Q.Closed)), c, ClosedFailures)
      case ClosedFailures => Goto(w.(s := w.s.(failures := 0)), c, ClosedSuccesses)
      case ClosedSuccesses => Goto(w.(s := w.s.(successes := 0)), c, ClosedRequests)
      case ClosedRequests => Goto(Clear(w), c, Idle)
      case StampFailure => Goto(w.(s := w.s.(lastFailure := now)), c, AddFailure)
      case AddFailure =>
        var count := Q.Inc32(w.s.failures);
        Goto(w.(s := w.s.(failures := count)), c, FailureState(count))
      case FailureState(count) =>
        var opens := w.s.phase == Q.HalfOpen || (w.s.phase == Q.Closed && count >= cfg.failureThreshold);
        Goto(w, c, if opens then OpenState else Idle)
      case OpenState => Goto(w.(s := w.s.(phase := Q.Open), openings := w.openings + 1), c, OpenSuccesses)
      case OpenSuccesses => Goto(w.(s := w.s.(successes := 0)), c, OpenRequests)
      case OpenRequests => Goto(Clear(w), c, Idle)
  }

  predicate AllEnabled(cfg: Config, w: World, actions: seq<Action>)
    decreases |actions|
  {
    actions == [] || (Enabled(w, actions[0]) && AllEnabled(cfg, Step(cfg, w, actions[0]), actions[1..]))
  }

  function Run(cfg: Config, w: World, actions: seq<Action>): World
    requires AllEnabled(cfg, w, actions)
    decreases |actions|
  {
    if actions == [] then w else Run(cfg, Step(cfg, w, actions[0]), actions[1..])
  }

  // -------------------------------------------------------- the quota holds

  function Quota(cfg: Config): nat {
    Q.Max(0, cfg.halfOpenRequests)
  }

  /** Since the counter was last cleared exactly the quota has been let through, or all if
      fewer asked; before that, at most the quota each time. */
  ghost predicate Inv(cfg: Config, w: World) {
    w.asked <= Q.MAX32 ==>
      && w.askedSince <= w.asked
      && w.s.halfOpenRequests == w.askedSince
      && w.admittedSince == Q.Min(w.askedSince, Quota(cfg))
      && w.admitted <= Quota(cfg) * w.clears + w.admittedSince
  }

  lemma ClearKeepsInv(cfg: Config, w: World)
    requires Inv(cfg, w)
    ensures Inv(cfg, Clear(w))
  {
    assert Quota(cfg) * (w.clears + 1) == Quota(cfg) * w.clears + Quota(cfg);
  }

  lemma CountKeepsInv(cfg: Config, w: World)
    requires Inv(cfg, w)
    ensures Inv(cfg, Count(cfg, w).0)
  {
  }

  /** A step clears the counter, counts a request, or leaves both alone. */
  lemma StepCounts(cfg: Config, w: World, a: Action) returns (v: World)
    requires Enabled(w, a)
    ensures v == w || v == Clear(w) || v == Count(cfg, w).0
    ensures var w' := Step(cfg, w, a);
            && w'.s.halfOpenRequests == v.s.halfOpenRequests && w'.clears == v.clears
            && w'.asked == v.asked && w'.askedSince == v.askedSince
            && w'.admitted == v.admitted && w'.admittedSince == v.admittedSince
  {
    if a.Move? && (At(w, a.caller).HalfOpenRequests? || At(w, a.caller).ClosedRequests? || At(w, a.caller).OpenRequests?) {
      v := Clear(w);
    } else if a.Move? && At(w, a.caller).AddRequest? {
      v := Count(cfg, w).0;
    } else {
      v := w;
    }
  }

  lemma StepKeepsInv(cfg: Config, w: World, a: Action)
    requires Inv(cfg, w) && Enabled(w, a)
    ensures Inv(cfg, Step(cfg, w, a))
  {
    ClearKeepsInv(cfg, w);
    CountKeepsInv(cfg, w);
    var v := StepCounts(cfg, w, a);
    assert Inv(cfg, v);
  }

  lemma {:induction false} RunKeepsInv(cfg: Config, w: World, actions: seq<Action>)
    requires Inv(cfg, w) && AllEnabled(cfg, w, actions)
    ensures Inv(cfg, Run(cfg, w, actions))
    decreases |actions|
  {
    if actions != [] {
      StepKeepsInv(cfg, w, actions[0]);
      RunKeepsInv(cfg, Step(cfg, w, actions[0]), actions[1..]);
    }
  }

  /** In every interleaving, for up to 2^31 - 1 requests: between two clearings of the counter
      exactly the quota is let through of the calls that ask, and in all at most the quota
      for each clearing and once more. */
  lemma AdmissionsAreBounded(cfg: Config, actions: seq<Action>)
    requires AllEnabled(cfg, START, actions) && Run(cfg, START, actions).asked <= Q.MAX32
    ensures var w := Run(cfg, START, actions);
            && w.admittedSince == Q.Min(w.askedSince, Quota(cfg))
            && w.admitted <= Quota(cfg) * (w.clears + 1)
  {
    RunKeepsInv(cfg, START, actions);
    var w := Run(cfg, START, actions);
    assert Quota(cfg) * (w.clears + 1) == Quota(cfg) * w.clears + Quota(cfg);
  }

  // ------------------------------------ one opening can let any number through

  ghost predicate Reachable(cfg: Config, w: World) {
    exists actions :: AllEnabled(cfg, START, actions) && Run(cfg, START, actions) == w
  }

  lemma {:induction false} Append(cfg: Config, w: World, actions: seq<Action>, a: Action)
    requires AllEnabled(cfg, w, actions) && Enabled(Run(cfg, w, actions), a)
    ensures AllEnabled(cfg, w, actions + [a]) && Run(cfg, w, actions + [a]) == Step(cfg, Run(cfg, w, actions), a)
    decreases |actions|
  {
    if actions == [] {
      assert actions + [a] == [a] && [a][1..] == [];
    } else {
      assert (actions + [a])[0] == actions[0] && (actions + [a])[1..] == actions[1..] + [a];
      Append(cfg, Step(cfg, w, actions[0]), actions[1..], a);
    }
  }

  lemma Next(cfg: Config, w: World, a: Action) returns (w': World)
    requires Reachable(cfg, w) && Enabled(w, a)
    ensures w' == Step(cfg, w, a) && Reachable(cfg, w')
  {
    var actions :| AllEnabled(cfg, START, actions) && Run(cfg, START, actions) == w;
    Append(cfg, START, actions, a);
    w' := Step(cfg, w, a);
    assert Run(cfg, START, actions + [a]) == w';
  }

  /** Nobody but caller 0 has called yet. */
  predicate Untouched(w: World) {
    w.callers.Keys <= {0} && w.admitted == 0 && w.asked == 0
  }

  /** Caller 0 reports failures one after the other, too few to open the breaker. */
  lemma {:induction false} Failing(cfg: Config, k: nat) returns (w: World)
    requires cfg.enabled && cfg.failureThreshold <= Q.MAX32 && k < Q.Max(1, cfg.failureThreshold)
    ensures Reachable(cfg, w) && Untouched(w) && At(w, 0).Idle? && w.openings == 0
    ensures w.s.phase == Q.Closed && w.s.failures == k
  {
    if k == 0 {
      w := START;
      var none: seq<Action> := [];
      assert AllEnabled(cfg, START, none) && Run(cfg, START, none) == START;
    } else {
      w := Failing(cfg, k - 1);
      w := CountedFailure(cfg, w);
      w := Next(cfg, w, Move(0, 0));
    }
  }

  /** The breaker as caller 0's next failure leaves it. */
  function Counted(s: Q.State): Q.State {
    s.(failures := Q.Inc32(s.failures), lastFailure := 0)
  }

  lemma StartedFailure(cfg: Config, v: World) returns (w: World)
    requires cfg.enabled && Reachable(cfg, v) && At(v, 0).Idle?
    ensures Reachable(cfg, w) && w == Goto(v, 0, StampFailure)
  {
    w := Next(cfg, v, Start(0, RecordFailure));
  }

  lemma StampedFailure(cfg: Config, v: World) returns (w: World)
    requires cfg.enabled && Reachable(cfg, v) && At(v, 0).Idle?
    ensures Reachable(cfg, w) && At(w, 0) == AddFailure && w.callers.Keys == v.callers.Keys + {0}
    ensures w == v.(s := v.s.(lastFailure := 0), callers := w.callers)
  {
    w := StartedFailure(cfg, v);
    w := Next(cfg, w, Move(0, 0));
  }

  lemma CountedFailure(cfg: Config, v: World) returns (w: World)
    requires cfg.enabled && Reachable(cfg, v) && Untouched(v) && At(v, 0).Idle?
    ensures Reachable(cfg, w) && Untouched(w) && At(w, 0) == FailureState(Q.Inc32(v.s.failures))
    ensures w.s == Counted(v.s) && w.openings == v.openings
  {
    w := StampedFailure(cfg, v);
    w := Next(cfg, w, Move(0, 0));
  }

  lemma Opened(cfg: Config) returns (w: World)
    requires cfg.enabled && cfg.failureThreshold <= Q.MAX32
    ensures Reachable(cfg, w) && Untouched(w) && w.s.phase == Q.Open && w.openings == 1
  {
    w := Failing(cfg, Q.Max(1, cfg.failureThreshold) - 1);
    w := CountedFailure(cfg, w);
    w := Opens(cfg, w);
  }

  lemma Opens(cfg: Config, v: World) returns (w: World)
    requires Reachable(cfg, v) && Untouched(v) && v.s.phase == Q.Closed && v.openings == 0
    requires At(v, 0) == FailureState(v.s.failures) && v.s.failures >= cfg.failureThreshold
    ensures Reachable(cfg, w) && Untouched(w) && w.s.phase == Q.Open && w.openings == 1
  {
    w := Next(cfg, v, Move(0, 0));
    w := Next(cfg, w, Move(0, 0));
  }

  /** Callers above from, up to n, have seen the breaker open for long enough. */
  predicate Waiting(w: World, from: nat, n: nat) {
    forall c: nat :: from < c <= n ==> c in w.callers && w.callers[c] == HalfOpenState
  }

  /** The first k callers after caller 0 have been let through. */
  predicate Passed(w: World, k: nat) {
    forall c: nat :: 1 <= c <= k ==> c in w.callers && w.callers[c] == Returned(true)
  }

  lemma {:induction false} Gather(cfg: Config, n: nat) returns (w: World)
    requires cfg.enabled && cfg.failureThreshold <= Q.MAX32
    ensures Reachable(cfg, w) && Waiting(w, 0, n) && (forall c :: c in w.callers ==> c <= n)
    ensures w.s.phase == Q.Open && w.openings == 1 && w.admitted == 0 && w.asked == 0
  {
    if n == 0 {
      w := Opened(cfg);
    } else {
      w := Gather(cfg, n - 1);
      w := SeesItOpen(cfg, w, n);
    }
  }

  lemma Looks(cfg: Config, v: World, c: nat) returns (w: World)
    requires cfg.enabled && Reachable(cfg, v) && v.s.phase == Q.Open && c !in v.callers
    ensures Reachable(cfg, w) && w == v.(callers := v.callers[c := LoadFailureTime])
  {
    w := Next(cfg, v, Start(c, Allow));
    w := Next(cfg, w, Move(c, 0));
    assert w.callers == v.callers[c := LoadFailureTime];
  }

  lemma SeesItOpen(cfg: Config, v: World, c: nat) returns (w: World)
    requires cfg.enabled && Reachable(cfg, v) && v.s.phase == Q.Open && c !in v.callers
    ensures Reachable(cfg, w) && w == v.(callers := v.callers[c := HalfOpenState])
  {
    w := Looks(cfg, v, c);
    w := Next(cfg, w, Move(c, 0));
    w := Next(cfg, w, Move(c, v.s.lastFailure + cfg.openDuration + 1));
    assert w.callers == v.callers[c := HalfOpenState];
  }

  /** Each of the first k of them makes the transition on its own, and passes. */
  lemma {:induction false} Release(cfg: Config, n: nat, k: nat) returns (w: World)
    requires cfg.enabled && cfg.failureThreshold <= Q.MAX32 && cfg.halfOpenRequests >= 1 && k <= n
    ensures Reachable(cfg, w) && Waiting(w, k, n) && Passed(w, k)
    ensures w.openings == 1 && w.admitted == k && w.asked == k
  {
    if k == 0 {
      w := Gather(cfg, n);
    } else {
      var v := Release(cfg, n, k - 1);
      w := Passes(cfg, v, k);
    }
  }

  lemma Transition(cfg: Config, v: World, c: nat) returns (w: World)
    requires Reachable(cfg, v) && At(v, c) == HalfOpenState
    ensures Reachable(cfg, w) && w.callers == v.callers[c := HalfOpenSuccesses]
    ensures w.openings == v.openings && w.admitted == v.admitted && w.asked == v.asked
  {
    w := Next(cfg, v, Move(c, 0));
    w := Next(cfg, w, Move(c, 0));
  }

  lemma Clears(cfg: Config, v: World, c: nat) returns (w: World)
    requires Reachable(cfg, v) && At(v, c) == HalfOpenState
    ensures Reachable(cfg, w) && w.callers == v.callers[c := AddRequest]
    ensures w.s.halfOpenRequests == 0 && w.openings == v.openings && w.admitted == v.admitted && w.asked == v.asked
  {
    w := Transition(cfg, v, c);
    w := Next(cfg, w, Move(c, 0));
    w := Next(cfg, w, Move(c, 0));
  }

  lemma Passes(cfg: Config, v: World, c: nat) returns (w: World)
    requires Reachable(cfg, v) && At(v, c) == HalfOpenState && cfg.halfOpenRequests >= 1
    ensures Reachable(cfg, w) && w.callers == v.callers[c := Returned(true)]
    ensures w.openings == v.openings && w.admitted == v.admitted + 1 && w.asked == v.asked + 1
  {
    w := Clears(cfg, v, c);
    w := Next(cfg, w, Move(c, 0));
  }

  /** So the quota does not limit the calls of one half-open period: however small it is, any
      number of callers that found the breaker open together are all let through after a
      single opening, each clearing the counter for itself. */
  lemma OneOpeningAdmitsAnyNumber(cfg: Config, n: nat) returns (w: World)
    requires cfg.enabled && cfg.failureThreshold <= Q.MAX32 && cfg.halfOpenRequests >= 1
    ensures Reachable(cfg, w) && Passed(w, n)
    ensures w.openings == 1 && w.admitted == n && w.asked == n
  {
    w := Release(cfg, n, n);
  }

  /** In every interleaving at most the quota is let through for each opening, and once
      more. */
  ghost predicate OpeningsBound(cfg: Config) {
    forall w :: Reachable(cfg, w) && w.asked <= Q.MAX32 ==> w.admitted <= Quota(cfg) * (w.openings + 1)
  }

  /** That holds if and only if the quota lets nothing through, or is so large that no run
      of up to 2^31 - 1 requests can exceed it twice. */
  lemma OpeningsBoundIff(cfg: Config)
    requires cfg.enabled && cfg.failureThreshold <= Q.MAX32
    ensures OpeningsBound(cfg) <==> cfg.halfOpenRequests < 1 || 2 * cfg.halfOpenRequests >= Q.MAX32
  {
    if 1 <= cfg.halfOpenRequests && 2 * cfg.halfOpenRequests < Q.MAX32 {
      var w := OneOpeningAdmitsAnyNumber(cfg, 2 * cfg.halfOpenRequests + 1);
      assert Quota(cfg) * (w.openings + 1) == 2 * cfg.halfOpenRequests;
    } else {
      forall w | Reachable(cfg, w) && w.asked <= Q.MAX32 ensures w.admitted <= Quota(cfg) * (w.openings + 1) {
        FewerThanTwoQuotas(cfg, w);
      }
    }
  }

  lemma FewerThanTwoQuotas(cfg: Config, w: World)
    requires Reachable(cfg, w) && w.asked <= Q.MAX32
    requires cfg.halfOpenRequests < 1 || 2 * cfg.halfOpenRequests >= Q.MAX32
    ensures w.admitted <= Quota(cfg) * (w.openings + 1)
  {
    var actions :| AllEnabled(cfg, START, actions) && Run(cfg, START, actions) == w;
    RunKeepsInv(cfg, START, actions);
    RunKeepsOpened(cfg, START, actions);
    if Quota(cfg) == 0 {
      assert w.admitted <= Quota(cfg) * w.clears + w.admittedSince;
    } else if w.openings >= 1 {
      TwoQuotas(Quota(cfg), w.openings);
    }
  }

  lemma TwoQuotas(quota: nat, openings: nat)
    requires openings >= 1
    ensures 2 * quota <= quota * (openings + 1)
  {
    assert quota * (openings + 1) == quota * (openings - 1) + 2 * quota;
    assert quota * (openings - 1) >= 0;
  }

  /** A caller that has found the breaker other than closed. */
  predicate FoundOpen(l: Local) {
    || l.LoadFailureTime? || l.ReadSince? || l.HalfOpenState? || l.HalfOpenFailures? || l.HalfOpenSuccesses?
    || l.HalfOpenRequests? || l.AddRequest?
  }

  /** Nobody asks before the first opening, and no more are let through than ask. */
  ghost predicate Opening(w: World) {
    && w.admitted <= w.asked
    && (w.openings == 0 ==>
          w.s.phase == Q.Closed && w.asked == 0 && forall c: nat :: !FoundOpen(At(w, c)))
  }

  lemma OwnStepOpens(cfg: Config, w: World, a: Action)
    requires Enabled(w, a) && w.openings == 0 && w.s.phase == Q.Closed && !FoundOpen(At(w, a.caller))
    ensures var w' := Step(cfg, w, a);
            w'.openings == 0 ==> w'.s.phase == Q.Closed && w'.asked == w.asked && !FoundOpen(At(w', a.caller))
  {
  }

  lemma OtherStays(cfg: Config, w: World, a: Action, c: nat)
    requires Enabled(w, a) && c != a.caller
    ensures var w' := Step(cfg, w, a); (c in w'.callers <==> c in w.callers) && At(w', c) == At(w, c)
  {
  }

  lemma MoverIsKnown(cfg: Config, w: World, a: Action)
    requires Enabled(w, a)
    ensures a.caller in Step(cfg, w, a).callers && Step(cfg, w, a).openings >= w.openings
  {
  }

  /** A step moves its own caller only. */
  lemma OthersStay(cfg: Config, w: World, a: Action)
    requires Enabled(w, a)
    ensures Step(cfg, w, a).callers == w.callers[a.caller := At(Step(cfg, w, a), a.caller)]
    ensures Step(cfg, w, a).openings >= w.openings
  {
    var callers := Step(cfg, w, a).callers;
    MoverIsKnown(cfg, w, a);
    forall c: nat | c != a.caller
      ensures (c in callers <==> c in w.callers) && (c in callers ==> callers[c] == w.callers[c])
    {
      OtherStays(cfg, w, a, c);
    }
  }

  lemma StepKeepsOpened(cfg: Config, w: World, a: Action)
    requires Opening(w) && Enabled(w, a)
    ensures Opening(Step(cfg, w, a))
  {
    var v := StepCounts(cfg, w, a);
    OthersStay(cfg, w, a);
    if w.openings == 0 {
      OwnStepOpens(cfg, w, a);
      forall c: nat | c != a.caller ensures At(Step(cfg, w, a), c) == At(w, c) {
      }
    }
  }

  lemma {:induction false} RunKeepsOpened(cfg: Config, w: World, actions: seq<Action>)
    requires Opening(w) && AllEnabled(cfg, w, actions)
    ensures Opening(Run(cfg, w, actions))
    decreases |actions|
  {
    if actions != [] {
      StepKeepsOpened(cfg, w, actions[0]);
      RunKeepsOpened(cfg, Step(cfg, w, actions[0]), actions[1..]);
    }
  }

  // ------------------------------------------------- a call nobody interrupts

  function Moved(cfg: Config, w: World, c: nat, now: int): World {
    if Enabled(w, Move(c, now)) then Step(cfg, w, Move(c, now)) else w
  }

  /** The caller moves alone, for at most n operations or until its call is over. */
  function Alone(cfg: Config, w: World, c: nat, now: int, n: nat): World
    decreases n
  {
    if n == 0 then w else Alone(cfg, Moved(cfg, w, c, now), c, now, n - 1)
  }

  lemma {:induction false} Over(cfg: Config, w: World, c: nat, now: int, n: nat)
    requires At(w, c).Idle? || At(w, c).Returned?
    ensures Alone(cfg, w, c, now, n) == w
    decreases n
  {
    if n > 0 {
      Over(cfg, w, c, now, n - 1);
    }
  }

  lemma AsksAlone(cfg: Config, w: World, c: nat, now: int, n: nat)
    requires At(w, c) == AddRequest && n >= 1
    ensures var w' := Alone(cfg, w, c, now, n); var (s, ok) := Q.AskHalfOpen(cfg, w.s);
            w'.s == s && At(w', c) == Returned(ok)
  {
    var w1 := Moved(cfg, w, c, now);
    Over(cfg, w1, c, now, n - 1);
  }

  lemma ResetsAlone(cfg: Config, w: World, c: nat, now: int, n: nat)
    requires At(w, c) == HalfOpenSuccesses && n >= 3
    ensures var w' := Alone(cfg, w, c, now, n);
            var (s, ok) := Q.AskHalfOpen(cfg, w.s.(successes := 0, halfOpenRequests := 0));
            w'.s == s && At(w', c) == Returned(ok)
  {
    var w1 := Moved(cfg, w, c, now);
    var w2 := Moved(cfg, w1, c, now);
    assert Alone(cfg, w, c, now, n) == Alone(cfg, w1, c, now, n - 1) == Alone(cfg, w2, c, now, n - 2);
    AsksAlone(cfg, w2, c, now, n - 2);
  }

  lemma TransitionAlone(cfg: Config, w: World, c: nat, now: int, n: nat)
    requires At(w, c) == HalfOpenState && n >= 5
    ensures var w' := Alone(cfg, w, c, now, n); var (s, ok) := Q.AskHalfOpen(cfg, Q.ToHalfOpen(w.s));
            w'.s == s && At(w', c) == Returned(ok)
  {
    var w1 := Moved(cfg, w, c, now);
    var w2 := Moved(cfg, w1, c, now);
    assert Alone(cfg, w, c, now, n) == Alone(cfg, w1, c, now, n - 1) == Alone(cfg, w2, c, now, n - 2);
    ResetsAlone(cfg, w2, c, now, n - 2);
  }

  /** Eight uninterrupted operations of Allow answer and leave the breaker as the call taken
      as one step does. */
  lemma AllowAlone(cfg: Config, w: World, c: nat, now: int)
    requires cfg.enabled && At(w, c) == LoadState
    ensures var w' := Alone(cfg, w, c, now, 8); var (s, ok) := Q.Ask(cfg, w.s, now);
            w'.s == s && At(w', c) == Returned(ok)
  {
    var w1 := Moved(cfg, w, c, now);
    assert Alone(cfg, w, c, now, 8) == Alone(cfg, w1, c, now, 7);
    match w.s.phase
    case Closed => Over(cfg, w1, c, now, 7);
    case HalfOpen => AsksAlone(cfg, w1, c, now, 7);
    case Open =>
      var w2 := Moved(cfg, w1, c, now);
      var w3 := Moved(cfg, w2, c, now);
      assert Alone(cfg, w1, c, now, 7) == Alone(cfg, w2, c, now, 6) == Alone(cfg, w3, c, now, 5);
      if now - w.s.lastFailure > cfg.openDuration {
        TransitionAlone(cfg, w3, c, now, 5);
      } else {
        Over(cfg, w3, c, now, 5);
      }
  }

  lemma ClearsAlone(cfg: Config, w: World, c: nat, now: int, n: nat)
    requires At(w, c) == ClosedSuccesses && n >= 2
    ensures var w' := Alone(cfg, w, c, now, n);
            w'.s == w.s.(successes := 0, halfOpenRequests := 0) && At(w', c) == Idle
  {
    var w1 := Moved(cfg, w, c, now);
    var w2 := Moved(cfg, w1, c, now);
    assert Alone(cfg, w, c, now, n) == Alone(cfg, w1, c, now, n - 1) == Alone(cfg, w2, c, now, n - 2);
    Over(cfg, w2, c, now, n - 2);
  }

  lemma ClosesAlone(cfg: Config, w: World, c: nat, now: int, n: nat)
    requires At(w, c) == ClosedState && n >= 4
    ensures var w' := Alone(cfg, w, c, now, n); w'.s == Q.ToClosed(w.s) && At(w', c) == Idle
  {
    var w1 := Moved(cfg, w, c, now);
    var w2 := Moved(cfg, w1, c, now);
    assert Alone(cfg, w, c, now, n) == Alone(cfg, w1, c, now, n - 1) == Alone(cfg, w2, c, now, n - 2);
    ClearsAlone(cfg, w2, c, now, n - 2);
  }

  /** So do six of RecordSuccess. */
  lemma RecordSuccessAlone(cfg: Config, w: World, c: nat, now: int)
    requires cfg.enabled && At(w, c) == SuccessState
    ensures var w' := Alone(cfg, w, c, now, 6); w'.s == Q.Success(cfg, w.s) && At(w', c) == Idle
  {
    var w1 := Moved(cfg, w, c, now);
    assert Alone(cfg, w, c, now, 6) == Alone(cfg, w1, c, now, 5);
    match w.s.phase
    case Open => Over(cfg, w1, c, now, 5);
    case Closed =>
      var w2 := Moved(cfg, w1, c, now);
      assert Alone(cfg, w1, c, now, 5) == Alone(cfg, w2, c, now, 4);
      Over(cfg, w2, c, now, 4);
    case HalfOpen =>
      var w2 := Moved(cfg, w1, c, now);
      assert Alone(cfg, w1, c, now, 5) == Alone(cfg, w2, c, now, 4);
      if Q.Inc32(w.s.successes) >= cfg.successThreshold {
        ClosesAlone(cfg, w2, c, now, 4);
      } else {
        Over(cfg, w2, c, now, 4);
      }
  }

  lemma OpensAlone(cfg: Config, w: World, c: nat, now: int, n: nat)
    requires At(w, c) == OpenState && n >= 3
    ensures var w' := Alone(cfg, w, c, now, n); w'.s == Q.ToOpen(w.s) && At(w', c) == Idle
  {
    var w1 := Moved(cfg, w, c, now);
    var w2 := Moved(cfg, w1, c, now);
    var w3 := Moved(cfg, w2, c, now);
    assert Alone(cfg, w, c, now, n) == Alone(cfg, w1, c, now, n - 1) == Alone(cfg, w2, c, now, n - 2);
    assert Alone(cfg, w2, c, now, n - 2) == Alone(cfg, w3, c, now, n - 3);
    Over(cfg, w3, c, now, n - 3);
  }

  /** And six of RecordFailure. */
  lemma RecordFailureAlone(cfg: Config, w: World, c: nat, now: int)
    requires cfg.enabled && At(w, c) == StampFailure
    ensures var w' := Alone(cfg, w, c, now, 6); w'.s == Q.Failure(cfg, w.s, now) && At(w', c) == Idle
  {
    var w1 := Moved(cfg, w, c, now);
    var w2 := Moved(cfg, w1, c, now);
    var w3 := Moved(cfg, w2, c, now);
    assert Alone(cfg, w, c, now, 6) == Alone(cfg, w1, c, now, 5) == Alone(cfg, w2, c, now, 4);
    assert Alone(cfg, w2, c, now, 4) == Alone(cfg, w3, c, now, 3);
    if At(w3, c).OpenState? {
      OpensAlone(cfg, w3, c, now, 3);
    } else {
      Over(cfg, w3, c, now, 3);
    }
  }
}
