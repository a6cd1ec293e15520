/** The circuit breaker with every atomic operation and every clock read as a step of
    its own, under any interleaving of any number of callers. */
module BreakerSteps {
  import opened Resilience

  datatype Call = IsOpen(staleness: int) | RecordSuccess(attempt: int) | RecordFailure(attempt: int)

  /** Where a caller is: each value names the operation it performs next. */
  datatype Local =
    | Idle
    | LoadPhase(staleness: int)
    | LoadLastFailure(staleness: int)
    | ReadEntered(staleness: int, lastFailure: int)
    | CasHalfOpen(staleness: int)
    | ReadStamp(staleness: int)
    | CasFree(staleness: int, now: int)
    | LoadGate(staleness: int, now: int)
    | ReadChecked(staleness: int, now: int, seen: int)
    | CasStale(staleness: int, now: int, seen: int)
    | Returned(verdict: Verdict)
    | SuccessLoadGate(attempt: int)
    | SuccessFailures
    | SuccessGate
    | SuccessPhase
    | FailureLoadGate(attempt: int)
    | FailureCount
    | FailureRead(count: int)
    | FailureStamp(count: int, at: int)
    | FailureGate(count: int)
    | FailurePhase(count: int)

  /** A successful gate CAS: the token put in and the value it replaced. */
  datatype Install = Install(token: int, replaced: int)

  datatype World = World(
    clock: int,
    failures: int,
    lastFailure: int,
    gate: int,
    phase: Phase,
    callers: map<nat, Local>,
    installs: seq<Install>)

  /** A caller starts a call, or performs its next operation; now is what the clock
      shows if that operation reads it. */
  datatype Action = Start(caller: nat, call: Call) | Move(caller: nat, now: int)

  const START := World(0, 0, 0, 0, Closed, map[], [])

  function At(w: World, caller: nat): Local {
    if caller in w.callers then w.callers[caller] else Idle
  }

  function Goto(w: World, caller: nat, next: Local): World {
    w.(callers := w.callers[caller := next])
  }

  function Grab(w: World, caller: nat, now: int): World {
    Goto(w.(gate := now, installs := w.installs + [Install(now, w.gate)]), caller, Returned(Admitted(now)))
  }

  predicate ReadsClock(l: Local) {
    l.ReadEntered? || l.ReadStamp? || l.ReadChecked? || l.FailureRead?
  }

  predicate Enabled(w: World, a: Action) {
    match a
    case Start(caller, _) => At(w, caller).Idle? || At(w, caller).Returned?
    case Move(caller, now) =>
      && !At(w, caller).Idle? && !At(w, caller).Returned?
      && (ReadsClock(At(w, caller)) ==> w.clock < now)
  }

  function Step(cfg: Config, w: World, a: Action): World
    requires Enabled(w, a)
  {
    match a
    case Start(c, IsOpen(staleness)) => Goto(w, c, LoadPhase(staleness))
    case Start(c, RecordSuccess(attempt)) => Goto(w, c, if attempt == 0 then SuccessFailures else SuccessLoadGate(attempt))
    case Start(c, RecordFailure(attempt)) => Goto(w, c, if attempt == 0 then FailureCount else FailureLoadGate(attempt))
    case Move(c, now) =>
      match At(w, c)
      case LoadPhase(staleness) =>
        Goto(w, c, match w.phase
                   case Closed => Returned(Admitted(0))
                   case Open => LoadLastFailure(staleness)
                   case HalfOpen => ReadStamp(staleness))
      case LoadLastFailure(staleness) => Goto(w, c, ReadEntered(staleness, w.lastFailure))
      case ReadEntered(staleness, lastFailure) =>
        Goto(w.(clock := now), c,
             if lastFailure + cfg.openDuration < now then CasHalfOpen(staleness) else Returned(Blocked))
      case CasHalfOpen(staleness) =>
        Goto(w.(phase := if w.phase == Open then HalfOpen else w.phase), c, ReadStamp(staleness))
      case ReadStamp(staleness) => Goto(w.(clock := now), c, CasFree(staleness, now))
      case CasFree(staleness, stamp) => if w.gate == 0 then Grab(w, c, stamp) else Goto(w, c, LoadGate(staleness, stamp))
      case LoadGate(staleness, stamp) => Goto(w, c, ReadChecked(staleness, stamp, w.gate))
      case ReadChecked(staleness, stamp, seen) =>
        Goto(w.(clock := now), c, if seen + staleness > now then Returned(Blocked) else CasStale(staleness, stamp, seen))
      case CasStale(staleness, stamp, seen) => if w.gate == seen then Grab(w, c, stamp) else Goto(w, c, Returned(Blocked))
      case SuccessLoadGate(attempt) => Goto(w, c, if w.gate != attempt then Idle else SuccessFailures)
      case SuccessFailures => Goto(w.(failures := 0), c, SuccessGate)
      case SuccessGate => Goto(w.(gate := 0), c, SuccessPhase)
      case SuccessPhase => Goto(w.(phase := Closed), c, Idle)
      case FailureLoadGate(attempt) => Goto(w, c, if w.gate != attempt then Idle else FailureCount)
      case FailureCount => Goto(w.(failures := w.failures + 1), c, FailureRead(w.failures + 1))
      case FailureRead(count) => Goto(w.(clock := now), c, FailureStamp(count, now))
      case FailureStamp(count, at) => Goto(w.(lastFailure := at), c, FailureGate(count))
      case FailureGate(count) => Goto(w.(gate := 0), c, FailurePhase(count))
      case FailurePhase(count) => Goto(w.(phase := if count >= cfg.threshold then Open else w.phase), c, Idle)
  }

  predicate AllEnabled(cfg: Config, w: World, actions: seq<Action>)
    decreases |actions|
  {
    actions == [] || (Enabled(w, actions[0]) && AllEnabled(cfg, Step(cfg, w, actions[0]), actions[1..]))
  }

  function Run(cfg: Config, w: World, actions: seq<Action>): World
    requires AllEnabled(cfg, w, actions)
    decreases |actions|
  {
    if actions == [] then w else Run(cfg, Step(cfg, w, actions[0]), actions[1..])
  }

  // -------------------------------------------------------- the invariant

  /** A caller that has taken its stamp and not yet returned. */
  predicate Stamped(l: Local) {
    l.CasFree? || l.LoadGate? || l.ReadChecked? || l.CasStale?
  }

  predicate Installed(installs: seq<Install>, token: int) {
    exists i :: 0 <= i < |installs| && installs[i].token == token
  }

  ghost predicate Chained(installs: seq<Install>, clock: int) {
    && (forall i :: 0 <= i < |installs| ==> 0 < installs[i].token <= clock)
    && (forall i, j :: 0 <= i < j < |installs| ==> installs[i].token != installs[j].token)
    && (forall i :: 0 <= i < |installs| && installs[i].replaced != 0
          ==> i > 0 && installs[i].replaced == installs[i - 1].token)
  }

  /** A caller about to replace a token has waited for as long as it asked to; window bounds
      the staleness of every call from below. */
  predicate Waits(w: World, c: nat, window: int) {
    var l := At(w, c);
    && (l.CasStale? ==> l.seen + l.staleness <= w.clock)
    && (Asking(l) ==> window <= l.staleness)
  }

  ghost predicate AllWait(w: World, window: int) {
    forall c: nat :: Waits(w, c, window)
  }

  ghost predicate CallerOk(w: World, c: nat, window: int) {
    var l := At(w, c);
    && (Stamped(l) ==> 0 < l.now <= w.clock && !Installed(w.installs, l.now))
    && Waits(w, c, window)
  }

  predicate Asking(l: Local) {
    l.LoadPhase? || l.LoadLastFailure? || l.ReadEntered? || l.CasHalfOpen? || l.ReadStamp? || Stamped(l)
  }

  ghost predicate Inv(w: World, window: int) {
    && 0 <= w.clock
    && Chained(w.installs, w.clock)
    && (w.gate != 0 ==> w.installs != [] && w.gate == w.installs[|w.installs| - 1].token)
    && (forall c: nat :: CallerOk(w, c, window))
    && (forall c: nat, d: nat :: c != d && Stamped(At(w, c)) && Stamped(At(w, d)) ==> At(w, c).now != At(w, d).now)
  }

  predicate Patient(a: Action, window: int) {
    a.Start? && a.call.IsOpen? ==> window <= a.call.staleness
  }

  /** What one step of caller me can do to the gate. */
  ghost predicate MovesGate(w: World, w': World, me: nat) {
    var l, l' := At(w, me), At(w', me);
    if w'.installs == w.installs then w'.gate == w.gate || w'.gate == 0
    else Stamped(l) && !Stamped(l') && w'.gate == l.now && w'.installs == w.installs + [Install(l.now, w.gate)]
  }

  /** And to the clock and the callers. */
  ghost predicate MovesCaller(w: World, w': World, me: nat, window: int) {
    var l, l' := At(w, me), At(w', me);
    && w.clock <= w'.clock
    && (forall c: nat :: c != me ==> At(w', c) == At(w, c))
    && (Stamped(l') ==> (Stamped(l) && l'.now == l.now) || l'.now == w'.clock > w.clock)
    && Waits(w', me, window)
  }

  ghost predicate Moves(w: World, w': World, me: nat, window: int) {
    MovesGate(w, w', me) && MovesCaller(w, w', me, window)
  }

  lemma StepMovesGate(cfg: Config, w: World, a: Action)
    requires Enabled(w, a)
    ensures MovesGate(w, Step(cfg, w, a), a.caller)
  {
    assert Step(cfg, w, a).installs == w.installs || |Step(cfg, w, a).installs| == |w.installs| + 1;
  }

  lemma StepMovesCaller(cfg: Config, w: World, a: Action, window: int)
    requires Enabled(w, a) && Patient(a, window) && Waits(w, a.caller, window)
    ensures MovesCaller(w, Step(cfg, w, a), a.caller, window)
  {
  }

  lemma MovesKeepCaller(w: World, w': World, me: nat, window: int, c: nat)
    requires Inv(w, window) && Moves(w, w', me, window)
    ensures CallerOk(w', c, window)
  {
    assert CallerOk(w, c, window);
    assert CallerOk(w, me, window);
    if Stamped(At(w', c)) && w'.installs != w.installs {
      NotInstalledByOther(w.installs, Install(At(w, me).now, w.gate), At(w, c).now);
    }
  }

  lemma MovesKeepChain(w: World, w': World, me: nat, window: int)
    requires Inv(w, window) && Moves(w, w', me, window)
    ensures Chained(w'.installs, w'.clock)
    ensures w'.gate != 0 ==> w'.installs != [] && w'.gate == w'.installs[|w'.installs| - 1].token
  {
    if w'.installs != w.installs {
      assert CallerOk(w, me, window);
      GrowChain(w.installs, Install(At(w, me).now, w.gate), w.clock);
    }
  }

  lemma MovesKeepInv(w: World, w': World, me: nat, window: int)
    requires Inv(w, window) && Moves(w, w', me, window)
    ensures Inv(w', window)
  {
    MovesKeepChain(w, w', me, window);
    forall c: nat ensures CallerOk(w', c, window) {
      MovesKeepCaller(w, w', me, window, c);
    }
    forall c: nat, d: nat | c != d && Stamped(At(w', c)) && Stamped(At(w', d))
      ensures At(w', c).now != At(w', d).now
    {
      assert CallerOk(w, c, window) && CallerOk(w, d, window);
    }
  }

  lemma StepKeepsInv(cfg: Config, w: World, a: Action, window: int)
    requires Inv(w, window) && Enabled(w, a) && Patient(a, window)
    ensures Inv(Step(cfg, w, a), window) && w.clock <= Step(cfg, w, a).clock
  {
    assert CallerOk(w, a.caller, window);
    StepMovesGate(cfg, w, a);
    StepMovesCaller(cfg, w, a, window);
    MovesKeepInv(w, Step(cfg, w, a), a.caller, window);
  }

  lemma NotInstalledByOther(installs: seq<Install>, next: Install, token: int)
    requires !Installed(installs, token) && next.token != token
    ensures !Installed(installs + [next], token)
  {
    var all := installs + [next];
    assert forall i :: 0 <= i < |all| ==> all[i] == if i < |installs| then installs[i] else next;
  }

  lemma GrowChain(installs: seq<Install>, next: Install, clock: int)
    requires Chained(installs, clock) && 0 < next.token <= clock && !Installed(installs, next.token)
    requires next.replaced != 0 ==> installs != [] && next.replaced == installs[|installs| - 1].token
    ensures Chained(installs + [next], clock)
  {
  }

  lemma StartHolds(window: int)
    ensures Inv(START, window)
  {
  }

  predicate AllPatient(actions: seq<Action>, window: int) {
    forall i :: 0 <= i < |actions| ==> Patient(actions[i], window)
  }

  lemma {:induction false} RunKeepsInv(cfg: Config, w: World, actions: seq<Action>, window: int)
    requires Inv(w, window) && AllEnabled(cfg, w, actions) && AllPatient(actions, window)
    ensures Inv(Run(cfg, w, actions), window) && w.clock <= Run(cfg, w, actions).clock
    decreases |actions|
  {
    if actions != [] {
      StepKeepsInv(cfg, w, actions[0], window);
      RunKeepsInv(cfg, Step(cfg, w, actions[0]), actions[1..], window);
    }
  }

  lemma ReachedInv(cfg: Config, actions: seq<Action>, window: int)
    requires AllEnabled(cfg, START, actions) && AllPatient(actions, window)
    ensures Inv(Run(cfg, START, actions), window)
  {
    StartHolds(window);
    RunKeepsInv(cfg, START, actions, window);
  }

  lemma ReachedWait(cfg: Config, actions: seq<Action>, window: int)
    requires AllEnabled(cfg, START, actions) && AllPatient(actions, window)
    ensures AllWait(Run(cfg, START, actions), window)
  {
    ReachedInv(cfg, actions, window);
    forall c: nat ensures Waits(Run(cfg, START, actions), c, window) {
      assert CallerOk(Run(cfg, START, actions), c, window);
    }
  }

  // ------------------------------------------------------- single flight

  predicate ClearsGate(w: World, a: Action) {
    a.Move? && (At(w, a.caller).SuccessGate? || At(w, a.caller).FailureGate?)
  }

  predicate AdmittedBy(cfg: Config, w: World, a: Action)
    requires Enabled(w, a)
  {
    var l := At(Step(cfg, w, a), a.caller);
    l.Returned? && l.verdict.Admitted?
  }

  /** While the gate holds a token whose window has not passed, a step that is not the
      clearing step of a record leaves the gate alone, and it admits a caller exactly
      when that caller finds the breaker closed. */
  lemma FreshGateHolds(cfg: Config, w: World, a: Action, window: int)
    requires AllWait(w, window) && Enabled(w, a) && Patient(a, window)
    requires w.gate != 0 && Step(cfg, w, a).clock < w.gate + window && !ClearsGate(w, a)
    ensures Step(cfg, w, a).gate == w.gate && Step(cfg, w, a).installs == w.installs
    ensures AdmittedBy(cfg, w, a) <==> a.Move? && At(w, a.caller).LoadPhase? && w.phase == Closed
  {
    assert Waits(w, a.caller, window);
  }

  /** No step of the run clears the gate or ends with the clock past limit. */
  predicate Quiet(cfg: Config, w: World, actions: seq<Action>, limit: int)
    requires AllEnabled(cfg, w, actions)
    decreases |actions|
  {
    actions == [] ||
    (&& !ClearsGate(w, actions[0]) && Step(cfg, w, actions[0]).clock < limit
     && Quiet(cfg, Step(cfg, w, actions[0]), actions[1..], limit))
  }

  lemma QuietStep(cfg: Config, w: World, a: Action, window: int)
    requires AllWait(w, window) && Enabled(w, a) && Patient(a, window)
    requires w.gate != 0 && Step(cfg, w, a).clock < w.gate + window && !ClearsGate(w, a)
    ensures var w' := Step(cfg, w, a); AllWait(w', window) && w'.gate == w.gate && w'.installs == w.installs
  {
    assert Waits(w, a.caller, window);
    StepMovesCaller(cfg, w, a, window);
    FreshGateHolds(cfg, w, a, window);
    forall c: nat ensures Waits(Step(cfg, w, a), c, window) {
      assert Waits(w, c, window);
    }
  }

  /** After its first step a quiet run is a quiet run. */
  lemma QuietRest(cfg: Config, w: World, actions: seq<Action>, window: int)
    returns (w': World, rest: seq<Action>)
    requires AllWait(w, window) && AllEnabled(cfg, w, actions) && AllPatient(actions, window)
    requires w.gate != 0 && Quiet(cfg, w, actions, w.gate + window) && actions != []
    ensures AllWait(w', window) && w'.gate == w.gate && w'.installs == w.installs
    ensures |rest| < |actions| && AllEnabled(cfg, w', rest) && AllPatient(rest, window)
    ensures Quiet(cfg, w', rest, w.gate + window)
    ensures Run(cfg, w', rest) == Run(cfg, w, actions)
  {
    assert Patient(actions[0], window);
    w', rest := Step(cfg, w, actions[0]), actions[1..];
    QuietStep(cfg, w, actions[0], window);
  }

  lemma {:induction false} SingleFlightFrom(cfg: Config, w: World, actions: seq<Action>, window: int)
    requires AllWait(w, window) && AllEnabled(cfg, w, actions) && AllPatient(actions, window)
    requires w.gate != 0 && Quiet(cfg, w, actions, w.gate + window)
    ensures Run(cfg, w, actions).gate == w.gate && Run(cfg, w, actions).installs == w.installs
    decreases |actions|
  {
    if actions != [] {
      var w', rest := QuietRest(cfg, w, actions, window);
      SingleFlightFrom(cfg, w', rest, window);
    }
  }

  lemma {:induction false} Concat(cfg: Config, w: World, a: seq<Action>, b: seq<Action>)
    ensures AllEnabled(cfg, w, a + b) <==> AllEnabled(cfg, w, a) && AllEnabled(cfg, Run(cfg, w, a), b)
    ensures AllEnabled(cfg, w, a + b) ==> Run(cfg, w, a + b) == Run(cfg, Run(cfg, w, a), b)
    decreases |a|
  {
    if a == [] {
      assert a + b == b;
    } else {
      assert (a + b)[0] == a[0] && (a + b)[1..] == a[1..] + b;
      if Enabled(w, a[0]) {
        Concat(cfg, Step(cfg, w, a[0]), a[1..], b);
      }
    }
  }

  /** In every interleaving: from the moment the gate holds a token until a record clears
      it or its window has passed, no other caller is let through the gate. */
  lemma SingleFlight(cfg: Config, before: seq<Action>, during: seq<Action>, window: int)
    requires AllEnabled(cfg, START, before) && AllEnabled(cfg, Run(cfg, START, before), during)
    requires AllPatient(before, window) && AllPatient(during, window)
    requires var w := Run(cfg, START, before); w.gate != 0 && Quiet(cfg, w, during, w.gate + window)
    ensures var w := Run(cfg, START, before); var w' := Run(cfg, w, during);
            w'.gate == w.gate && w'.installs == w.installs
  {
    ReachedWait(cfg, before, window);
    SingleFlightFrom(cfg, Run(cfg, START, before), during, window);
  }

  /** In every interleaving: a token is installed at most once, it replaces nothing or
      the token installed just before it, and at most one token replaces it. */
  lemma TokensAreInstalledOnce(cfg: Config, actions: seq<Action>, window: int)
    requires AllEnabled(cfg, START, actions) && AllPatient(actions, window)
    ensures var installs := Run(cfg, START, actions).installs;
            forall i, j :: 0 <= i < j < |installs| ==>
              && installs[i].token != installs[j].token
              && (installs[j].replaced != 0 ==> installs[i].replaced != installs[j].replaced)
              && (installs[j].replaced == installs[i].token ==> j == i + 1)
  {
    ReachedInv(cfg, actions, window);
    var installs := Run(cfg, START, actions).installs;
    forall i, j | 0 <= i < j < |installs|
      ensures installs[j].replaced != 0 ==> installs[i].replaced != installs[j].replaced
      ensures installs[j].replaced == installs[i].token ==> j == i + 1
    {
      if i > 0 {
        assert installs[i - 1].token != installs[j - 1].token;
      }
      if installs[j].replaced == installs[i].token {
        assert installs[j - 1].token == installs[i].token;
        assert i <= j - 1;
      }
    }
  }

  /** Every admission through the gate is one of the installs, and only those are. */
  lemma AdmissionsAreInstalls(cfg: Config, w: World, a: Action, window: int)
    requires Inv(w, window) && Enabled(w, a)
    ensures AdmittedBy(cfg, w, a) && At(Step(cfg, w, a), a.caller).verdict.attempt != 0
       <==> Step(cfg, w, a).installs != w.installs
    ensures var l := At(Step(cfg, w, a), a.caller);
            Step(cfg, w, a).installs != w.installs ==>
              l.Returned? && l.verdict.Admitted? &&
              Step(cfg, w, a).installs == w.installs + [Install(l.verdict.attempt, w.gate)]
  {
    assert CallerOk(w, a.caller, window);
    assert Step(cfg, w, a).installs == w.installs || |Step(cfg, w, a).installs| == |w.installs| + 1;
  }

  // ------------------------------------ what the gate does not protect from

  ghost predicate Reachable(cfg: Config, w: World, window: int) {
    exists actions: seq<Action> :: AllEnabled(cfg, START, actions) && AllPatient(actions, window) && Run(cfg, START, actions) == w
  }

  lemma Next(cfg: Config, w: World, a: Action, window: int) returns (w': World)
    requires Reachable(cfg, w, window) && Enabled(w, a) && Patient(a, window)
    ensures w' == Step(cfg, w, a) && Reachable(cfg, w', window)
  {
    var actions :| AllEnabled(cfg, START, actions) && AllPatient(actions, window) && Run(cfg, START, actions) == w;
    w' := Step(cfg, w, a);
    Concat(cfg, START, actions, [a]);
    assert AllEnabled(cfg, w, [a]) && Run(cfg, w, [a]) == w';
    assert AllPatient(actions + [a], window);
  }

  const TRIGGER_HAPPY := Config(1, 0)

  /** Caller 0 reports a failure, which opens the breaker. */
  lemma Failing() returns (w: World)
    ensures Reachable(TRIGGER_HAPPY, w, 100) && w == World(0, 0, 0, 0, Closed, map[0 := FailureCount], [])
  {
    var none: seq<Action> := [];
    assert AllEnabled(TRIGGER_HAPPY, START, none) && AllPatient(none, 100) && Run(TRIGGER_HAPPY, START, none) == START;
    w := Next(TRIGGER_HAPPY, START, Start(0, RecordFailure(0)), 100);
  }

  lemma Counting() returns (w: World)
    ensures Reachable(TRIGGER_HAPPY, w, 100) && w == World(0, 1, 0, 0, Closed, map[0 := FailureRead(1)], [])
  {
    w := Failing();
    w := Next(TRIGGER_HAPPY, w, Move(0, 0), 100);
  }

  lemma Tripping() returns (w: World)
    ensures Reachable(TRIGGER_HAPPY, w, 100) && w == World(1, 1, 0, 0, Closed, map[0 := FailureStamp(1, 1)], [])
  {
    w := Counting();
    w := Next(TRIGGER_HAPPY, w, Move(0, 1), 100);
  }

  lemma Stamping() returns (w: World)
    ensures Reachable(TRIGGER_HAPPY, w, 100) && w == World(1, 1, 1, 0, Closed, map[0 := FailureGate(1)], [])
  {
    w := Tripping();
    w := Next(TRIGGER_HAPPY, w, Move(0, 0), 100);
  }

  lemma Clearing() returns (w: World)
    ensures Reachable(TRIGGER_HAPPY, w, 100) && w == World(1, 1, 1, 0, Closed, map[0 := FailurePhase(1)], [])
  {
    w := Stamping();
    w := Next(TRIGGER_HAPPY, w, Move(0, 0), 100);
  }

  lemma Tripped() returns (w: World)
    ensures Reachable(TRIGGER_HAPPY, w, 100) && w == World(1, 1, 1, 0, Open, map[0 := Idle], [])
  {
    w := Clearing();
    w := Next(TRIGGER_HAPPY, w, Move(0, 0), 100);
  }

  /** Caller 0 is admitted as the probe, with token 3. */
  lemma Recovering() returns (w: World)
    ensures Reachable(TRIGGER_HAPPY, w, 100)
    ensures w == World(2, 1, 1, 0, Open, map[0 := CasHalfOpen(100)], [])
  {
    w := Tripped();
    w := Next(TRIGGER_HAPPY, w, Start(0, IsOpen(100)), 100);
    w := Next(TRIGGER_HAPPY, w, Move(0, 0), 100);
    w := Next(TRIGGER_HAPPY, w, Move(0, 0), 100);
    w := Next(TRIGGER_HAPPY, w, Move(0, 2), 100);
  }

  lemma Probing() returns (w: World)
    ensures Reachable(TRIGGER_HAPPY, w, 100)
    ensures w == World(3, 1, 1, 3, HalfOpen, map[0 := Returned(Admitted(3))], [Install(3, 0)])
  {
    w := Recovering();
    w := Next(TRIGGER_HAPPY, w, Move(0, 0), 100);
    w := Next(TRIGGER_HAPPY, w, Move(0, 3), 100);
    w := Next(TRIGGER_HAPPY, w, Move(0, 0), 100);
  }

  /** Caller 1 takes its stamp; caller 0 reports success and clears the gate. */
  lemma Waiting() returns (w: World)
    ensures Reachable(TRIGGER_HAPPY, w, 100)
    ensures w == World(4, 1, 1, 3, HalfOpen, map[0 := Returned(Admitted(3)), 1 := CasFree(100, 4)], [Install(3, 0)])
  {
    w := Probing();
    w := Next(TRIGGER_HAPPY, w, Start(1, IsOpen(100)), 100);
    w := Next(TRIGGER_HAPPY, w, Move(1, 0), 100);
    w := Next(TRIGGER_HAPPY, w, Move(1, 4), 100);
  }

  lemma Reporting() returns (w: World)
    ensures Reachable(TRIGGER_HAPPY, w, 100)
    ensures w == World(4, 1, 1, 3, HalfOpen, map[0 := SuccessLoadGate(3), 1 := CasFree(100, 4)], [Install(3, 0)])
  {
    w := Waiting();
    w := Next(TRIGGER_HAPPY, w, Start(0, RecordSuccess(3)), 100);
  }

  lemma Overtaking() returns (w: World)
    ensures Reachable(TRIGGER_HAPPY, w, 100)
    ensures w == World(4, 1, 1, 3, HalfOpen, map[0 := SuccessFailures, 1 := CasFree(100, 4)], [Install(3, 0)])
  {
    w := Reporting();
    w := Next(TRIGGER_HAPPY, w, Move(0, 0), 100);
  }

  lemma Forgetting() returns (w: World)
    ensures Reachable(TRIGGER_HAPPY, w, 100)
    ensures w == World(4, 0, 1, 3, HalfOpen, map[0 := SuccessGate, 1 := CasFree(100, 4)], [Install(3, 0)])
  {
    w := Overtaking();
    w := Next(TRIGGER_HAPPY, w, Move(0, 0), 100);
  }

  lemma Overtaken() returns (w: World)
    ensures Reachable(TRIGGER_HAPPY, w, 100)
    ensures w == World(4, 0, 1, 0, HalfOpen, map[0 := SuccessPhase, 1 := CasFree(100, 4)], [Install(3, 0)])
  {
    w := Forgetting();
    w := Next(TRIGGER_HAPPY, w, Move(0, 0), 100);
  }

  lemma Taken() returns (w: World)
    ensures Reachable(TRIGGER_HAPPY, w, 100)
    ensures w == World(4, 0, 1, 4, HalfOpen, map[0 := SuccessPhase, 1 := Returned(Admitted(4))], [Install(3, 0), Install(4, 0)])
  {
    w := Overtaken();
    w := Next(TRIGGER_HAPPY, w, Move(1, 0), 100);
  }

  lemma Closing() returns (w: World)
    ensures Reachable(TRIGGER_HAPPY, w, 100)
    ensures w == World(4, 0, 1, 4, Closed, map[0 := Idle, 1 := Returned(Admitted(4))], [Install(3, 0), Install(4, 0)])
  {
    w := Taken();
    w := Next(TRIGGER_HAPPY, w, Move(0, 0), 100);
  }

  /** Between clearing the gate and closing the breaker a record leaves room for another
      caller to take the gate.  The breaker then closes with a fresh token in the gate,
      and a third caller is admitted beside that probe. */
  lemma ClosedCallersRunBesideProbe() returns (w: World)
    ensures Reachable(TRIGGER_HAPPY, w, 100)
    ensures w.gate == 4 && w.clock < w.gate + 100 && w.phase == Closed
    ensures At(w, 1) == Returned(Admitted(4)) && At(w, 2) == Returned(Admitted(0))
  {
    w := Closing();
    w := Next(TRIGGER_HAPPY, w, Start(2, IsOpen(100)), 100);
    w := Next(TRIGGER_HAPPY, w, Move(2, 0), 100);
  }
}
