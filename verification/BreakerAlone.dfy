/** The two models of the circuit breaker agree: a call whose steps nobody interrupts does
    what the call taken as one step does. */
module BreakerAlone {

  import opened Resilience
  import Steps = BreakerSteps

  function StateOf(w: Steps.World): State {
    State(w.failures, w.lastFailure, w.gate, w.phase)
  }

  /** What the clock shows to each of the reads; recording a failure reads it first. */
  function Reading(l: Steps.Local, clock: Clock): int {
    if l.ReadStamp? then clock.stamp else if l.ReadChecked? then clock.checked else clock.entered
  }

  function Next(cfg: Config, w: Steps.World, c: nat, clock: Clock): Steps.World {
    var a := Steps.Move(c, Reading(Steps.At(w, c), clock));
    if Steps.Enabled(w, a) then Steps.Step(cfg, w, a) else w
  }

  /** The caller moves alone, for at most n operations or until its call is over. */
  function Alone(cfg: Config, w: Steps.World, c: nat, clock: Clock, n: nat): Steps.World
    decreases n
  {
    if n == 0 then w else Alone(cfg, Next(cfg, w, c, clock), c, clock, n - 1)
  }

  /** The reads come in order, and after those that others have made. */
  predicate Ticks(w: Steps.World, clock: Clock) {
    w.clock < clock.entered < clock.stamp < clock.checked
  }

  ghost predicate Asks(cfg: Config, w: Steps.World, w': Steps.World, c: nat, r: (State, Verdict)) {
    StateOf(w') == r.0 && Steps.At(w', c) == Steps.Returned(r.1)
  }

  lemma {:induction false} Over(cfg: Config, w: Steps.World, c: nat, clock: Clock, n: nat)
    requires Steps.At(w, c).Idle? || Steps.At(w, c).Returned?
    ensures Alone(cfg, w, c, clock, n) == w
    decreases n
  {
    if n > 0 {
      Over(cfg, w, c, clock, n - 1);
    }
  }

  lemma GateAlone(cfg: Config, w: Steps.World, c: nat, staleness: int, clock: Clock, n: nat)
    requires Steps.At(w, c) == Steps.ReadStamp(staleness) && w.clock < clock.stamp < clock.checked && n >= 5
    ensures Asks(cfg, w, Alone(cfg, w, c, clock, n), c, Gate(StateOf(w), staleness, clock))
  {
    var w1 := Next(cfg, w, c, clock);
    var w2 := Next(cfg, w1, c, clock);
    assert Alone(cfg, w, c, clock, n) == Alone(cfg, w1, c, clock, n - 1) == Alone(cfg, w2, c, clock, n - 2);
    if w.gate == 0 {
      Over(cfg, w2, c, clock, n - 2);
    } else {
      StaleAlone(cfg, w2, c, staleness, clock, n - 2);
    }
  }

  lemma StaleAlone(cfg: Config, w: Steps.World, c: nat, staleness: int, clock: Clock, n: nat)
    requires Steps.At(w, c) == Steps.LoadGate(staleness, clock.stamp) && w.clock == clock.stamp < clock.checked
    requires w.gate != 0 && n >= 3
    ensures Asks(cfg, w, Alone(cfg, w, c, clock, n), c, Gate(StateOf(w), staleness, clock))
  {
    var w1 := Next(cfg, w, c, clock);
    var w2 := Next(cfg, w1, c, clock);
    var w3 := Next(cfg, w2, c, clock);
    assert Alone(cfg, w, c, clock, n) == Alone(cfg, w1, c, clock, n - 1) == Alone(cfg, w2, c, clock, n - 2);
    assert Alone(cfg, w2, c, clock, n - 2) == Alone(cfg, w3, c, clock, n - 3);
    if w2.callers[c].Returned? {
      Over(cfg, w2, c, clock, n - 2);
    } else {
      Over(cfg, w3, c, clock, n - 3);
    }
  }

  lemma OpenAlone(cfg: Config, w: Steps.World, c: nat, staleness: int, clock: Clock, n: nat)
    requires Steps.At(w, c) == Steps.LoadLastFailure(staleness) && w.phase == Open && Ticks(w, clock) && n >= 8
    ensures Asks(cfg, w, Alone(cfg, w, c, clock, n), c, Ask(cfg, StateOf(w), staleness, clock))
  {
    var w1 := Next(cfg, w, c, clock);
    var w2 := Next(cfg, w1, c, clock);
    assert Alone(cfg, w, c, clock, n) == Alone(cfg, w1, c, clock, n - 1) == Alone(cfg, w2, c, clock, n - 2);
    if w2.callers[c].Returned? {
      Over(cfg, w2, c, clock, n - 2);
    } else {
      var w3 := Next(cfg, w2, c, clock);
      assert Alone(cfg, w2, c, clock, n - 2) == Alone(cfg, w3, c, clock, n - 3);
      GateAlone(cfg, w3, c, staleness, clock, n - 3);
    }
  }

  /** Nine uninterrupted operations of IsOpen answer and leave the breaker as the call taken
      as one step does. */
  lemma IsOpenAlone(cfg: Config, w: Steps.World, c: nat, staleness: int, clock: Clock)
    requires Steps.At(w, c) == Steps.LoadPhase(staleness) && Ticks(w, clock)
    ensures Asks(cfg, w, Alone(cfg, w, c, clock, 9), c, Ask(cfg, StateOf(w), staleness, clock))
  {
    var w1 := Next(cfg, w, c, clock);
    assert Alone(cfg, w, c, clock, 9) == Alone(cfg, w1, c, clock, 8);
    match w.phase
    case Closed => Over(cfg, w1, c, clock, 8);
    case Open => OpenAlone(cfg, w1, c, staleness, clock, 8);
    case HalfOpen => GateAlone(cfg, w1, c, staleness, clock, 8);
  }

  lemma ClearsAlone(cfg: Config, w: Steps.World, c: nat, clock: Clock, n: nat)
    requires Steps.At(w, c) == Steps.SuccessFailures && n >= 3
    ensures StateOf(Alone(cfg, w, c, clock, n)) == State(0, w.lastFailure, 0, Closed)
  {
    var w1 := Next(cfg, w, c, clock);
    var w2 := Next(cfg, w1, c, clock);
    var w3 := Next(cfg, w2, c, clock);
    assert Alone(cfg, w, c, clock, n) == Alone(cfg, w1, c, clock, n - 1) == Alone(cfg, w2, c, clock, n - 2);
    assert Alone(cfg, w2, c, clock, n - 2) == Alone(cfg, w3, c, clock, n - 3);
    Over(cfg, w3, c, clock, n - 3);
  }

  lemma RecordSuccessAlone(cfg: Config, w: Steps.World, c: nat, attempt: int, clock: Clock)
    requires Steps.Enabled(w, Steps.Start(c, Steps.RecordSuccess(attempt)))
    ensures var begun := Steps.Step(cfg, w, Steps.Start(c, Steps.RecordSuccess(attempt)));
            StateOf(Alone(cfg, begun, c, clock, 4)) == Success(StateOf(w), attempt)
  {
    var begun := Steps.Step(cfg, w, Steps.Start(c, Steps.RecordSuccess(attempt)));
    if attempt == 0 {
      ClearsAlone(cfg, begun, c, clock, 4);
    } else {
      var w1 := Next(cfg, begun, c, clock);
      assert Alone(cfg, begun, c, clock, 4) == Alone(cfg, w1, c, clock, 3);
      if w.gate == attempt {
        ClearsAlone(cfg, w1, c, clock, 3);
      } else {
        Over(cfg, w1, c, clock, 3);
      }
    }
  }

  lemma CountsAlone(cfg: Config, w: Steps.World, c: nat, clock: Clock, n: nat)
    requires Steps.At(w, c) == Steps.FailureCount && Ticks(w, clock) && n >= 5
    ensures StateOf(Alone(cfg, w, c, clock, n))
            == State(w.failures + 1, clock.entered, 0, if w.failures + 1 >= cfg.threshold then Open else w.phase)
  {
    var w1 := Next(cfg, w, c, clock);
    var w2 := Next(cfg, w1, c, clock);
    assert Alone(cfg, w, c, clock, n) == Alone(cfg, w1, c, clock, n - 1) == Alone(cfg, w2, c, clock, n - 2);
    StampsAlone(cfg, w2, c, w.failures + 1, clock, n - 2);
  }

  lemma StampsAlone(cfg: Config, w: Steps.World, c: nat, count: int, clock: Clock, n: nat)
    requires Steps.At(w, c) == Steps.FailureStamp(count, clock.entered) && n >= 3
    ensures StateOf(Alone(cfg, w, c, clock, n))
            == State(w.failures, clock.entered, 0, if count >= cfg.threshold then Open else w.phase)
  {
    var w1 := Next(cfg, w, c, clock);
    var w2 := Next(cfg, w1, c, clock);
    var w3 := Next(cfg, w2, c, clock);
    assert Alone(cfg, w, c, clock, n) == Alone(cfg, w1, c, clock, n - 1) == Alone(cfg, w2, c, clock, n - 2);
    assert Alone(cfg, w2, c, clock, n - 2) == Alone(cfg, w3, c, clock, n - 3);
    Over(cfg, w3, c, clock, n - 3);
  }

  lemma RecordFailureAlone(cfg: Config, w: Steps.World, c: nat, attempt: int, clock: Clock)
    requires Steps.Enabled(w, Steps.Start(c, Steps.RecordFailure(attempt))) && Ticks(w, clock)
    ensures var begun := Steps.Step(cfg, w, Steps.Start(c, Steps.RecordFailure(attempt)));
            StateOf(Alone(cfg, begun, c, clock, 6)) == Failure(cfg, StateOf(w), attempt, clock.entered)
  {
    var begun := Steps.Step(cfg, w, Steps.Start(c, Steps.RecordFailure(attempt)));
    if attempt == 0 {
      CountsAlone(cfg, begun, c, clock, 6);
    } else {
      var w1 := Next(cfg, begun, c, clock);
      assert Alone(cfg, begun, c, clock, 6) == Alone(cfg, w1, c, clock, 5);
      if w.gate == attempt {
        CountsAlone(cfg, w1, c, clock, 5);
      } else {
        Over(cfg, w1, c, clock, 5);
      }
    }
  }
}
