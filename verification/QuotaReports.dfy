/** The interleaved breaker of QuotaSteps when every call that is let through reports exactly
    once: when it can get stuck half-open, with nothing outstanding. */
module QuotaReports {

  import Q = QuotaBreaker
  import opened QuotaSteps

  /** A caller that was let through reports next, and nobody else reports. */
  predicate Reports(w: World, a: Action) {
    a.Start? ==> (At(w, a.caller) == Returned(true) <==> !a.call.Allow?)
  }

  /** Reached by n such steps. */
  ghost predicate Reaches(cfg: Config, w: World, n: nat)
    decreases n
  {
    if n == 0 then w == START
    else exists v: World, a: Action ::
      Reaches(cfg, v, n - 1) && Enabled(v, a) && Reports(v, a) && Step(cfg, v, a) == w
  }

  /** Let through, and not yet counted. */
  predicate Owes(l: Local) {
    || l == Returned(true)
    || l.SuccessState? || l.AddSuccess? || l.StampFailure? || l.AddFailure? || l.FailureState?
  }

  function Owing(w: World): set<nat> {
    set c | c in w.callers && Owes(w.callers[c])
  }

  /** Bound to close the breaker, until the successes have been cleared. */
  predicate Closing(l: Local) {
    l.ClosedState? || l.ClosedFailures? || l.ClosedSuccesses?
  }

  /** Bound to change the phase or to clear the requests. */
  predicate Turning(l: Local) {
    || Closing(l) || l.ClosedRequests?
    || l.HalfOpenState? || l.HalfOpenFailures? || l.HalfOpenSuccesses? || l.HalfOpenRequests?
    || l.OpenState? || l.OpenSuccesses? || l.OpenRequests?
  }

  predicate Settled(w: World) {
    forall c :: c in w.callers ==> !Turning(w.callers[c])
  }

  predicate SomeoneCloses(w: World) {
    exists c :: c in w.callers && Closing(w.callers[c])
  }

  predicate Admits(cfg: Config, w: World) {
    Q.Inc32(w.s.halfOpenRequests) <= cfg.halfOpenRequests
  }

  /** Half-open with nothing outstanding and nobody about to change that, and yet the next
      call is turned away. */
  predicate Stuck(cfg: Config, w: World) {
    w.s.phase == Q.HalfOpen && Settled(w) && Owing(w) == {} && !Admits(cfg, w)
  }

  // -------------------------------------------------------- the invariant

  /** The quota has been let through before anybody is turned away; a count of successes out
      of range is about to be cleared; and while nobody is, every call let through since the
      requests were last cleared is outstanding or has been counted as a success. */
  ghost predicate Inv(cfg: Config, w: World) {
    && Q.Min(w.s.halfOpenRequests, cfg.halfOpenRequests) <= w.admittedSince
    && (0 <= w.s.successes < cfg.successThreshold || SomeoneCloses(w))
    && (Settled(w) && w.s.phase == Q.HalfOpen ==> w.admittedSince <= w.s.successes + |Owing(w)|)
  }

  predicate Sane(cfg: Config) {
    cfg.enabled && 1 <= cfg.successThreshold <= Q.MAX32
  }

  function One(b: bool): nat { if b then 1 else 0 }

  /** What one step does to the caller that takes it and to what it shares with others. */
  lemma StepBalance(cfg: Config, w: World, a: Action)
    requires Sane(cfg) && Enabled(w, a) && Reports(w, a)
    ensures var l, w' := At(w, a.caller), Step(cfg, w, a); var l' := At(w', a.caller);
            && (Turning(l) && !Turning(l') ==> w'.admittedSince == 0)
            && (!Turning(l) ==> w'.s.phase == w.s.phase)
            && (!Turning(l) && !Turning(l') && w.s.phase == Q.HalfOpen && 0 <= w.s.successes < cfg.successThreshold
                ==> w'.admittedSince - w.admittedSince <= w'.s.successes - w.s.successes + One(Owes(l')) - One(Owes(l)))
  {
  }

  lemma StepSuccesses(cfg: Config, w: World, a: Action)
    requires Sane(cfg) && Enabled(w, a) && Reports(w, a)
    ensures var l, w' := At(w, a.caller), Step(cfg, w, a); var l' := At(w', a.caller);
            && (Closing(l) && !Closing(l') ==> w'.s.successes == 0)
            && (0 <= w.s.successes < cfg.successThreshold ==> 0 <= w'.s.successes < cfg.successThreshold || Closing(l'))
  {
  }

  lemma StepRequests(cfg: Config, w: World, a: Action)
    requires Enabled(w, a) && Q.Min(w.s.halfOpenRequests, cfg.halfOpenRequests) <= w.admittedSince
    ensures var w' := Step(cfg, w, a); Q.Min(w'.s.halfOpenRequests, cfg.halfOpenRequests) <= w'.admittedSince
  {
    var v := StepCounts(cfg, w, a);
  }

  lemma SizesDiffer(before: set<nat>, after: set<nat>, me: nat)
    requires after - {me} == before - {me}
    ensures |after| - One(me in after) == |before| - One(me in before)
  {
    var others := before - {me};
    assert before == if me in before then others + {me} else others;
    assert after == if me in after then others + {me} else others;
  }

  lemma OwingAfter(w: World, w': World, me: nat)
    requires w'.callers == w.callers[me := At(w', me)]
    ensures |Owing(w')| - One(Owes(At(w', me))) == |Owing(w)| - One(Owes(At(w, me)))
  {
    forall c | c != me ensures c in Owing(w') <==> c in Owing(w) {
    }
    SizesDiffer(Owing(w), Owing(w'), me);
  }

  lemma StepKeepsClosing(cfg: Config, w: World, a: Action)
    requires Sane(cfg) && Inv(cfg, w) && Enabled(w, a) && Reports(w, a)
    ensures var w' := Step(cfg, w, a); 0 <= w'.s.successes < cfg.successThreshold || SomeoneCloses(w')
  {
    var me, w' := a.caller, Step(cfg, w, a);
    OthersStay(cfg, w, a);
    StepSuccesses(cfg, w, a);
    if SomeoneCloses(w) {
      var c :| c in w.callers && Closing(w.callers[c]);
      assert c != me ==> Closing(w'.callers[c]);
    }
    assert Closing(At(w', me)) ==> Closing(w'.callers[me]);
  }

  lemma StepKeepsBalance(cfg: Config, w: World, a: Action)
    requires Sane(cfg) && Inv(cfg, w) && Enabled(w, a) && Reports(w, a)
    requires var w' := Step(cfg, w, a); Settled(w') && w'.s.phase == Q.HalfOpen
    ensures var w' := Step(cfg, w, a); w'.admittedSince <= w'.s.successes + |Owing(w')|
  {
    var me, w' := a.caller, Step(cfg, w, a);
    OthersStay(cfg, w, a);
    StepBalance(cfg, w, a);
    StepKeepsClosing(cfg, w, a);
    OwingAfter(w, w', me);
    assert !Turning(At(w', me));
    if !Turning(At(w, me)) {
      forall c | c in w.callers ensures !Turning(w.callers[c]) {
        assert c in w'.callers && !Turning(w'.callers[c]);
      }
    }
  }

  lemma StepKeepsInv(cfg: Config, w: World, a: Action)
    requires Sane(cfg) && Inv(cfg, w) && Enabled(w, a) && Reports(w, a)
    ensures Inv(cfg, Step(cfg, w, a))
  {
    var w' := Step(cfg, w, a);
    StepRequests(cfg, w, a);
    StepKeepsClosing(cfg, w, a);
    if Settled(w') && w'.s.phase == Q.HalfOpen {
      StepKeepsBalance(cfg, w, a);
    }
  }

  lemma {:induction false} ReachesInv(cfg: Config, w: World, n: nat)
    requires Sane(cfg) && Reaches(cfg, w, n)
    ensures Inv(cfg, w)
    decreases n
  {
    if n > 0 {
      var v: World, a: Action :|
        Reaches(cfg, v, n - 1) && Enabled(v, a) && Reports(v, a) && Step(cfg, v, a) == w;
      ReachesInv(cfg, v, n - 1);
      StepKeepsInv(cfg, v, a);
    }
  }

  /** In every interleaving in which each call that is let through reports once: if the quota
      covers the successes needed, a half-open breaker with nothing outstanding and nobody in
      the middle of a transition lets the next call through. */
  lemma NeverStuck(cfg: Config, w: World, n: nat)
    requires Sane(cfg) && cfg.successThreshold <= cfg.halfOpenRequests < Q.MAX32 && Reaches(cfg, w, n)
    ensures !Stuck(cfg, w)
  {
    ReachesInv(cfg, w, n);
  }

  // --------------------------------- calls one at a time are interleavings too

  /** The callers are between calls, and as many as given are to report. */
  ghost predicate Matches(q: Q.World, w: World) {
    && w.s == q.s && |Owing(w)| == q.outstanding
    && forall c :: c in w.callers ==> w.callers[c].Idle? || w.callers[c].Returned?
  }

  lemma MovedReaches(cfg: Config, w: World, c: nat, now: int, n: nat) returns (m: nat)
    requires Reaches(cfg, w, n) && c in w.callers
    ensures var v := Moved(cfg, w, c, now); Reaches(cfg, v, m) && v.callers == w.callers[c := At(v, c)]
  {
    if Enabled(w, Move(c, now)) {
      OthersStay(cfg, w, Move(c, now));
      assert Reports(w, Move(c, now));
      m := n + 1;
    } else {
      assert w.callers == w.callers[c := At(w, c)];
      m := n;
    }
  }

  lemma {:induction false} AloneReaches(cfg: Config, w: World, c: nat, now: int, steps: nat, n: nat) returns (m: nat)
    requires Reaches(cfg, w, n) && c in w.callers
    ensures var w' := Alone(cfg, w, c, now, steps); Reaches(cfg, w', m) && w'.callers == w.callers[c := At(w', c)]
    decreases steps
  {
    if steps == 0 {
      m := n;
      assert w.callers == w.callers[c := At(w, c)];
    } else {
      m := MovedReaches(cfg, w, c, now, n);
      m := AloneReaches(cfg, Moved(cfg, w, c, now), c, now, steps - 1, m);
    }
  }

  lemma Starts(cfg: Config, w: World, c: nat, call: Call, n: nat) returns (v: World)
    requires Reaches(cfg, w, n) && (At(w, c).Idle? || At(w, c).Returned?)
    requires At(w, c) == Returned(true) <==> !call.Allow?
    ensures Reaches(cfg, v, n + 1) && v == Goto(w, c, Entry(cfg, call))
  {
    v := Step(cfg, w, Start(c, call));
    assert Enabled(w, Start(c, call)) && Reports(w, Start(c, call));
  }

  /** A call that starts is taken to its end, alone. */
  lemma CallEnds(cfg: Config, w: World, c: nat, call: Call, now: int, steps: nat, n: nat) returns (w': World, m: nat)
    requires Reaches(cfg, w, n) && (At(w, c).Idle? || At(w, c).Returned?)
    requires At(w, c) == Returned(true) <==> !call.Allow?
    ensures w' == Alone(cfg, Goto(w, c, Entry(cfg, call)), c, now, steps) && Reaches(cfg, w', m)
    ensures w'.callers == w.callers[c := At(w', c)]
    ensures |Owing(w')| - One(Owes(At(w', c))) == |Owing(w)| - One(Owes(At(w, c)))
  {
    var v := Starts(cfg, w, c, call, n);
    w' := Alone(cfg, v, c, now, steps);
    m := AloneReaches(cfg, v, c, now, steps, n + 1);
    assert w'.callers == w.callers[c := At(w', c)];
    OwingAfter(w, w', c);
  }

  lemma StillMatches(q: Q.World, w: World, q': Q.World, w': World, c: nat)
    requires Matches(q, w) && w'.callers == w.callers[c := At(w', c)] && w'.s == q'.s
    requires At(w', c).Idle? || At(w', c).Returned?
    requires q'.outstanding - One(Owes(At(w', c))) == q.outstanding - One(Owes(At(w, c)))
    requires |Owing(w')| - One(Owes(At(w', c))) == |Owing(w)| - One(Owes(At(w, c)))
    ensures Matches(q', w')
  {
  }

  /** A caller who has not called before calls. */
  lemma CallMatches(cfg: Config, q: Q.World, w: World, now: int, n: nat) returns (w': World, m: nat)
    requires cfg.enabled && Reaches(cfg, w, n) && Matches(q, w)
    ensures Reaches(cfg, w', m) && Matches(Q.Step(cfg, q, Q.Call(now)), w')
  {
    var c := Fresh(w.callers.Keys);
    AllowAlone(cfg, Goto(w, c, LoadState), c, now);
    w', m := CallEnds(cfg, w, c, Allow, now, 8, n);
    StillMatches(q, w, Q.Step(cfg, q, Q.Call(now)), w', c);
  }

  lemma {:induction false} Fresh(used: set<nat>) returns (c: nat)
    ensures forall u :: u in used ==> u < c
    decreases used
  {
    if used == {} {
      c := 0;
    } else {
      var u :| u in used;
      var d := Fresh(used - {u});
      c := if u < d then d else u + 1;
      assert forall v :: v in used ==> v == u || v in used - {u};
    }
  }

  lemma SuccessMatches(cfg: Config, q: Q.World, w: World, c: nat, now: int, n: nat) returns (w': World, m: nat)
    requires cfg.enabled && Reaches(cfg, w, n) && Matches(q, w) && q.outstanding > 0 && At(w, c) == Returned(true)
    ensures Reaches(cfg, w', m) && Matches(Q.Step(cfg, q, Q.Finish(true, now)), w')
  {
    RecordSuccessAlone(cfg, Goto(w, c, SuccessState), c, now);
    w', m := CallEnds(cfg, w, c, RecordSuccess, now, 6, n);
    StillMatches(q, w, Q.Step(cfg, q, Q.Finish(true, now)), w', c);
  }

  lemma FailureMatches(cfg: Config, q: Q.World, w: World, c: nat, now: int, n: nat) returns (w': World, m: nat)
    requires cfg.enabled && Reaches(cfg, w, n) && Matches(q, w) && q.outstanding > 0 && At(w, c) == Returned(true)
    ensures Reaches(cfg, w', m) && Matches(Q.Step(cfg, q, Q.Finish(false, now)), w')
  {
    RecordFailureAlone(cfg, Goto(w, c, StampFailure), c, now);
    w', m := CallEnds(cfg, w, c, RecordFailure, now, 6, n);
    StillMatches(q, w, Q.Step(cfg, q, Q.Finish(false, now)), w', c);
  }

  /** One of those who are to report does. */
  lemma FinishMatches(cfg: Config, q: Q.World, w: World, ok: bool, now: int, n: nat) returns (w': World, m: nat)
    requires cfg.enabled && Reaches(cfg, w, n) && Matches(q, w) && q.outstanding > 0
    ensures Reaches(cfg, w', m) && Matches(Q.Step(cfg, q, Q.Finish(ok, now)), w')
  {
    var c :| c in Owing(w);
    if ok {
      w', m := SuccessMatches(cfg, q, w, c, now, n);
    } else {
      w', m := FailureMatches(cfg, q, w, c, now, n);
    }
  }

  /** Whatever calls taken one at a time can do, interleaved callers can. */
  lemma {:induction false} CallsAreInterleavings(cfg: Config, q: Q.World, n: nat) returns (w: World, m: nat)
    requires cfg.enabled && Q.Reachable(cfg, q, n)
    ensures Reaches(cfg, w, m) && Matches(q, w)
    decreases n
  {
    if n == 0 {
      w, m := START, 0;
    } else {
      var p: Q.World, t: Q.Turn :| Q.Reachable(cfg, p, n - 1) && Q.Enabled(p, t) && Q.Step(cfg, p, t) == q;
      var v, k := CallsAreInterleavings(cfg, p, n - 1);
      match t {
        case Call(now) => w, m := CallMatches(cfg, p, v, now, k);
        case Finish(ok, now) => w, m := FinishMatches(cfg, p, v, ok, now, k);
      }
    }
  }

  /** So the breaker can get stuck under any interleaving exactly when it can with calls one
      at a time: when it needs more successes to close than it lets calls through. */
  lemma CanGetStuckIff(cfg: Config)
    requires Sane(cfg) && cfg.failureThreshold <= Q.MAX32 && cfg.halfOpenRequests < Q.MAX32
    ensures (exists w, n :: Reaches(cfg, w, n) && Stuck(cfg, w)) <==> cfg.successThreshold > cfg.halfOpenRequests
  {
    if cfg.successThreshold > cfg.halfOpenRequests {
      Q.CanWedgeIff(cfg);
      var q, k :| Q.Reachable(cfg, q, k) && Q.Wedged(cfg, q);
      var w, n := CallsAreInterleavings(cfg, q, k);
      assert Reaches(cfg, w, n) && Stuck(cfg, w);
    } else {
      forall w, n | Reaches(cfg, w, n) ensures !Stuck(cfg, w) {
        NeverStuck(cfg, w, n);
      }
    }
  }
}
