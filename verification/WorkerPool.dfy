/** The asynchronous publishing pool as a transition system: any number of producers
    and workers, a bounded queue, and the counter that Drain waits on.

    Events are identified by the order in which the queue accepted them. */
module WorkerPool {

  datatype Producer =
    | Away
    | Passed      // saw the pool running
    | Counted     // has added to pending, not yet sent
    | Dropping    // found the queue full and counted the drop

  datatype Worker =
    | Ready
    | Holding(ticket: nat)  // took an event, not yet run through the bus
    | Finishing             // has published it, not yet called Done
    | Exited

  datatype Pool = Pool(
    cap: nat,
    queue: seq<nat>,
    pending: int,
    dropped: nat,
    cancelled: bool,
    producers: map<nat, Producer>,
    workers: map<nat, Worker>,
    submitted: nat,       // calls that got as far as pending.Add
    accepted: nat,        // events that entered the queue
    published: seq<nat>)  // events run through the bus, in order

  datatype Action =
    | Check(p: nat) | Add(p: nat) | Send(p: nat) | HandOver(p: nat, w: nat) | Drop(p: nat) | Compensate(p: nat)
    | Take(w: nat) | Publish(w: nat) | Done(w: nat) | Exit(w: nat) | Cancel

  function New(cap: nat, producers: set<nat>, workers: set<nat>): Pool {
    Pool(cap, [], 0, 0, false, map p | p in producers :: Away, map w | w in workers :: Ready, 0, 0, [])
  }

  predicate ProducerAt(s: Pool, p: nat, l: Producer) { p in s.producers && s.producers[p] == l }

  predicate WorkerAt(s: Pool, w: nat, l: Worker) { w in s.workers && s.workers[w] == l }

  predicate Enabled(s: Pool, a: Action) {
    match a
    case Check(p) => ProducerAt(s, p, Away)
    case Add(p) => ProducerAt(s, p, Passed)
    case Send(p) => ProducerAt(s, p, Counted) && |s.queue| < s.cap
    // A send finds a worker already waiting on the empty channel.
    case HandOver(p, w) => ProducerAt(s, p, Counted) && s.queue == [] && WorkerAt(s, w, Ready)
    case Drop(p) => ProducerAt(s, p, Counted) && |s.queue| == s.cap
    case Compensate(p) => ProducerAt(s, p, Dropping)
    case Take(w) => WorkerAt(s, w, Ready) && s.queue != []
    case Publish(w) => w in s.workers && s.workers[w].Holding?
    case Done(w) => WorkerAt(s, w, Finishing)
    case Exit(w) => WorkerAt(s, w, Ready) && s.cancelled
    case Cancel => true
  }

  function SetP(s: Pool, p: nat, l: Producer): Pool { s.(producers := s.producers[p := l]) }

  function SetW(s: Pool, w: nat, l: Worker): Pool { s.(workers := s.workers[w := l]) }

  function Step(s: Pool, a: Action): Pool
    requires Enabled(s, a)
  {
    match a
    case Check(p) => SetP(s, p, if s.cancelled then Away else Passed)
    case Add(p) => SetP(s.(pending := s.pending + 1, submitted := s.submitted + 1), p, Counted)
    case Send(p) => SetP(s.(queue := s.queue + [s.accepted], accepted := s.accepted + 1), p, Away)
    case HandOver(p, w) => SetW(SetP(s.(accepted := s.accepted + 1), p, Away), w, Holding(s.accepted))
    case Drop(p) => SetP(s.(dropped := s.dropped + 1), p, Dropping)
    case Compensate(p) => SetP(s.(pending := s.pending - 1), p, Away)
    case Take(w) => SetW(s.(queue := s.queue[1..]), w, Holding(s.queue[0]))
    case Publish(w) => SetW(s.(published := s.published + [s.workers[w].ticket]), w, Finishing)
    case Done(w) => SetW(s.(pending := s.pending - 1), w, Ready)
    case Exit(w) => SetW(s, w, Exited)
    case Cancel => s.(cancelled := true)
  }

  predicate AllEnabled(s: Pool, actions: seq<Action>)
    decreases |actions|
  {
    actions == [] || (Enabled(s, actions[0]) && AllEnabled(Step(s, actions[0]), actions[1..]))
  }

  function Run(s: Pool, actions: seq<Action>): Pool
    requires AllEnabled(s, actions)
    decreases |actions|
  {
    if actions == [] then s else Run(Step(s, actions[0]), actions[1..])
  }

  // ------------------------------------------------------------- counting

  function Those<X>(m: map<nat, X>, f: X -> bool): set<nat> {
    set i | i in m && f(m[i])
  }

  lemma UpdateCount<X>(m: map<nat, X>, i: nat, x: X, f: X -> bool)
    ensures |Those(m[i := x], f)|
         == |Those(m, f)| - (if i in m && f(m[i]) then 1 else 0) + (if f(x) then 1 else 0)
  {
    var before, after := Those(m, f), Those(m[i := x], f);
    assert after == if f(x) then before + {i} else before - {i};
  }

  /** Producers between pending.Add and their send or compensating Done. */
  function Pushing(s: Pool): nat { |Those(s.producers, (l: Producer) => l.Counted? || l.Dropping?)| }

  function Sending(s: Pool): nat { |Those(s.producers, (l: Producer) => l.Counted?)| }

  /** Workers between taking an event and calling Done. */
  function Busy(s: Pool): nat { |Those(s.workers, (l: Worker) => l.Holding? || l.Finishing?)| }

  function Carrying(s: Pool): nat { |Those(s.workers, (l: Worker) => l.Holding?)| }

  /** The counting part of the invariant. */
  ghost predicate Balanced(s: Pool) {
    && s.pending == Pushing(s) + |s.queue| + Busy(s)
    && s.submitted == s.accepted + s.dropped + Sending(s)
    && s.accepted == |s.published| + |s.queue| + Carrying(s)
    && |s.queue| <= s.cap
  }

  /** Where the accepted events are: the newest ones in the queue in order, each older
      one with one worker or published once. */
  ghost predicate Placed(s: Pool) {
    && s.accepted >= |s.queue|
    && (forall i :: 0 <= i < |s.queue| ==> s.queue[i] == Taken(s) + i)
    && PublishedOk(s.published, Taken(s))
    && CarriedOk(s)
    && (forall t: nat :: t < Taken(s) ==> t in s.published || HasCarrier(s, t))
  }

  /** How many events have left the queue. */
  function Taken(s: Pool): int { s.accepted - |s.queue| }

  ghost predicate PublishedOk(published: seq<nat>, taken: int) {
    && (forall i :: 0 <= i < |published| ==> published[i] < taken)
    && (forall i, j :: 0 <= i < j < |published| ==> published[i] != published[j])
  }

  ghost predicate CarriedOk(s: Pool) {
    && (forall w :: w in s.workers && s.workers[w].Holding? ==>
          s.workers[w].ticket < Taken(s) && s.workers[w].ticket !in s.published)
    && (forall v, w :: v in s.workers && w in s.workers && v != w && s.workers[v].Holding? && s.workers[w].Holding? ==>
          s.workers[v].ticket != s.workers[w].ticket)
  }

  ghost predicate HasCarrier(s: Pool, t: nat) {
    exists w :: w in s.workers && s.workers[w] == Holding(t)
  }

  lemma StepBalances(s: Pool, a: Action)
    requires Enabled(s, a) && Balanced(s)
    ensures Balanced(Step(s, a))
  {
    var s' := Step(s, a);
    if a.Check? || a.Add? || a.Send? || a.HandOver? || a.Drop? || a.Compensate? {
      UpdateCount(s.producers, a.p, s'.producers[a.p], (l: Producer) => l.Counted? || l.Dropping?);
      UpdateCount(s.producers, a.p, s'.producers[a.p], (l: Producer) => l.Counted?);
    }
    if a.HandOver? || a.Take? || a.Publish? || a.Done? || a.Exit? {
      UpdateCount(s.workers, a.w, s'.workers[a.w], (l: Worker) => l.Holding? || l.Finishing?);
      UpdateCount(s.workers, a.w, s'.workers[a.w], (l: Worker) => l.Holding?);
    }
  }

  lemma StepCarries(s: Pool, a: Action)
    requires Enabled(s, a) && Placed(s)
    ensures Taken(s) <= Taken(Step(s, a)) && PublishedOk(Step(s, a).published, Taken(Step(s, a)))
    ensures CarriedOk(Step(s, a))
  {
    var s' := Step(s, a);
    assert a.Take? ==> s.queue[0] == Taken(s) && Taken(s') == Taken(s) + 1;
    assert a.HandOver? ==> s.accepted == Taken(s) && Taken(s') == Taken(s) + 1;
    assert forall t: nat :: t in s.published ==> t < Taken(s);
  }

  lemma StepPlaces(s: Pool, a: Action)
    requires Enabled(s, a) && Placed(s)
    ensures Placed(Step(s, a))
  {
    var s' := Step(s, a);
    StepCarries(s, a);
    forall t: nat | t < Taken(s')
      ensures t in s'.published || HasCarrier(s', t)
    {
      if t < Taken(s) {
        StillPlaced(s, a, t);
      } else {
        assert s'.workers[a.w] == Holding(t);
      }
    }
  }

  lemma StillPlaced(s: Pool, a: Action, t: nat)
    requires Enabled(s, a) && (t in s.published || HasCarrier(s, t))
    ensures t in Step(s, a).published || HasCarrier(Step(s, a), t)
  {
    var s' := Step(s, a);
    if a.Publish? && s.workers[a.w].ticket == t {
      assert s'.published[|s.published|] == t;
    } else if t in s.published {
      assert s'.published[..|s.published|] == s.published;
    } else {
      var w :| w in s.workers && s.workers[w] == Holding(t);
      assert s'.workers[w] == Holding(t);
    }
  }

  lemma {:induction false} RunKeeps(s: Pool, actions: seq<Action>)
    requires AllEnabled(s, actions) && Balanced(s) && Placed(s)
    ensures Balanced(Run(s, actions)) && Placed(Run(s, actions))
    ensures s.accepted <= Run(s, actions).accepted && Run(s, actions).cap == s.cap
    decreases |actions|
  {
    if actions != [] {
      StepBalances(s, actions[0]);
      StepPlaces(s, actions[0]);
      RunKeeps(Step(s, actions[0]), actions[1..]);
    }
  }

  lemma NewIsGood(cap: nat, producers: set<nat>, workers: set<nat>)
    ensures Balanced(New(cap, producers, workers)) && Placed(New(cap, producers, workers))
  {
    var s := New(cap, producers, workers);
    assert Those(s.producers, (l: Producer) => l.Counted? || l.Dropping?) == {};
    assert Those(s.producers, (l: Producer) => l.Counted?) == {};
    assert Those(s.workers, (l: Worker) => l.Holding? || l.Finishing?) == {};
    assert Those(s.workers, (l: Worker) => l.Holding?) == {};
  }

  // ----------------------------------------------------------- main results

  /** In every interleaving the counter is exactly the events on their way, so it is
      never negative, and no submitted event is unaccounted for. */
  lemma Accounting(cap: nat, producers: set<nat>, workers: set<nat>, actions: seq<Action>)
    requires AllEnabled(New(cap, producers, workers), actions)
    ensures var s := Run(New(cap, producers, workers), actions);
            && s.pending == Pushing(s) + |s.queue| + Busy(s) >= 0
            && s.submitted == |s.published| + s.dropped + |s.queue| + Sending(s) + Carrying(s)
            && |s.queue| <= cap
  {
    NewIsGood(cap, producers, workers);
    RunKeeps(New(cap, producers, workers), actions);
  }

  ghost predicate PublishedOnce(s: Pool, t: nat) {
    exists i :: 0 <= i < |s.published| && s.published[i] == t &&
                forall j :: 0 <= j < |s.published| && s.published[j] == t ==> j == i
  }

  /** No event is published twice, in any interleaving. */
  lemma NeverTwice(cap: nat, producers: set<nat>, workers: set<nat>, actions: seq<Action>)
    requires AllEnabled(New(cap, producers, workers), actions)
    ensures var s := Run(New(cap, producers, workers), actions);
            forall i, j :: 0 <= i < j < |s.published| ==> s.published[i] != s.published[j]
  {
    NewIsGood(cap, producers, workers);
    RunKeeps(New(cap, producers, workers), actions);
  }

  // --------------------------------------------------------- order and drops

  /** A single worker publishes in the order in which the queue accepted. */
  ghost predicate InOrder(s: Pool, w: nat) {
    && s.workers.Keys == {w}
    && (forall i :: 0 <= i < |s.published| ==> s.published[i] == i)
    && (s.workers[w].Holding? ==> s.workers[w].ticket == |s.published|)
    && Taken(s) == |s.published| + if s.workers[w].Holding? then 1 else 0
  }

  lemma StepKeepsOrder(s: Pool, a: Action, w: nat)
    requires Enabled(s, a) && Placed(s) && InOrder(s, w)
    ensures InOrder(Step(s, a), w)
  {
    var s' := Step(s, a);
    if a.HandOver? || a.Take? || a.Publish? || a.Done? || a.Exit? {
      assert a.w in s.workers.Keys;
    }
    assert a.Take? ==> s.queue[0] == Taken(s);
  }

  lemma {:induction false} RunKeepsOrder(s: Pool, actions: seq<Action>, w: nat)
    requires AllEnabled(s, actions) && Placed(s) && InOrder(s, w)
    ensures InOrder(Run(s, actions), w)
    decreases |actions|
  {
    if actions != [] {
      StepPlaces(s, actions[0]);
      StepKeepsOrder(s, actions[0], w);
      RunKeepsOrder(Step(s, actions[0]), actions[1..], w);
    }
  }

  lemma OneWorkerKeepsOrder(cap: nat, producers: set<nat>, w: nat, actions: seq<Action>)
    requires AllEnabled(New(cap, producers, {w}), actions)
    ensures var s := Run(New(cap, producers, {w}), actions); forall i :: 0 <= i < |s.published| ==> s.published[i] == i
  {
    NewIsGood(cap, producers, {w});
    RunKeepsOrder(New(cap, producers, {w}), actions, w);
  }

  /** A producer past the check always gets on: it sends into a queue with room, and counts a
      drop only when the queue is full; one that checks after the cancellation goes away. */
  lemma OnlyFullQueuesDrop(s: Pool, p: nat)
    requires Balanced(s) && p in s.producers
    ensures s.producers[p] == Counted ==>
              && (|s.queue| < s.cap <==> Enabled(s, Send(p))) && (|s.queue| == s.cap <==> Enabled(s, Drop(p)))
              && (|s.queue| < s.cap ==> Step(s, Send(p)).accepted == s.accepted + 1 && Step(s, Send(p)).dropped == s.dropped
                                        && Step(s, Send(p)).queue == s.queue + [s.accepted])
              && (|s.queue| == s.cap ==> Step(s, Drop(p)).dropped == s.dropped + 1 && Step(s, Drop(p)).queue == s.queue)
    ensures s.producers[p] == Away ==> (ProducerAt(Step(s, Check(p)), p, Passed) <==> !s.cancelled)
  {
  }

  /** Drain returns when the counter reads zero.  Every event accepted before it was
      called has then been published exactly once, and the pool is idle. */
  lemma DrainFlushes(cap: nat, producers: set<nat>, workers: set<nat>, before: seq<Action>, during: seq<Action>)
    requires AllEnabled(New(cap, producers, workers), before)
    requires AllEnabled(Run(New(cap, producers, workers), before), during)
    requires Run(Run(New(cap, producers, workers), before), during).pending == 0
    ensures var called := Run(New(cap, producers, workers), before);
            var returned := Run(called, during);
            && returned.queue == []
            && forall t: nat :: t < called.accepted ==> PublishedOnce(returned, t)
  {
    NewIsGood(cap, producers, workers);
    RunKeeps(New(cap, producers, workers), before);
    var called := Run(New(cap, producers, workers), before);
    RunKeeps(called, during);
    var s := Run(called, during);
    forall t: nat | t < called.accepted ensures PublishedOnce(s, t) {
      IdleHasPublished(s, t);
    }
  }

  lemma CarrierIsBusy(s: Pool, t: nat)
    requires HasCarrier(s, t)
    ensures Busy(s) > 0
  {
    var w :| w in s.workers && s.workers[w] == Holding(t);
    assert w in Those(s.workers, (l: Worker) => l.Holding? || l.Finishing?);
  }

  lemma IdleHasPublished(s: Pool, t: nat)
    requires Balanced(s) && Placed(s) && s.pending == 0 && t < s.accepted
    ensures PublishedOnce(s, t)
  {
    IdleHoldsNothing(s, t);
    OnceIsEnough(s.published, Taken(s), t);
  }

  lemma OnceIsEnough(published: seq<nat>, taken: int, t: nat)
    requires PublishedOk(published, taken) && t in published
    ensures exists i :: 0 <= i < |published| && published[i] == t &&
                        forall j :: 0 <= j < |published| && published[j] == t ==> j == i
  {
    var i :| 0 <= i < |published| && published[i] == t;
  }

  lemma IdleHoldsNothing(s: Pool, t: nat)
    requires Balanced(s) && s.pending == 0
    ensures s.queue == [] && !HasCarrier(s, t)
  {
    if HasCarrier(s, t) {
      CarrierIsBusy(s, t);
    }
  }

  // --------------------------------------------------------- after Shutdown

  ghost predicate NoWorkers(s: Pool) {
    forall w :: w in s.workers ==> s.workers[w] == Exited
  }

  ghost predicate SomeCounted(s: Pool) {
    exists p :: ProducerAt(s, p, Counted)
  }

  ghost predicate CanDrain(s: Pool) {
    exists actions :: AllEnabled(s, actions) && Run(s, actions).pending == 0
  }

  /** An event that nobody will take any more: queued, or about to be. */
  ghost predicate Stranded(s: Pool) {
    s.queue != [] || (s.cap > 0 && SomeCounted(s))
  }

  lemma {:induction false} StrandedStays(s: Pool, actions: seq<Action>)
    requires AllEnabled(s, actions) && Balanced(s) && NoWorkers(s) && Stranded(s)
    ensures Run(s, actions).pending > 0
    decreases |actions|
  {
    if actions == [] {
      if SomeCounted(s) {
        var p :| ProducerAt(s, p, Counted);
        assert p in Those(s.producers, (l: Producer) => l.Counted? || l.Dropping?);
      }
    } else {
      var a := actions[0];
      StepBalances(s, a);
      assert Stranded(Step(s, a)) by {
        if s.queue == [] && !a.Send? {
          var p :| ProducerAt(s, p, Counted);
          assert ProducerAt(Step(s, a), p, Counted);
        }
      }
      StrandedStays(Step(s, a), actions[1..]);
    }
  }

  lemma Prepend(s: Pool, a: Action, rest: seq<Action>)
    requires Enabled(s, a) && AllEnabled(Step(s, a), rest)
    ensures AllEnabled(s, [a] + rest) && Run(s, [a] + rest) == Run(Step(s, a), rest)
  {
    assert ([a] + rest)[1..] == rest;
  }

  lemma {:induction false} IdleDrains(s: Pool)
    requires Balanced(s) && NoWorkers(s) && !Stranded(s)
    ensures CanDrain(s)
    decreases Pushing(s) + Sending(s)
  {
    assert Those(s.workers, (l: Worker) => l.Holding? || l.Finishing?) == {};
    var some := Those(s.producers, (l: Producer) => l.Counted? || l.Dropping?);
    if some == {} {
      assert AllEnabled(s, []) && Run(s, []) == s;
    } else {
      var p :| p in some;
      var a := if s.producers[p].Counted? then Drop(p) else Compensate(p);
      assert Enabled(s, a) by {
        assert s.producers[p].Counted? ==> ProducerAt(s, p, Counted);
      }
      var s' := Step(s, a);
      StepBalances(s, a);
      UpdateCount(s.producers, p, s'.producers[p], (l: Producer) => l.Counted? || l.Dropping?);
      UpdateCount(s.producers, p, s'.producers[p], (l: Producer) => l.Counted?);
      if SomeCounted(s') {
        var q :| ProducerAt(s', q, Counted);
        assert ProducerAt(s, q, Counted);
      }
      IdleDrains(s');
      var rest :| AllEnabled(s', rest) && Run(s', rest).pending == 0;
      Prepend(s, a, rest);
    }
  }

  /** Once every worker has left, Drain can return exactly when nothing is queued and no
      producer is about to queue something. */
  lemma DrainAfterShutdown(cap: nat, producers: set<nat>, workers: set<nat>, actions: seq<Action>)
    requires AllEnabled(New(cap, producers, workers), actions)
    requires NoWorkers(Run(New(cap, producers, workers), actions))
    ensures var s := Run(New(cap, producers, workers), actions);
            CanDrain(s) <==> s.queue == [] && (cap == 0 || !SomeCounted(s))
  {
    NewIsGood(cap, producers, workers);
    RunKeeps(New(cap, producers, workers), actions);
    var s := Run(New(cap, producers, workers), actions);
    if Stranded(s) {
      if CanDrain(s) {
        var rest :| AllEnabled(s, rest) && Run(s, rest).pending == 0;
        StrandedStays(s, rest);
        assert false;
      }
    } else {
      IdleDrains(s);
    }
  }

  /** The hazard is real: an event can be left behind by a shutdown that follows it. */
  lemma ShutdownCanStrand() returns (actions: seq<Action>)
    ensures AllEnabled(New(1, {0}, {0}), actions)
    ensures var s := Run(New(1, {0}, {0}), actions);
            NoWorkers(s) && s.queue == [0] && s.published == [] && !CanDrain(s)
  {
    actions := StrandingRun();
    DrainAfterShutdown(1, {0}, {0}, actions);
  }

  lemma StrandingTail(s: Pool) returns (actions: seq<Action>)
    requires Enabled(s, Cancel) && Enabled(Step(s, Cancel), Exit(0))
    ensures AllEnabled(s, actions) && Run(s, actions) == Step(Step(s, Cancel), Exit(0))
  {
    actions := [];
    Prepend(Step(s, Cancel), Exit(0), actions);
    actions := [Exit(0)] + actions;
    Prepend(s, Cancel, actions);
    actions := [Cancel] + actions;
  }

  lemma StrandingRun() returns (actions: seq<Action>)
    ensures AllEnabled(New(1, {0}, {0}), actions)
    ensures var s := Run(New(1, {0}, {0}), actions);
            NoWorkers(s) && s.queue == [0] && s.published == [] && s.cap == 1
  {
    var s0 := New(1, {0}, {0});
    var s1 := Step(s0, Check(0));
    var s2 := Step(s1, Add(0));
    var s3 := Step(s2, Send(0));
    actions := StrandingTail(s3);
    Prepend(s2, Send(0), actions);
    actions := [Send(0)] + actions;
    Prepend(s1, Add(0), actions);
    actions := [Add(0)] + actions;
    Prepend(s0, Check(0), actions);
    actions := [Check(0)] + actions;
  }
}
