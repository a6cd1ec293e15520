/** The statistics that every request updates without a lock: the latency bounds, kept by
    compare-and-swap loops, and the count of active connections.  One step per atomic
    operation, any interleaving. */
module Collector {

  // ------------------------------------------------------------ latency bounds

  /** The two loops of an update, in the order they run. */
  datatype Kind = Least | Greatest

  /** A bound, and how often it has been written. */
  datatype Cell = Cell(value: int, writes: nat)

  datatype Pc = Load(kind: Kind) | Cas(kind: Kind, seen: int, version: nat) | Finished

  /** One update: its latency, where it is, and its failed swaps in each loop. */
  datatype Update = Update(latency: nat, pc: Pc, fails: map<Kind, nat>)

  datatype Bounds = Bounds(least: Cell, greatest: Cell, updates: map<nat, Update>)

  datatype Action = Begin(id: nat, latency: nat) | Move(id: nat)

  const UNSET := -1

  const START := Bounds(Cell(UNSET, 0), Cell(0, 0), map[])

  function CellOf(b: Bounds, kind: Kind): Cell {
    if kind == Least then b.least else b.greatest
  }

  predicate Improves(kind: Kind, latency: int, value: int) {
    if kind == Least then value == UNSET || latency < value else latency > value
  }

  predicate Enabled(b: Bounds, a: Action) {
    match a
    case Begin(id, _) => id !in b.updates
    case Move(id) => id in b.updates && !b.updates[id].pc.Finished?
  }

  function AfterLoop(kind: Kind): Pc {
    if kind == Least then Load(Greatest) else Finished
  }

  function Goto(b: Bounds, id: nat, pc: Pc): Bounds
    requires id in b.updates
  {
    b.(updates := b.updates[id := b.updates[id].(pc := pc)])
  }

  function Write(b: Bounds, kind: Kind, value: int): Bounds {
    var cell := Cell(value, CellOf(b, kind).writes + 1);
    if kind == Least then b.(least := cell) else b.(greatest := cell)
  }

  function Step(b: Bounds, a: Action): Bounds
    requires Enabled(b, a)
  {
    match a
    case Begin(id, latency) =>
      b.(updates := b.updates[id := Update(latency, Load(Least), map[Least := 0, Greatest := 0])])
    case Move(id) =>
      var u := b.updates[id];
      match u.pc
      case Load(kind) =>
        var cell := CellOf(b, kind);
        Goto(b, id, if Improves(kind, u.latency, cell.value) then Cas(kind, cell.value, cell.writes) else AfterLoop(kind))
      case Cas(kind, seen, _) =>
        if CellOf(b, kind).value == seen then Goto(Write(b, kind, u.latency), id, AfterLoop(kind))
        else b.(updates := b.updates[id := Retry(u, kind)])
      case Finished => b
  }

  function Fails(u: Update, kind: Kind): nat {
    if kind in u.fails then u.fails[kind] else 0
  }

  function Retry(u: Update, kind: Kind): Update {
    u.(pc := Load(kind), fails := u.fails[kind := Fails(u, kind) + 1])
  }

  predicate AllEnabled(b: Bounds, actions: seq<Action>)
    decreases |actions|
  {
    actions == [] || (Enabled(b, actions[0]) && AllEnabled(Step(b, actions[0]), actions[1..]))
  }

  function Run(b: Bounds, actions: seq<Action>): Bounds
    requires AllEnabled(b, actions)
    decreases |actions|
  {
    if actions == [] then b else Run(Step(b, actions[0]), actions[1..])
  }

  /** The update has left the loop of that kind. */
  predicate Past(u: Update, kind: Kind) {
    u.pc.Finished? || (kind == Least && u.pc.kind == Greatest)
  }

  predicate Started(b: Bounds, latency: int) {
    exists id :: id in b.updates && b.updates[id].latency == latency
  }

  /** The updates that can have written the bound: those past its loop. */
  function PastSet(b: Bounds, kind: Kind): set<nat> {
    set id | id in b.updates && Past(b.updates[id], kind)
  }

  ghost predicate CellOk(b: Bounds, kind: Kind) {
    var cell := CellOf(b, kind);
    && (cell.writes == 0 <==> cell.value == if kind == Least then UNSET else 0)
    && (cell.writes > 0 ==> cell.value >= 0 && Started(b, cell.value))
    && cell.writes <= |PastSet(b, kind)|
  }

  ghost predicate UpdateOk(cell: Cell, u: Update, kind: Kind) {
    && (Past(u, kind) ==> !Improves(kind, u.latency, cell.value))
    && Fails(u, kind) <= cell.writes
    && (u.pc.Cas? && u.pc.kind == kind ==>
          && Improves(kind, u.latency, u.pc.seen)
          && Fails(u, kind) <= u.pc.version <= cell.writes
          && (u.pc.seen == cell.value <==> u.pc.version == cell.writes)
          && (u.pc.seen != cell.value ==> Improves(kind, cell.value, u.pc.seen)))
  }

  ghost predicate UpdatesOk(b: Bounds, kind: Kind) {
    forall id :: id in b.updates ==> UpdateOk(CellOf(b, kind), b.updates[id], kind)
  }

  ghost predicate Inv(b: Bounds) {
    && CellOk(b, Least) && CellOk(b, Greatest)
    && UpdatesOk(b, Least) && UpdatesOk(b, Greatest)
  }

  /** The step is the swap that writes the bound. */
  predicate Writes(b: Bounds, a: Action, kind: Kind)
    requires Enabled(b, a)
  {
    && a.Move?
    && var u := b.updates[a.id];
       u.pc.Cas? && u.pc.kind == kind && CellOf(b, kind).value == u.pc.seen
  }

  lemma StepKeepsInv(b: Bounds, a: Action)
    requires Inv(b) && Enabled(b, a)
    ensures Inv(Step(b, a))
  {
    StepKeepsCell(b, a, Least);
    StepKeepsCell(b, a, Greatest);
    StepKeepsUpdates(b, a, Least);
    StepKeepsUpdates(b, a, Greatest);
  }

  lemma StepKeepsUpdates(b: Bounds, a: Action, kind: Kind)
    requires CellOk(b, kind) && UpdatesOk(b, kind) && Enabled(b, a)
    ensures UpdatesOk(Step(b, a), kind)
  {
    var b' := Step(b, a);
    forall id | id in b'.updates
      ensures UpdateOk(CellOf(b', kind), b'.updates[id], kind)
    {
      if id == a.id {
      } else if Writes(b, a, kind) {
      }
    }
  }

  lemma StepKeepsCell(b: Bounds, a: Action, kind: Kind)
    requires CellOk(b, kind) && UpdatesOk(b, kind) && Enabled(b, a)
    ensures CellOk(Step(b, a), kind)
  {
    var b' := Step(b, a);
    var cell := CellOf(b, kind);
    PastGrows(b, a, kind);
    if Writes(b, a, kind) {
      assert UpdateOk(cell, b.updates[a.id], kind);
      assert b'.updates[a.id].latency == b.updates[a.id].latency;
    } else if cell.writes > 0 {
      var id :| id in b.updates && b.updates[id].latency == cell.value;
      assert b'.updates[id].latency == cell.value;
    }
  }

  lemma PastGrows(b: Bounds, a: Action, kind: Kind)
    requires Enabled(b, a)
    ensures |PastSet(Step(b, a), kind)| >= |PastSet(b, kind)| + if Writes(b, a, kind) then 1 else 0
  {
    var b' := Step(b, a);
    PastStays(b, a, kind);
    if Past(b'.updates[a.id], kind) {
      assert PastSet(b', kind) == PastSet(b, kind) + {a.id};
    } else {
      assert PastSet(b', kind) == PastSet(b, kind);
    }
  }

  lemma PastStays(b: Bounds, a: Action, kind: Kind)
    requires Enabled(b, a)
    ensures var b' := Step(b, a);
            && b'.updates.Keys == b.updates.Keys + {a.id}
            && (forall id :: id in b.updates && id != a.id ==> b'.updates[id] == b.updates[id])
            && (a.id in PastSet(b, kind) ==> Past(b'.updates[a.id], kind))
            && (Writes(b, a, kind) ==> a.id !in PastSet(b, kind) && Past(b'.updates[a.id], kind))
  {
  }

  lemma {:induction false} RunKeepsInv(b: Bounds, actions: seq<Action>)
    requires Inv(b) && AllEnabled(b, actions)
    ensures Inv(Run(b, actions))
    decreases |actions|
  {
    if actions != [] {
      StepKeepsInv(b, actions[0]);
      RunKeepsInv(Step(b, actions[0]), actions[1..]);
    }
  }

  /** Every update is one that was begun, and keeps its latency. */
  lemma {:induction false} BegunAreUpdates(b: Bounds, actions: seq<Action>, id: nat, latency: nat)
    requires AllEnabled(b, actions)
    ensures var r := Run(b, actions);
            id in r.updates && r.updates[id].latency == latency
            <==> (id in b.updates && b.updates[id].latency == latency) || Begin(id, latency) in actions
    decreases |actions|
  {
    if actions != [] {
      var b' := Step(b, actions[0]);
      BegunAreUpdates(b', actions[1..], id, latency);
      StartsOne(b, actions[0], id);
      assert actions == [actions[0]] + actions[1..];
    }
  }

  lemma StartsOne(b: Bounds, a: Action, id: nat)
    requires Enabled(b, a)
    ensures id in Step(b, a).updates <==> id in b.updates || (a.Begin? && a.id == id)
    ensures id in b.updates ==> Step(b, a).updates[id].latency == b.updates[id].latency
    ensures a.Begin? ==> a.id !in b.updates && Step(b, a).updates[a.id].latency == a.latency
  {
  }

  /** The move finds another value than it read. */
  predicate SwapFails(b: Bounds, a: Action, id: nat, kind: Kind) {
    && a == Move(id) && id in b.updates
    && var pc := b.updates[id].pc;
       pc.Cas? && pc.kind == kind && pc.seen != CellOf(b, kind).value
  }

  function FailedSwaps(b: Bounds, actions: seq<Action>, id: nat, kind: Kind): nat
    requires AllEnabled(b, actions)
    decreases |actions|
  {
    if actions == [] then 0
    else (if SwapFails(b, actions[0], id, kind) then 1 else 0) + FailedSwaps(Step(b, actions[0]), actions[1..], id, kind)
  }

  /** Every failed swap is counted, and nothing else. */
  lemma {:induction false} FailuresAreCounted(b: Bounds, actions: seq<Action>, id: nat, kind: Kind)
    requires AllEnabled(b, actions) && id in Run(b, actions).updates
    ensures Fails(Run(b, actions).updates[id], kind)
         == (if id in b.updates then Fails(b.updates[id], kind) else 0) + FailedSwaps(b, actions, id, kind)
    decreases |actions|
  {
    if actions != [] {
      FailuresAreCounted(Step(b, actions[0]), actions[1..], id, kind);
      OneFailure(b, actions[0], id, kind);
    }
  }

  lemma OneFailure(b: Bounds, a: Action, id: nat, kind: Kind)
    requires Enabled(b, a)
    ensures var before, b' := if id in b.updates then Fails(b.updates[id], kind) else 0, Step(b, a);
            (if id in b'.updates then Fails(b'.updates[id], kind) else 0)
            == before + if SwapFails(b, a, id, kind) then 1 else 0
  {
  }

  ghost predicate AllFinished(b: Bounds) {
    forall id :: id in b.updates ==> b.updates[id].pc.Finished?
  }

  /** In every interleaving: when all updates have finished, the least latency is exactly
      the least one recorded, and the greatest the greatest. */
  lemma BoundsAreExact(actions: seq<Action>)
    requires AllEnabled(START, actions) && AllFinished(Run(START, actions))
    ensures var b := Run(START, actions);
            && (b.updates == map[] ==> b.least.value == UNSET && b.greatest.value == 0)
            && (b.updates != map[] ==> Started(b, b.least.value) && Started(b, b.greatest.value))
            && forall id :: id in b.updates ==> b.least.value <= b.updates[id].latency <= b.greatest.value
  {
    RunKeepsInv(START, actions);
    var b := Run(START, actions);
    if b.updates != map[] {
      var id :| id in b.updates;
      assert UpdateOk(b.least, b.updates[id], Least) && UpdateOk(b.greatest, b.updates[id], Greatest);
      if b.greatest.writes == 0 {
        assert b.updates[id].latency == 0;
      }
    } else {
      assert PastSet(b, Least) == {} && PastSet(b, Greatest) == {};
    }
  }

  /** That is, once every call has returned: no latency of a call is outside the bounds, and
      each bound is the latency of a call. */
  lemma BoundsOfCalls(actions: seq<Action>, id: nat, latency: nat)
    requires AllEnabled(START, actions) && AllFinished(Run(START, actions))
    requires Begin(id, latency) in actions
    ensures var b := Run(START, actions);
            && b.least.value <= latency <= b.greatest.value
            && (exists i: nat, l: nat :: Begin(i, l) in actions && l == b.least.value)
            && (exists i: nat, l: nat :: Begin(i, l) in actions && l == b.greatest.value)
  {
    var b := Run(START, actions);
    BegunAreUpdates(START, actions, id, latency);
    BoundsAreExact(actions);
    var i :| i in b.updates && b.updates[i].latency == b.least.value;
    BegunAreUpdates(START, actions, i, b.updates[i].latency);
    var j :| j in b.updates && b.updates[j].latency == b.greatest.value;
    BegunAreUpdates(START, actions, j, b.updates[j].latency);
  }

  /** A swap fails only if the bound has been strictly improved by others since it was
      read.  So an update fails in a loop at most once for each earlier write, and there
      are no more writes than updates that have left that loop. */
  lemma FailuresArePaidFor(actions: seq<Action>, id: nat, kind: Kind)
    requires AllEnabled(START, actions) && id in Run(START, actions).updates
    ensures var b := Run(START, actions); var u := b.updates[id];
            && Fails(u, kind) <= CellOf(b, kind).writes <= |PastSet(b, kind)|
            && (u.pc.Cas? && u.pc.kind == kind && u.pc.seen != CellOf(b, kind).value ==>
                  u.pc.version < CellOf(b, kind).writes && Improves(kind, CellOf(b, kind).value, u.pc.seen))
  {
    RunKeepsInv(START, actions);
    assert UpdateOk(CellOf(Run(START, actions), kind), Run(START, actions).updates[id], kind);
  }

  /** So no update can be kept retrying for ever: among n updates each loop of an
      unfinished one has failed fewer than n times. */
  lemma RetriesAreBounded(actions: seq<Action>, id: nat, kind: Kind)
    requires AllEnabled(START, actions) && id in Run(START, actions).updates
    requires !Past(Run(START, actions).updates[id], kind)
    ensures Fails(Run(START, actions).updates[id], kind) < |Run(START, actions).updates|
  {
    FailuresArePaidFor(actions, id, kind);
    var b := Run(START, actions);
    var others := b.updates.Keys - {id};
    assert PastSet(b, kind) <= others;
    SubsetSize(PastSet(b, kind), others);
    assert |others| == |b.updates.Keys| - 1;
  }

  lemma {:induction false} SubsetSize(a: set<nat>, b: set<nat>)
    requires a <= b
    ensures |a| <= |b|
  {
    if a != {} {
      var x :| x in a;
      SubsetSize(a - {x}, b - {x});
    }
  }

  // -------------------------------------------------------- active connections

  /** A request counts itself in, is served, and counts itself out with a loop that never
      goes below zero. */
  datatype Request = Serving | LoadCount | CasCount(seen: int) | Gone

  datatype Connections = Connections(active: int, requests: map<nat, Request>)

  datatype Event = Open(id: nat) | Close(id: nat) | Proceed(id: nat)

  const IDLE := Connections(0, map[])

  predicate Possible(c: Connections, e: Event) {
    match e
    case Open(id) => id !in c.requests
    case Close(id) => id in c.requests && c.requests[id].Serving?
    case Proceed(id) => id in c.requests && (c.requests[id].LoadCount? || c.requests[id].CasCount?)
  }

  function After(c: Connections, e: Event): Connections
    requires Possible(c, e)
  {
    match e
    case Open(id) => Connections(c.active + 1, c.requests[id := Serving])
    case Close(id) => c.(requests := c.requests[id := LoadCount])
    case Proceed(id) =>
      match c.requests[id]
      case LoadCount => c.(requests := c.requests[id := CasCount(c.active)])
      case CasCount(seen) =>
        if c.active == seen then Connections(if seen - 1 < 0 then 0 else seen - 1, c.requests[id := Gone])
        else c.(requests := c.requests[id := LoadCount])
      case _ => c
  }

  predicate AllPossible(c: Connections, events: seq<Event>)
    decreases |events|
  {
    events == [] || (Possible(c, events[0]) && AllPossible(After(c, events[0]), events[1..]))
  }

  function Play(c: Connections, events: seq<Event>): Connections
    requires AllPossible(c, events)
    decreases |events|
  {
    if events == [] then c else Play(After(c, events[0]), events[1..])
  }

  /** The requests that have not counted themselves out yet. */
  function Outstanding(c: Connections): set<nat> {
    set id | id in c.requests && !c.requests[id].Gone?
  }

  lemma {:induction false} NeverReopened(c: Connections, events: seq<Event>, id: nat)
    requires AllPossible(c, events) && id in c.requests
    ensures Open(id) !in events
    ensures !c.requests[id].Serving? ==> Close(id) !in events
    decreases |events|
  {
    if events != [] {
      NeverReopened(After(c, events[0]), events[1..], id);
      assert events == [events[0]] + events[1..];
    }
  }

  /** The requests are those that were opened, and those not closed are still served. */
  lemma {:induction false} OpenedAreRequests(c: Connections, events: seq<Event>, id: nat)
    requires AllPossible(c, events)
    ensures var r := Play(c, events).requests;
            && (id in r <==> id in c.requests || Open(id) in events)
            && (id in r && r[id].Serving?
                <==> ((id in c.requests && c.requests[id].Serving?) || Open(id) in events) && Close(id) !in events)
    decreases |events|
  {
    if events != [] {
      OpenedAreRequests(After(c, events[0]), events[1..], id);
      if id in After(c, events[0]).requests {
        NeverReopened(After(c, events[0]), events[1..], id);
      }
      assert events == [events[0]] + events[1..];
    }
  }

  lemma EventKeepsCount(c: Connections, e: Event)
    requires Possible(c, e) && c.active == |Outstanding(c)|
    ensures After(c, e).active == |Outstanding(After(c, e))|
  {
    var c' := After(c, e);
    var before := Outstanding(c);
    if c'.requests[e.id].Gone? {
      assert e.id in before && Outstanding(c') == before - {e.id};
      assert |before - {e.id}| == |before| - 1;
    } else {
      assert Outstanding(c') == before + {e.id};
      assert e.id in before ==> before + {e.id} == before;
    }
  }

  lemma {:induction false} CountFrom(c: Connections, events: seq<Event>)
    requires AllPossible(c, events) && c.active == |Outstanding(c)|
    ensures Play(c, events).active == |Outstanding(Play(c, events))|
    decreases |events|
  {
    if events != [] {
      EventKeepsCount(c, events[0]);
      CountFrom(After(c, events[0]), events[1..]);
    }
  }

  /** In every interleaving the count is the number of outstanding requests, so it never
      needs to be clamped. */
  lemma ConnectionsAreCounted(events: seq<Event>)
    requires AllPossible(IDLE, events)
    ensures Play(IDLE, events).active == |Outstanding(Play(IDLE, events))|
  {
    assert Outstanding(IDLE) == {};
    CountFrom(IDLE, events);
  }
}
