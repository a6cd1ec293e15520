/** The bus itself, one call at a time: each active subscriber either gets an event in
    its buffer or has a drop counted against it. */
module EventBus {

  import opened Wrappers

  datatype Subscriber = Subscriber(buffer: seq<int>, dropped: nat, active: bool, lastActive: int)

  /** A non-blocking send to one subscriber. */
  function Offer(sub: Subscriber, cap: nat, event: int, now: int): Subscriber {
    if !sub.active then sub
    else if |sub.buffer| < cap then sub.(buffer := sub.buffer + [event], lastActive := now)
    else sub.(dropped := sub.dropped + 1)
  }

  predicate HasRoom(sub: Subscriber, cap: nat) {
    sub.active && |sub.buffer| < cap
  }

  function WithRoom(subscribers: map<nat, Subscriber>, ids: set<nat>, cap: nat): set<nat> {
    set id | id in ids && id in subscribers && HasRoom(subscribers[id], cap)
  }

  /** The subscribers that hold more events after than before. */
  function Grown(before: map<nat, Subscriber>, after: map<nat, Subscriber>): set<nat> {
    set id | id in before && id in after && |after[id].buffer| > |before[id].buffer|
  }

  lemma OneMoreWithRoom(subscribers: map<nat, Subscriber>, rest: set<nat>, id: nat, cap: nat)
    requires id in rest && id in subscribers
    ensures |WithRoom(subscribers, subscribers.Keys - (rest - {id}), cap)|
         == |WithRoom(subscribers, subscribers.Keys - rest, cap)| + if HasRoom(subscribers[id], cap) then 1 else 0
  {
    var before := WithRoom(subscribers, subscribers.Keys - rest, cap);
    assert WithRoom(subscribers, subscribers.Keys - (rest - {id}), cap)
        == if HasRoom(subscribers[id], cap) then before + {id} else before;
  }

  class EventBus {
    var subscribers: map<nat, Subscriber>
    var subscriberSeq: nat
    var isShutdown: bool
    const bufferSize: nat

    ghost predicate Valid()
      reads this
    {
      && (forall id :: id in subscribers ==> id <= subscriberSeq && |subscribers[id].buffer| <= bufferSize)
      && (isShutdown ==> subscribers == map[])
    }

    constructor (bufferSize: nat)
      ensures Valid() && subscribers == map[] && !isShutdown && this.bufferSize == bufferSize
    {
      subscribers, subscriberSeq, isShutdown := map[], 0, false;
      this.bufferSize := bufferSize;
    }

    /** None stands for the closed channel handed out after a shutdown. */
    method Subscribe(now: int) returns (id: Option<nat>)
      requires Valid()
      modifies this
      ensures Valid() && isShutdown == old(isShutdown)
      ensures isShutdown ==> id == None && subscribers == old(subscribers)
      ensures !isShutdown ==>
                && id.Some? && id.value !in old(subscribers)
                && subscribers == old(subscribers)[id.value := Subscriber([], 0, true, now)]
    {
      if isShutdown {
        return None;
      }
      subscriberSeq := subscriberSeq + 1;
      subscribers := subscribers[subscriberSeq := Subscriber([], 0, true, now)];
      return Some(subscriberSeq);
    }

    /** Every subscriber is offered the event once, whatever the order of iteration. */
    method Publish(event: int, now: int) returns (delivered: nat)
      requires Valid()
      modifies this`subscribers
      ensures Valid()
      ensures isShutdown ==> delivered == 0
      ensures subscribers == map id | id in old(subscribers) :: Offer(old(subscribers)[id], bufferSize, event, now)
      ensures delivered == |WithRoom(old(subscribers), old(subscribers).Keys, bufferSize)|
      ensures delivered == |Grown(old(subscribers), subscribers)|
    {
      if isShutdown {
        assert WithRoom(subscribers, subscribers.Keys, bufferSize) == {};
        assert Grown(subscribers, subscribers) == {};
        return 0;
      }
      delivered := 0;
      ghost var was := subscribers;
      var rest := subscribers.Keys;
      while rest != {}
        invariant rest <= was.Keys && subscribers.Keys == was.Keys
        invariant forall id :: id in was ==>
                    subscribers[id] == if id in rest then was[id] else Offer(was[id], bufferSize, event, now)
        invariant delivered == |WithRoom(was, was.Keys - rest, bufferSize)|
        decreases rest
      {
        var id :| id in rest;
        var sub := subscribers[id];
        OneMoreWithRoom(was, rest, id, bufferSize);
        if sub.active {
          if |sub.buffer| < bufferSize {
            sub := sub.(buffer := sub.buffer + [event], lastActive := now);
            delivered := delivered + 1;
          } else {
            sub := sub.(dropped := sub.dropped + 1);
          }
        }
        subscribers := subscribers[id := sub];
        rest := rest - {id};
      }
      assert was.Keys - rest == was.Keys;
      assert WithRoom(was, was.Keys, bufferSize) == Grown(was, subscribers);
    }

    method Unsubscribe(id: nat)
      requires Valid()
      modifies this`subscribers
      ensures Valid() && subscribers == old(subscribers) - {id}
    {
      if id in subscribers {
        subscribers := subscribers - {id};
      }
      assert subscribers == old(subscribers) - {id};
    }

    method Shutdown()
      requires Valid()
      modifies this
      ensures Valid() && isShutdown && subscribers == map[] && subscriberSeq == old(subscriberSeq)
    {
      if isShutdown {
        return;
      }
      isShutdown := true;
      subscribers := map[];
    }
  }

  // -------------------------------------------------- one subscriber's history

  /** The bus offers an event, or the reader takes the oldest buffered one. */
  datatype Turn = Offered(event: int, now: int) | Read

  datatype History = History(sub: Subscriber, received: seq<int>)

  function After(h: History, cap: nat, t: Turn): History {
    match t
    case Offered(event, now) => h.(sub := Offer(h.sub, cap, event, now))
    case Read =>
      if h.sub.buffer == [] then h
      else History(h.sub.(buffer := h.sub.buffer[1..]), h.received + [h.sub.buffer[0]])
  }

  function Play(h: History, cap: nat, turns: seq<Turn>): History {
    if turns == [] then h else After(Play(h, cap, turns[..|turns| - 1]), cap, turns[|turns| - 1])
  }

  function EventsOf(turns: seq<Turn>): seq<int> {
    if turns == [] then []
    else EventsOf(turns[..|turns| - 1]) + match turns[|turns| - 1] case Offered(event, _) => [event] case Read => []
  }

  /** How full the buffer is, and how many events found it full. */
  function Level(cap: nat, turns: seq<Turn>): nat {
    if turns == [] then 0
    else
      var before := Level(cap, turns[..|turns| - 1]);
      match turns[|turns| - 1]
      case Offered(_, _) => if before < cap then before + 1 else before
      case Read => if before > 0 then before - 1 else 0
  }

  function Overflows(cap: nat, turns: seq<Turn>): nat {
    if turns == [] then 0
    else
      var init := turns[..|turns| - 1];
      Overflows(cap, init) + if turns[|turns| - 1].Offered? && Level(cap, init) >= cap then 1 else 0
  }

  /** An event is dropped only when the buffer is full, and the subscriber was last active
      when it last got one. */
  lemma {:induction false} OnlyOverflowsAreDropped(cap: nat, born: int, turns: seq<Turn>)
    ensures var h := Play(History(Subscriber([], 0, true, born), []), cap, turns);
            && |h.sub.buffer| == Level(cap, turns) && h.sub.dropped == Overflows(cap, turns) && h.sub.active
            && h.sub.lastActive == LastGot(cap, born, turns)
  {
    if turns != [] {
      OnlyOverflowsAreDropped(cap, born, turns[..|turns| - 1]);
    }
  }

  function LastGot(cap: nat, born: int, turns: seq<Turn>): int {
    if turns == [] then born
    else
      var init, last := turns[..|turns| - 1], turns[|turns| - 1];
      if last.Offered? && Level(cap, init) < cap then last.now else LastGot(cap, born, init)
  }

  /** part is got from all by leaving out some elements. */
  predicate Subsequence(part: seq<int>, all: seq<int>) {
    if part == [] then true
    else if all == [] then false
    else if part[|part| - 1] == all[|all| - 1] && Subsequence(part[..|part| - 1], all[..|all| - 1]) then true
    else Subsequence(part, all[..|all| - 1])
  }

  /** Each event published to an active subscriber is delivered or counted as dropped,
      never both; what the subscriber sees is what was published, in order, less the
      drops. */
  lemma {:induction false} DeliveredOrDropped(cap: nat, born: int, turns: seq<Turn>)
    ensures var h := Play(History(Subscriber([], 0, true, born), []), cap, turns);
            && h.sub.active && |h.sub.buffer| <= cap
            && |h.received| + |h.sub.buffer| + h.sub.dropped == |EventsOf(turns)|
            && Subsequence(h.received + h.sub.buffer, EventsOf(turns))
  {
    if turns != [] {
      var start := History(Subscriber([], 0, true, born), []);
      var init, last := turns[..|turns| - 1], turns[|turns| - 1];
      DeliveredOrDropped(cap, born, init);
      var h := Play(start, cap, init);
      var h' := After(h, cap, last);
      var seen := h.received + h.sub.buffer;
      match last {
        case Offered(event, _) =>
          if |h.sub.buffer| < cap {
            assert h'.received + h'.sub.buffer == seen + [event];
          } else {
            assert h'.received + h'.sub.buffer == seen;
          }
        case Read =>
          assert h'.received + h'.sub.buffer == seen;
          assert EventsOf(turns) == EventsOf(init);
      }
    }
  }
}
