/** The publisher: events queued by the clients, and sent to nsqd in order by Run and then Flush. */
module Publishing {
  import opened Options

  datatype Outgoing = Outgoing(topic: string, body: string)

  /** Whose call of publish: Run's, Flush's for the pending event, or Flush's for a queued one. */
  datatype Caller = Running | FlushingPending | FlushingQueue

  /** Where the one goroutine that publishes is. */
  datatype Phase =
    | Off
    | Selecting
    | Draining
    | Sending(o: Outgoing, caller: Caller)
    | Waiting(o: Outgoing, caller: Caller)
    | Flushed(left: nat)

  /** How a call of publish ends, if it does: o is sent, or the context ended first. */
  datatype Outcome = Succeeded | Stopped | StillTrying

  /** What can happen next: another goroutine enqueues; a select receives from the queue or sees that
      the context is done; nsqd answers; the retry interval passes; Flush looks at the queue. */
  datatype Event = Arrives(o: Outgoing) | Takes | Done | Answers(ok: bool) | Ticks | Polls

  datatype State = State(
    size: nat,
    queue: seq<Outgoing>,
    pending: Option<Outgoing>,
    phase: Phase,
    accepted: seq<Outgoing>,
    published: seq<Outgoing>,
    dropped: seq<Outgoing>
  )

  function New(size: nat): State {
    State(size, [], None, Off, [], [], [])
  }

  function StartRun(s: State): State {
    s.(phase := Selecting)
  }

  function StartFlush(s: State): State {
    s.(phase := if s.pending.Some? then Sending(s.pending.value, FlushingPending) else Draining)
  }

  function Arrive(s: State, o: Outgoing): State {
    if |s.queue| < s.size then s.(queue := s.queue + [o], accepted := s.accepted + [o])
    else s.(dropped := s.dropped + [o])
  }

  function Take(s: State, caller: Caller): State
    requires s.queue != []
  {
    s.(queue := s.queue[1..], phase := Sending(s.queue[0], caller))
  }

  function WithPublished(s: State, o: Outgoing): State {
    s.(published := s.published + [o])
  }

  /** publish has returned true. */
  function Sent(s: State, caller: Caller): State {
    match caller
    case Running => s.(phase := Selecting)
    case FlushingPending => s.(phase := Draining, pending := None)
    case FlushingQueue => s.(phase := Draining)
  }

  /** publish has returned false. */
  function GaveUp(s: State, o: Outgoing, caller: Caller): State {
    match caller
    case Running => s.(phase := Off, pending := Some(o))
    case FlushingPending => s.(phase := Flushed(|s.queue| + 1))
    case FlushingQueue => s.(phase := Flushed(|s.queue| + 1), pending := Some(o))
  }

  /** An event that cannot happen in this phase changes nothing. */
  function Next(s: State, e: Event): State {
    match e
    case Arrives(o) => Arrive(s, o)
    case Takes => if s.phase == Selecting && s.queue != [] then Take(s, Running) else s
    case Done =>
      if s.phase == Selecting then s.(phase := Off)
      else if s.phase.Waiting? then GaveUp(s, s.phase.o, s.phase.caller)
      else s
    case Answers(ok) =>
      if !s.phase.Sending? then s
      else if ok then Sent(WithPublished(s, s.phase.o), s.phase.caller)
      else s.(phase := Waiting(s.phase.o, s.phase.caller))
    case Ticks => if s.phase.Waiting? then s.(phase := Sending(s.phase.o, s.phase.caller)) else s
    case Polls =>
      if s.phase != Draining then s
      else if s.queue != [] then Take(s, FlushingQueue)
      else s.(phase := Flushed(0))
  }

  function After(s: State, events: seq<Event>): State {
    if events == [] then s else Next(After(s, events[..|events| - 1]), events[|events| - 1])
  }

  lemma AfterMore(s: State, events: seq<Event>, n: nat)
    requires n < |events|
    ensures After(s, events[..n + 1]) == Next(After(s, events[..n]), events[n])
  {
    assert events[..n + 1][..n] == events[..n];
  }

  // ----- the publisher itself -----

  class Publisher {
    const size: nat
    var queue: seq<Outgoing>
    var pending: Option<Outgoing>
    ghost var now: State

    ghost predicate Valid()
      reads this
    {
      now.size == size && now.queue == queue && now.pending == pending
    }

    constructor (size: nat)
      ensures Valid() && now == New(size)
    {
      this.size := size;
      queue, pending, now := [], None, New(size);
    }

    /** An event whose encoding failed has no body, and is only logged. */
    method Enqueue(topic: string, body: Option<string>)
      requires Valid()
      modifies this
      ensures Valid()
      ensures now == if body.None? then old(now) else Arrive(old(now), Outgoing(topic, body.value))
    {
      if body.None? {
        return;
      }
      now := Arrive(now, Outgoing(topic, body.value));
      if |queue| < size {
        queue := queue + [Outgoing(topic, body.value)];
      }
    }

    /** What happens in one turn of publish's loop; with the event that ends it, nothing yet. */
    method Turn(o: Outgoing, ghost caller: Caller, events: seq<Event>, at: nat, calling: bool, ghost start: State)
        returns (outcome: Outcome, calling': bool)
      requires Valid() && at < |events| && now == After(start, events[..at])
      requires now.phase == if calling then Sending(o, caller) else Waiting(o, caller)
      modifies this
      ensures Valid() && pending == old(pending)
      ensures outcome == StillTrying ==>
        now == After(start, events[..at + 1]) && now.phase == if calling' then Sending(o, caller) else Waiting(o, caller)
      ensures outcome == Succeeded ==> now == old(now) && calling && events[at] == Answers(true)
      ensures outcome == Stopped ==> now == old(now) && !calling && events[at] == Done
    {
      AfterMore(start, events, at);
      var e := events[at];
      outcome, calling' := StillTrying, calling;
      if e == Answers(true) && calling {
        outcome := Succeeded;
      } else if e == Done && !calling {
        outcome := Stopped;
      } else if e == Answers(false) && calling {
        now, calling' := Next(now, e), false;
      } else if e == Ticks && !calling {
        now, calling' := Next(now, e), true;
      } else if e.Arrives? {
        Enqueue(e.o.topic, Some(e.o.body));
      }
    }

    /** Sends o, again and again; what happens meanwhile is events, from the from-th on. It stops at the
        answer that o is sent, or at the context's end, which its caller then takes note of; or it is
        still at it when the events run out. */
    method Publish(o: Outgoing, ghost caller: Caller, events: seq<Event>, from: nat, ghost start: State)
        returns (outcome: Outcome, next: nat)
      requires Valid()
      requires from <= |events| && now == After(start, events[..from]) && now.phase == Sending(o, caller)
      modifies this
      ensures Valid() && pending == old(pending) && from <= next <= |events| && now == After(start, events[..next])
      ensures outcome == Succeeded ==>
        next < |events| && events[next] == Answers(true) && now.phase == Sending(o, caller)
      ensures outcome == Stopped ==>
        next < |events| && events[next] == Done && now.phase == Waiting(o, caller)
      ensures outcome == StillTrying ==>
        next == |events| && (now.phase == Sending(o, caller) || now.phase == Waiting(o, caller))
    {
      next := from;
      var calling := true;
      outcome := StillTrying;
      while next < |events|
        invariant Valid() && pending == old(pending)
        invariant from <= next <= |events| && now == After(start, events[..next])
        invariant now.phase == if calling then Sending(o, caller) else Waiting(o, caller)
        invariant outcome == StillTrying
      {
        outcome, calling := Turn(o, caller, events, next, calling, start);
        if outcome != StillTrying {
          return;
        }
        next := next + 1;
      }
    }

    /** Notes how publish ended for an event off the queue. */
    method Conclude(o: Outgoing, ghost caller: Caller, sent: bool, events: seq<Event>, at: nat, ghost start: State)
      requires Valid() && caller != FlushingPending && at < |events| && now == After(start, events[..at])
      requires if sent then events[at] == Answers(true) && now.phase == Sending(o, caller)
               else events[at] == Done && now.phase == Waiting(o, caller)
      modifies this
      ensures Valid() && now == After(start, events[..at + 1])
      ensures now.phase ==
        if sent then (if caller == Running then Selecting else Draining)
        else (if caller == Running then Off else Flushed(|queue| + 1))
    {
      AfterMore(start, events, at);
      now := Next(now, events[at]);
      if !sent {
        pending := Some(o);
      }
    }

    method TakeNext(ghost caller: Caller, events: seq<Event>, at: nat, ghost start: State) returns (o: Outgoing)
      requires Valid() && queue != [] && caller != FlushingPending && at < |events| && now == After(start, events[..at])
      requires if caller == Running then events[at] == Takes && now.phase == Selecting
               else events[at] == Polls && now.phase == Draining
      modifies this
      ensures Valid() && now == After(start, events[..at + 1]) && now.phase == Sending(o, caller)
    {
      AfterMore(start, events, at);
      now := Next(now, events[at]);
      o := queue[0];
      queue := queue[1..];
    }

    /** Takes an event off the queue and publishes it, as Run and Flush both do; it is kept as pending
        if the context ends first. */
    method PublishNext(ghost caller: Caller, events: seq<Event>, from: nat, ghost start: State)
        returns (outcome: Outcome, next: nat)
      requires Valid() && queue != [] && caller != FlushingPending && from < |events| && now == After(start, events[..from])
      requires if caller == Running then events[from] == Takes && now.phase == Selecting
               else events[from] == Polls && now.phase == Draining
      modifies this
      ensures Valid() && from < next <= |events| && now == After(start, events[..next])
      ensures outcome == Succeeded ==> now.phase == if caller == Running then Selecting else Draining
      ensures outcome == Stopped ==> now.phase == if caller == Running then Off else Flushed(|queue| + 1)
      ensures outcome == StillTrying ==> next == |events| && (now.phase.Sending? || now.phase.Waiting?)
    {
      var o := TakeNext(caller, events, from, start);
      outcome, next := Publish(o, caller, events, from + 1, start);
      if outcome != StillTrying {
        Conclude(o, caller, outcome == Succeeded, events, next, start);
        next := next + 1;
      }
    }

    /** One event in Run's select or in Flush's, other than an event taken off the queue; true if it was
        the end. */
    method Otherwise(running: bool, events: seq<Event>, at: nat, ghost start: State) returns (ended: bool)
      requires Valid() && now.phase == if running then Selecting else Draining
      requires at < |events| && now == After(start, events[..at])
      requires queue == [] || events[at] != if running then Takes else Polls
      modifies this
      ensures Valid() && now == After(start, events[..at + 1])
      ensures now.phase ==
        if running then (if ended then Off else Selecting) else (if ended then Flushed(0) else Draining)
    {
      AfterMore(start, events, at);
      var e := events[at];
      ended := e == if running then Done else Polls;
      if ended {
        now := Next(now, e);
      } else if e.Arrives? {
        Enqueue(e.o.topic, Some(e.o.body));
      }
    }

    /** Runs through the events until it returns or they run out; used is how many it went through. */
    method Run(events: seq<Event>) returns (used: nat)
      requires Valid() && now.phase == Off
      modifies this
      ensures Valid() && used <= |events| && now == After(StartRun(old(now)), events[..used])
      ensures used < |events| ==> now.phase == Off
    {
      ghost var start := StartRun(now);
      now := start;
      used := 0;
      while used < |events|
        invariant Valid() && used <= |events| && now == After(start, events[..used])
        invariant used < |events| ==> now.phase == Selecting
      {
        if events[used] == Takes && queue != [] {
          var outcome;
          outcome, used := PublishNext(Running, events, used, start);
          if outcome == Stopped {
            return;
          }
        } else {
          var ended := Otherwise(true, events, used, start);
          used := used + 1;
          if ended {
            return;
          }
        }
      }
    }

    /** The first half of Flush: what Run left pending. */
    method FlushPending(events: seq<Event>) returns (outcome: Outcome, used: nat)
      requires Valid() && now.phase == Off
      modifies this
      ensures Valid() && used <= |events| && now == After(StartFlush(old(now)), events[..used])
      ensures outcome == Succeeded ==> now.phase == Draining
      ensures outcome == Stopped ==> now.phase == Flushed(|queue| + 1)
      ensures outcome == StillTrying ==> used == |events| && !now.phase.Flushed?
    {
      ghost var start := StartFlush(now);
      now := start;
      if pending == None {
        return Succeeded, 0;
      }
      var o := pending.value;
      outcome, used := Publish(o, FlushingPending, events, 0, start);
      if outcome == StillTrying {
        return;
      }
      AfterMore(start, events, used);
      now := Next(now, events[used]);
      used := used + 1;
      if outcome == Succeeded {
        pending := None;
      }
    }

    /** The second half: the queue, until it is empty; returned is whether Flush has returned. */
    method FlushQueue(events: seq<Event>, from: nat, ghost start: State) returns (returned: bool, left: nat, used: nat)
      requires Valid() && now.phase == Draining && from <= |events| && now == After(start, events[..from])
      modifies this
      ensures Valid() && from <= used <= |events| && now == After(start, events[..used])
      ensures if returned then now.phase == Flushed(left) else used == |events| && !now.phase.Flushed?
    {
      returned, left, used := false, 0, from;
      while used < |events|
        invariant Valid() && from <= used <= |events| && now == After(start, events[..used]) && !now.phase.Flushed?
        invariant used < |events| ==> now.phase == Draining
      {
        if events[used] == Polls && queue != [] {
          var outcome;
          outcome, used := PublishNext(FlushingQueue, events, used, start);
          if outcome == Stopped {
            return true, |queue| + 1, used;
          }
        } else {
          var ended := Otherwise(false, events, used, start);
          used := used + 1;
          if ended {
            return true, 0, used;
          }
        }
      }
    }

    /** Flush likewise; left is what it returns, if it has returned. */
    method Flush(events: seq<Event>) returns (returned: bool, left: nat, used: nat)
      requires Valid() && now.phase == Off
      modifies this
      ensures Valid() && used <= |events| && now == After(StartFlush(old(now)), events[..used])
      ensures if returned then now.phase == Flushed(left) else used == |events| && !now.phase.Flushed?
    {
      ghost var start := StartFlush(now);
      var outcome;
      outcome, used := FlushPending(events);
      if outcome == Succeeded {
        returned, left, used := FlushQueue(events, used, start);
      } else {
        returned, left := outcome == Stopped, |queue| + 1;
      }
    }
  }

  // ----- nothing lost, repeated or reordered -----

  function Slot(o: Option<Outgoing>): seq<Outgoing> {
    if o.Some? then [o.value] else []
  }

  /** What is neither published nor queued: the pending event, and the one in hand. */
  function Held(s: State): seq<Outgoing> {
    Slot(s.pending)
    + (if (s.phase.Sending? || s.phase.Waiting?) && s.phase.caller != FlushingPending then [s.phase.o] else [])
  }

  ghost predicate Conserved(s: State) {
    s.accepted == s.published + Held(s) + s.queue
  }

  /** The pending slot is free while Run runs and while Flush empties the queue. */
  ghost predicate SlotRight(s: State) {
    match s.phase
    case Off => true
    case Selecting => s.pending == None
    case Draining => s.pending == None
    case Sending(o, caller) => s.pending == if caller == FlushingPending then Some(o) else None
    case Waiting(o, caller) => s.pending == if caller == FlushingPending then Some(o) else None
    case Flushed(_) => true
  }

  lemma ArriveConserves(s: State, o: Outgoing)
    requires Conserved(s)
    ensures Conserved(Arrive(s, o))
  {
    assert s.published + Held(s) + (s.queue + [o]) == s.published + Held(s) + s.queue + [o];
  }

  lemma TakeConserves(s: State, caller: Caller)
    requires Conserved(s) && Held(s) == [] && s.queue != [] && caller != FlushingPending && s.pending == None
    ensures Conserved(Take(s, caller))
  {
    assert s.published + [] + s.queue == s.published + [s.queue[0]] + s.queue[1..];
  }

  lemma SentConserves(s: State)
    requires Conserved(s) && SlotRight(s) && s.phase.Sending?
    ensures Held(s) == [s.phase.o]
    ensures Conserved(Next(s, Answers(true)))
  {
    assert s.published + [s.phase.o] + s.queue == (s.published + [s.phase.o]) + [] + s.queue;
  }

  lemma NextConserves(s: State, e: Event)
    requires Conserved(s) && SlotRight(s)
    ensures Conserved(Next(s, e)) && SlotRight(Next(s, e))
  {
    match e
    case Arrives(o) => ArriveConserves(s, o);
    case Takes => if s.phase == Selecting && s.queue != [] { TakeConserves(s, Running); }
    case Polls => if s.phase == Draining && s.queue != [] { TakeConserves(s, FlushingQueue); }
    case Answers(ok) => if s.phase.Sending? && ok { SentConserves(s); }
    case Done =>
    case Ticks =>
  }

  /** Whatever nsqd answers, whenever the context ends: what was accepted is what was published, then
      the event in hand or pending, then the queue. */
  lemma {:induction false} AlwaysConserved(s: State, events: seq<Event>)
    requires Conserved(s) && SlotRight(s)
    ensures Conserved(After(s, events)) && SlotRight(After(s, events))
  {
    if events != [] {
      AlwaysConserved(s, events[..|events| - 1]);
      NextConserves(After(s, events[..|events| - 1]), events[|events| - 1]);
    }
  }

  /** Run may start only with nothing pending: otherwise, and only then, something can be lost. */
  lemma RunConservesExactly(s: State)
    requires s.phase == Off && Conserved(s) && 0 < s.size
    ensures (forall events :: Conserved(After(StartRun(s), events))) <==> s.pending == None
  {
    if s.pending == None {
      forall events ensures Conserved(After(StartRun(s), events)) {
        AlwaysConserved(StartRun(s), events);
      }
    } else {
      RunLosesPending(s);
    }
  }

  /** The events that lose it: Run takes one more, nsqd refuses it, and the context ends. */
  function Losing(o: Outgoing): seq<Event> {
    [Arrives(o), Takes, Answers(false), Done]
  }

  lemma RunLosesPending(s: State)
    requires s.phase == Off && Conserved(s) && 0 < s.size && s.pending.Some?
    ensures !Conserved(After(StartRun(s), Losing(s.pending.value)))
  {
    var events := Losing(s.pending.value);
    var a := Next(StartRun(s), events[0]);
    var b := Next(a, Takes);
    var c := Next(b, Answers(false));
    assert After(StartRun(s), events[..0]) == StartRun(s);
    AfterMore(StartRun(s), events, 0);
    AfterMore(StartRun(s), events, 1);
    AfterMore(StartRun(s), events, 2);
    AfterMore(StartRun(s), events, 3);
    assert events[..4] == events;
    assert |a.accepted| == |a.published| + 1 + |a.queue|;
    assert a.queue != [];
  }

  lemma FlushMayStart(s: State)
    requires s.phase == Off && Conserved(s)
    ensures Conserved(StartFlush(s)) && SlotRight(StartFlush(s))
  {
  }

  /** Flush's result is what is not published at that moment: the pending event, then the queue. */
  lemma FlushCounts(s: State, e: Event)
    requires Conserved(s) && SlotRight(s) && !s.phase.Flushed? && Next(s, e).phase.Flushed?
    ensures var t := Next(s, e);
            t.phase.left == |t.accepted| - |t.published| && t.accepted[|t.published|..] == Slot(t.pending) + t.queue
  {
    var t := Next(s, e);
    NextConserves(s, e);
    assert t.accepted == t.published + (Slot(t.pending) + t.queue);
  }

  /** A publisher's whole life, from Run's start to Flush's return: order and content are kept, and the
      result is exactly the number of accepted events that were not published. */
  lemma WholeLife(size: nat, running: seq<Event>, flushing: seq<Event>)
    requires flushing != []
    ensures var stopped := After(StartRun(New(size)), running);
            var last := After(StartFlush(stopped), flushing[..|flushing| - 1]);
            var t := After(StartFlush(stopped), flushing);
            stopped.phase == Off && !last.phase.Flushed? && t.phase.Flushed? ==>
              t.published <= t.accepted && t.phase.left == |t.accepted| - |t.published|
  {
    var stopped := After(StartRun(New(size)), running);
    AlwaysConserved(StartRun(New(size)), running);
    if stopped.phase == Off {
      FlushMayStart(stopped);
      var last := After(StartFlush(stopped), flushing[..|flushing| - 1]);
      AlwaysConserved(StartFlush(stopped), flushing[..|flushing| - 1]);
      if !last.phase.Flushed? && Next(last, flushing[|flushing| - 1]).phase.Flushed? {
        FlushCounts(last, flushing[|flushing| - 1]);
        NextConserves(last, flushing[|flushing| - 1]);
      }
    }
  }

  // ----- arrivals -----

  function Arrivals(events: seq<Event>): seq<Outgoing> {
    if events == [] then []
    else
      var n := |events| - 1;
      Arrivals(events[..n]) + (if events[n].Arrives? then [events[n].o] else [])
  }

  /** Every arrival is accepted or dropped, and with no drop all are accepted, in order. */
  lemma {:induction false} ArrivalsAreAcceptedOrDropped(s: State, events: seq<Event>)
    ensures var t := After(s, events);
            |t.accepted| + |t.dropped| == |s.accepted| + |s.dropped| + |Arrivals(events)|
            && |s.dropped| <= |t.dropped|
            && (|t.dropped| == |s.dropped| ==> t.accepted == s.accepted + Arrivals(events))
  {
    if events != [] {
      var n := |events| - 1;
      ArrivalsAreAcceptedOrDropped(s, events[..n]);
    }
  }

  lemma {:induction false} QueueIsBounded(s: State, events: seq<Event>)
    requires |s.queue| <= s.size
    ensures |After(s, events).queue| <= s.size && After(s, events).size == s.size
  {
    if events != [] {
      QueueIsBounded(s, events[..|events| - 1]);
    }
  }

  /** An event is dropped exactly when the queue is full. */
  lemma DroppedExactlyWhenFull(s: State, events: seq<Event>, o: Outgoing)
    requires |s.queue| <= s.size
    ensures var t := After(s, events);
            Next(t, Arrives(o)).dropped != t.dropped <==> |t.queue| == s.size
  {
    QueueIsBounded(s, events);
  }

  // ----- Flush gets there -----

  /** Neither an arrival nor the context's end. */
  predicate Untroubled(e: Event) {
    !e.Arrives? && e != Done
  }

  /** Flush is under way, or has returned 0 with nothing left. */
  predicate Flushing(s: State) {
    match s.phase
    case Off => false
    case Selecting => false
    case Draining => true
    case Sending(_, caller) => caller != Running
    case Waiting(_, caller) => caller != Running
    case Flushed(left) => left == 0 && s.queue == [] && s.pending == None
  }

  lemma FlushGoesOn(s: State, e: Event)
    requires Conserved(s) && SlotRight(s) && Flushing(s) && Untroubled(e)
    ensures var t := Next(s, e);
            Flushing(t) && t.accepted == s.accepted
            && |t.published| == |s.published| + (if e == Answers(true) && s.phase.Sending? then 1 else 0)
  {}

  /** How many of the events are nsqd's word that it has taken one. */
  function Taken(s: State, events: seq<Event>): nat {
    if events == [] then 0
    else
      var n := |events| - 1;
      Taken(s, events[..n])
      + (if events[n] == Answers(true) && After(s, events[..n]).phase.Sending? then 1 else 0)
  }

  lemma {:induction false} FlushCountsTaken(s: State, events: seq<Event>)
    requires Conserved(s) && SlotRight(s) && Flushing(s) && forall e :: e in events ==> Untroubled(e)
    ensures var t := After(s, events);
            Conserved(t) && SlotRight(t) && Flushing(t) && t.accepted == s.accepted
            && |t.published| == |s.published| + Taken(s, events)
  {
    if events != [] {
      var n := |events| - 1;
      FlushCountsTaken(s, events[..n]);
      AlwaysConserved(s, events[..n]);
      FlushGoesOn(After(s, events[..n]), events[n]);
      NextConserves(After(s, events[..n]), events[n]);
    }
  }

  /** While Flush runs nothing arrives and the context does not end: whatever nsqd answers and however
      long it takes, Flush returns nothing but 0, and only when everything accepted is published, the
      pending event first. */
  lemma FlushPublishesAll(s: State, events: seq<Event>)
    requires s.phase == Off && Conserved(s) && forall e :: e in events ==> Untroubled(e)
    ensures var t := After(StartFlush(s), events);
            t.accepted == s.accepted && t.published <= t.accepted
            && (t.phase.Flushed? ==> t.phase == Flushed(0) && t.published == t.accepted)
  {
    FlushMayStart(s);
    FlushCountsTaken(StartFlush(s), events);
  }

  /** And it does return: once nsqd has taken as many as were left, all are published, and Flush has
      returned or returns at its next look at the queue. */
  lemma FlushReturns(s: State, events: seq<Event>)
    requires s.phase == Off && Conserved(s) && forall e :: e in events ==> Untroubled(e)
    ensures |s.published| <= |s.accepted|
    ensures Taken(StartFlush(s), events) <= |s.accepted| - |s.published|
    ensures Taken(StartFlush(s), events) == |s.accepted| - |s.published| ==>
      var t := After(StartFlush(s), events);
      t.published == s.accepted && (t.phase == Flushed(0) || (t.phase == Draining && Next(t, Polls).phase == Flushed(0)))
  {
    FlushMayStart(s);
    FlushCountsTaken(StartFlush(s), events);
    var t := After(StartFlush(s), events);
    assert |t.accepted| == |t.published| + |Held(t)| + |t.queue|;
    if Taken(StartFlush(s), events) == |s.accepted| - |s.published| {
      assert Held(t) == [] && t.queue == [];
      assert t.published + [] + [] == t.published;
    }
  }
}
