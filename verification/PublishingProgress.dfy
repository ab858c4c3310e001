/** A failed publish is tried again, after the interval, until nsqd takes the event; and whatever else happens,
    each chance to publish is used. */
module PublishingProgress {
  import opened Options
  import opened Publishing

  // ----- one event -----

  /** Refusals, each followed by the interval before the next answer, and arrivals anywhere between. */
  predicate Refusals(events: seq<Event>, answering: bool)
    decreases |events|
  {
    if events == [] then answering
    else
      match events[0]
      case Arrives(_) => Refusals(events[1..], answering)
      case Answers(ok) => answering && !ok && Refusals(events[1..], false)
      case Ticks => !answering && Refusals(events[1..], true)
      case _ => false
  }

  lemma {:induction false} AfterFirst(s: State, events: seq<Event>)
    requires events != []
    ensures After(s, events) == After(Next(s, events[0]), events[1..])
  {
    var n := |events| - 1;
    if n == 0 {
      assert events[..0] == [] && events[1..] == [];
    } else {
      AfterFirst(s, events[..n]);
      assert events[..n][1..] == events[1..][..n - 1];
    }
  }

  lemma {:induction false} StillInHand(s: State, events: seq<Event>, answering: bool)
    requires if answering then s.phase.Sending? else s.phase.Waiting?
    requires Refusals(events, answering)
    ensures After(s, events).phase == Sending(s.phase.o, s.phase.caller) && After(s, events).published == s.published
    decreases |events|
  {
    if events != [] {
      AfterFirst(s, events);
      StillInHand(Next(s, events[0]), events[1..], if events[0].Arrives? then answering else events[0] == Ticks);
    }
  }

  /** An event in hand is published by nsqd's first yes, after any number of refusals, as the next event and once. */
  lemma TriedUntilTaken(s: State, events: seq<Event>)
    requires s.phase.Sending? && Refusals(events, true)
    ensures After(s, events).published == s.published
    ensures After(s, events + [Answers(true)]).published == s.published + [s.phase.o]
  {
    StillInHand(s, events, true);
    assert (events + [Answers(true)])[..|events|] == events;
  }

  /** But not before the interval has passed: a refusal is followed by no publication until then. */
  lemma {:induction false} NotBeforeTheInterval(s: State, events: seq<Event>)
    requires s.phase.Sending? && forall e :: e in events ==> e != Ticks && !e.Takes? && !e.Polls?
    ensures After(Next(s, Answers(false)), events).published == s.published
    ensures !After(Next(s, Answers(false)), events).phase.Sending?
  {
    if events != [] {
      NotBeforeTheInterval(s, events[..|events| - 1]);
    }
  }

  // ----- whole runs -----

  /** Run's look at the queue, or Flush's. */
  function Look(running: bool): Event {
    if running then Takes else Polls
  }

  /** A chance to publish: the interval passes, the queue is looked at, nsqd says yes. */
  function Chance(running: bool): seq<Event> {
    [Ticks, Look(running), Answers(true)]
  }

  /** How many chances there are among the events, whatever else there is. */
  function Chances(running: bool, events: seq<Event>): nat {
    var n := |events|;
    if n < 3 then 0
    else if events[n - 3..] == Chance(running) then Chances(running, events[..n - 3]) + 1
    else Chances(running, events[..n - 1])
  }

  /** Run, or Flush, is under way; or Flush has returned after publishing that many. */
  ghost predicate UnderWay(running: bool, s: State, goal: nat) {
    && Conserved(s) && SlotRight(s) && goal <= |s.accepted|
    && match s.phase
       case Selecting => running
       case Draining => !running
       case Sending(_, caller) => caller.Running? == running
       case Waiting(_, caller) => caller.Running? == running
       case Flushed(left) => !running && left == 0 && |s.published| >= goal
       case Off => false
  }

  lemma GoesOn(running: bool, s: State, goal: nat, e: Event)
    requires UnderWay(running, s, goal) && e != Done
    ensures var t := Next(s, e); UnderWay(running, t, goal) && |t.published| >= |s.published|
  {
    NextConserves(s, e);
    if s.phase == Draining && s.queue == [] {
      assert s.accepted == s.published;
    }
  }

  lemma {:induction false} AllGoOn(running: bool, s: State, goal: nat, events: seq<Event>)
    requires UnderWay(running, s, goal) && Done !in events
    ensures var t := After(s, events); UnderWay(running, t, goal) && |t.published| >= |s.published|
  {
    if events != [] {
      var n := |events| - 1;
      AllGoOn(running, s, goal, events[..n]);
      GoesOn(running, After(s, events[..n]), goal, events[n]);
    }
  }

  /** A chance is used, in whatever state it comes, if anything is left to publish. */
  lemma ChanceIsUsed(running: bool, s: State, goal: nat)
    requires UnderWay(running, s, goal)
    ensures var t := Next(Next(Next(s, Ticks), Look(running)), Answers(true));
            |t.published| >= goal || |t.published| >= |s.published| + 1
  {
    assert |s.accepted| == |s.published| + |Held(s)| + |s.queue|;
  }

  lemma AfterThree(s: State, events: seq<Event>)
    requires |events| >= 3
    ensures var n := |events|;
            After(s, events) == Next(Next(Next(After(s, events[..n - 3]), events[n - 3]), events[n - 2]), events[n - 1])
  {
    var n := |events|;
    assert events[..n] == events;
    AfterMore(s, events, n - 3);
    AfterMore(s, events, n - 2);
    AfterMore(s, events, n - 1);
  }

  lemma {:induction false} ChancesAreUsed(running: bool, s: State, goal: nat, events: seq<Event>)
    requires UnderWay(running, s, goal) && Done !in events
    ensures var t := After(s, events);
            |t.published| >= goal || |t.published| >= |s.published| + Chances(running, events)
  {
    var n := |events|;
    if n >= 3 && events[n - 3..] == Chance(running) {
      ChancesAreUsed(running, s, goal, events[..n - 3]);
      AllGoOn(running, s, goal, events[..n - 3]);
      AfterThree(s, events);
      assert events[n - 3] == Chance(running)[0] && events[n - 2] == Chance(running)[1] && events[n - 1] == Chance(running)[2];
      var t := After(s, events[..n - 3]);
      ChanceIsUsed(running, t, goal);
      AllGoOn(running, s, goal, events);
    } else if n > 0 {
      ChancesAreUsed(running, s, goal, events[..n - 1]);
      AllGoOn(running, s, goal, events[..n - 1]);
      GoesOn(running, After(s, events[..n - 1]), goal, events[n - 1]);
    }
  }

  /** While Run runs, whatever arrives and however often nsqd refuses: after as many chances as there were events
      left, all that had been accepted is published, in order. */
  lemma RunPublishesAll(size: nat, before: seq<Event>, events: seq<Event>)
    requires Done !in before && Done !in events
    ensures var s := After(StartRun(New(size)), before);
            var t := After(s, events);
            |s.published| <= |s.accepted|
            && (Chances(true, events) >= |s.accepted| - |s.published| ==> s.accepted <= t.published)
  {
    AllGoOn(true, StartRun(New(size)), 0, before);
    var s := After(StartRun(New(size)), before);
    assert |s.accepted| == |s.published| + |Held(s)| + |s.queue|;
    ChancesAreUsed(true, s, |s.accepted|, events);
    AllGoOn(true, s, |s.accepted|, events);
    AcceptedGrows(s, events);
  }

  lemma {:induction false} AcceptedGrows(s: State, events: seq<Event>)
    ensures s.accepted <= After(s, events).accepted
  {
    if events != [] {
      AcceptedGrows(s, events[..|events| - 1]);
    }
  }

  /** And so does Flush, what Run left pending first; then it returns 0 at its next look. */
  lemma FlushPublishesAllInTime(s: State, events: seq<Event>)
    requires s.phase == Off && Conserved(s) && Done !in events
    ensures var t := After(StartFlush(s), events);
            |s.published| <= |s.accepted|
            && (Chances(false, events) >= |s.accepted| - |s.published| ==>
                  s.accepted <= t.published
                  && (t.accepted == s.accepted ==> t.phase == Flushed(0) || Next(Next(t, Ticks), Polls).phase == Flushed(0)))
  {
    FlushMayStart(s);
    var start := StartFlush(s);
    assert |s.accepted| == |s.published| + |Held(s)| + |s.queue|;
    ChancesAreUsed(false, start, |s.accepted|, events);
    AllGoOn(false, start, |s.accepted|, events);
    AcceptedGrows(start, events);
    var t := After(start, events);
    if t.accepted == s.accepted && |t.published| == |t.accepted| { NothingLeft(t); }
  }

  lemma NothingLeft(t: State)
    requires UnderWay(false, t, |t.published|) && |t.published| == |t.accepted|
    ensures t.phase == Flushed(0) || Next(Next(t, Ticks), Polls).phase == Flushed(0)
  {
    assert |t.accepted| == |t.published| + |Held(t)| + |t.queue|;
  }

  // ----- the context's end -----

  lemma DoneEnds(running: bool, s: State)
    requires UnderWay(running, s, |s.published|) && (running || s.phase.Sending? || s.phase.Waiting?)
    ensures var t := Next(Next(s, Answers(false)), Done);
            && t.queue == s.queue && t.published == s.published && t.accepted == s.accepted
            && s.accepted == s.published + Slot(t.pending) + s.queue
            && if running then t.phase == Off else t.phase.Flushed? && t.phase.left == |s.accepted| - |s.published|
  {
    NextConserves(s, Answers(false));
    NextConserves(Next(s, Answers(false)), Done);
    assert |s.accepted| == |s.published| + |Held(s)| + |s.queue|;
  }

  /** When the context ends, Run returns: at once from its select, and from a publish at nsqd's next refusal, with the
      event in hand kept as pending; nothing else is lost either. */
  lemma ContextEndsRun(size: nat, before: seq<Event>)
    requires Done !in before
    ensures var s := After(StartRun(New(size)), before);
            var t := Next(Next(s, Answers(false)), Done);
            t.phase == Off && t.queue == s.queue && t.published == s.published
            && t.accepted == s.accepted == s.published + Slot(t.pending) + s.queue
  {
    AllGoOn(true, StartRun(New(size)), 0, before);
    DoneEnds(true, After(StartRun(New(size)), before));
  }

  /** And Flush from a publish likewise, with the number of events that are left. */
  lemma ContextEndsFlush(s: State, before: seq<Event>)
    requires s.phase == Off && Conserved(s) && Done !in before
    ensures var f := After(StartFlush(s), before);
            var t := Next(Next(f, Answers(false)), Done);
            f.phase.Sending? || f.phase.Waiting? ==>
              t.phase.Flushed? && t.phase.left == |f.accepted| - |f.published|
              && t.accepted == f.accepted == f.published + Slot(t.pending) + t.queue
  {
    FlushMayStart(s);
    AllGoOn(false, StartFlush(s), |s.published|, before);
    var f := After(StartFlush(s), before);
    if f.phase.Sending? || f.phase.Waiting? { DoneEnds(false, f); }
  }
}
