/** The sender: a bounded queue of lines for the server, drained by one goroutine at a limited rate. */
module Sending {
  const SEND_QUEUE_SIZE: nat := 256

  /** The lines the sender logs: that the queue is full, and later how many lines were dropped. */
  datatype LogLine = QueueFull | DroppedLines(n: nat)

  /** The draining goroutine. A line taken when the sender was stopped is late: the limiter refuses it. */
  datatype Worker = Selecting | InHand(line: string, late: bool) | Ended(lost: seq<string>)

  /** checked are the lines of the Sends that have seen the sender run, but do not hold its mutex yet;
      refused counts the lines that found the queue full. Stop is between its cancel and its last log
      line while stopping holds. */
  datatype State = State(
    queue: seq<string>,
    dropped: nat,
    cancelled: bool,
    stopping: bool,
    worker: Worker,
    checked: multiset<string>,
    accepted: seq<string>,
    handed: seq<string>,
    refused: nat,
    log: seq<LogLine>
  )

  /** A Send begins, or gets the mutex; the goroutine takes a line, is let by the limiter, is refused by
      it, or sees the stop; Stop cancels, and then logs. */
  datatype Event =
    | Sends(line: string)
    | Enters(line: string)
    | Takes
    | Passes
    | Refused
    | SeesStop
    | Cancels
    | Logs

  function New(): State {
    State([], 0, false, false, Selecting, multiset{}, [], [], 0, [])
  }

  function LogDropped(s: State): State {
    if s.dropped > 0 then s.(log := s.log + [DroppedLines(s.dropped)], dropped := 0) else s
  }

  /** The part of Send under the mutex. */
  function Push(s: State, line: string): State {
    if |s.queue| < SEND_QUEUE_SIZE then
      LogDropped(s.(queue := s.queue + [line], accepted := s.accepted + [line]))
    else
      s.(log := if s.dropped == 0 then s.log + [QueueFull] else s.log, dropped := s.dropped + 1, refused := s.refused + 1)
  }

  /** An event that cannot happen changes nothing. */
  function Next(s: State, e: Event): State {
    match e
    case Sends(line) => if s.cancelled then s else s.(checked := s.checked + multiset{line})
    case Enters(line) => if line in s.checked then Push(s.(checked := s.checked - multiset{line}), line) else s
    case Takes =>
      if s.worker == Selecting && s.queue != [] then
        s.(queue := s.queue[1..], worker := InHand(s.queue[0], s.cancelled))
      else s
    case Passes =>
      if s.worker.InHand? && !s.worker.late then s.(handed := s.handed + [s.worker.line], worker := Selecting) else s
    case Refused =>
      if s.worker.InHand? && s.cancelled then s.(worker := Ended([s.worker.line])) else s
    case SeesStop =>
      if s.worker == Selecting && s.cancelled then s.(worker := Ended([])) else s
    case Cancels => if s.cancelled then s else s.(cancelled := true, stopping := true)
    case Logs => if s.stopping then LogDropped(s.(stopping := false)) else s
  }

  /** What other goroutines than the draining one do. */
  predicate Foreign(e: Event) {
    e.Sends? || e.Enters? || e.Cancels? || e.Logs?
  }

  function After(s: State, events: seq<Event>): State {
    if events == [] then s else Next(After(s, events[..|events| - 1]), events[|events| - 1])
  }

  lemma AfterMore(s: State, events: seq<Event>, n: nat)
    requires n < |events|
    ensures After(s, events[..n + 1]) == Next(After(s, events[..n]), events[n])
  {
    assert events[..n + 1][..n] == events[..n];
  }

  // ----- the sender itself -----

  /** Where an event leaves a line that waits for the limiter. */
  datatype Waiting = StillWaiting | LetThrough | TurnedBack

  /** checked and stopping say where the goroutines that call Send and Stop are. */
  class Sender {
    var queue: seq<string>
    var dropped: nat
    var cancelled: bool
    var log: seq<LogLine>
    var checked: multiset<string>
    var stopping: bool
    ghost var now: State

    ghost predicate Valid()
      reads this
    {
      && now.queue == queue && now.dropped == dropped && now.cancelled == cancelled && now.log == log
      && now.checked == checked && now.stopping == stopping
    }

    constructor ()
      ensures Valid() && now == New()
    {
      queue, dropped, cancelled, log, checked, stopping, now := [], 0, false, [], multiset{}, false, New();
    }

    method ReportDropped()
      requires Valid()
      modifies this
      ensures Valid() && now == LogDropped(old(now))
    {
      now := LogDropped(now);
      if dropped > 0 {
        log := log + [DroppedLines(dropped)];
        dropped := 0;
      }
    }

    /** The first part of Send: is the sender still running? */
    method Check(line: string) returns (running: bool)
      requires Valid()
      modifies this
      ensures Valid() && now == Next(old(now), Sends(line)) && running == !cancelled
    {
      now := Next(now, Sends(line));
      if cancelled {
        return false;
      }
      checked := checked + multiset{line};
      return true;
    }

    /** The rest, under the mutex; anything can happen in between. */
    method Enqueue(line: string) returns (ok: bool)
      requires Valid() && line in checked
      modifies this
      ensures Valid() && now == Next(old(now), Enters(line))
      ensures ok <==> |old(queue)| < SEND_QUEUE_SIZE
    {
      checked := checked - multiset{line};
      ghost var left := now.(checked := checked);
      if |queue| < SEND_QUEUE_SIZE {
        queue := queue + [line];
        now := left.(queue := queue, accepted := left.accepted + [line]);
        ReportDropped();
        return true;
      }
      if dropped == 0 {
        log := log + [QueueFull];
      }
      dropped := dropped + 1;
      now := Push(left, line);
      return false;
    }

    /** A Send that nothing comes between. */
    method Send(line: string) returns (ok: bool)
      requires Valid()
      modifies this
      ensures Valid()
      ensures now == if old(cancelled) then old(now) else Next(Next(old(now), Sends(line)), Enters(line))
      ensures ok <==> !old(cancelled) && |old(queue)| < SEND_QUEUE_SIZE
    {
      var running := Check(line);
      if !running {
        return false;
      }
      ok := Enqueue(line);
    }

    /** The two parts of Stop, of which only the first call does anything. */
    method Cancel()
      requires Valid()
      modifies this
      ensures Valid() && now == Next(old(now), Cancels)
    {
      now := Next(now, Cancels);
      if !cancelled {
        cancelled, stopping := true, true;
      }
    }

    method LogStop()
      requires Valid()
      modifies this
      ensures Valid() && now == Next(old(now), Logs)
    {
      if stopping {
        now := now.(stopping := false);
        stopping := false;
        ReportDropped();
      }
    }

    method Stop()
      requires Valid()
      modifies this
      ensures Valid() && now == Next(Next(old(now), Cancels), Logs)
    {
      Cancel();
      LogStop();
    }

    /** What other goroutines do to the sender. */
    method Elsewhere(e: Event)
      requires Valid() && Foreign(e)
      modifies this
      ensures Valid() && now == Next(old(now), e) && now.worker == old(now).worker
    {
      if e.Sends? {
        var _ := Check(e.line);
      } else if e.Enters? {
        if e.line in checked {
          var _ := Enqueue(e.line);
        }
      } else if e.Cancels? {
        Cancel();
      } else {
        LogStop();
      }
    }

    method Take() returns (line: string)
      requires Valid() && queue != [] && now.worker == Selecting
      modifies this
      ensures Valid() && now == Next(old(now), Takes) && now.worker == InHand(line, cancelled)
    {
      now := Next(now, Takes);
      line := queue[0];
      queue := queue[1..];
    }

    /** One event with a line in hand. */
    method Await(late: bool, events: seq<Event>, at: nat, ghost start: State) returns (w: Waiting)
      requires Valid() && now.worker.InHand? && now.worker.late == late
      requires at < |events| && now == After(start, events[..at])
      modifies this
      ensures Valid() && now == After(start, events[..at + 1])
      ensures w == StillWaiting ==> now.worker.InHand? && now.worker.late == late
      ensures w == LetThrough ==> now.worker == Selecting
      ensures w == TurnedBack ==> now.worker.Ended?
    {
      AfterMore(start, events, at);
      var e := events[at];
      w := StillWaiting;
      if e.Passes? && !late {
        now, w := Next(now, e), LetThrough;
      } else if e.Refused? && cancelled {
        now, w := Next(now, e), TurnedBack;
      } else if Foreign(e) {
        Elsewhere(e);
      }
    }

    /** Waits for the limiter with the line in hand, and hands it over; false if the limiter refused. */
    method HandOver(late: bool, events: seq<Event>, from: nat, ghost start: State) returns (passed: bool, next: nat)
      requires Valid() && now.worker.InHand? && now.worker.late == late
      requires from <= |events| && now == After(start, events[..from])
      modifies this
      ensures Valid() && from <= next <= |events| && now == After(start, events[..next])
      ensures passed && next < |events| ==> now.worker == Selecting
      ensures !passed ==> now.worker.Ended?
    {
      next := from;
      while next < |events|
        invariant Valid() && from <= next <= |events| && now == After(start, events[..next])
        invariant now.worker.InHand? && now.worker.late == late
      {
        var w := Await(late, events, next, start);
        next := next + 1;
        if w != StillWaiting {
          return w == LetThrough, next;
        }
      }
      passed := true;
    }

    /** One event while nothing is in hand, other than taking a line; true if it was the end. */
    method Idle(events: seq<Event>, at: nat, ghost start: State) returns (ended: bool)
      requires Valid() && now.worker == Selecting
      requires at < |events| && now == After(start, events[..at]) && !(events[at].Takes? && queue != [])
      modifies this
      ensures Valid() && now == After(start, events[..at + 1])
      ensures if ended then now.worker.Ended? else now.worker == Selecting
    {
      AfterMore(start, events, at);
      var e := events[at];
      ended := false;
      if e.SeesStop? && cancelled {
        now, ended := Next(now, e), true;
      } else if Foreign(e) {
        Elsewhere(e);
      }
    }

    /** The draining goroutine, while the events go on; used is how many it went through. */
    method Run(events: seq<Event>) returns (used: nat)
      requires Valid() && now.worker == Selecting
      modifies this
      ensures Valid() && used <= |events| && now == After(old(now), events[..used])
      ensures used < |events| ==> now.worker.Ended?
    {
      ghost var start := now;
      used := 0;
      while used < |events|
        invariant Valid() && used <= |events| && now == After(start, events[..used])
        invariant used < |events| ==> now.worker == Selecting
      {
        if events[used].Takes? && queue != [] {
          AfterMore(start, events, used);
          var _ := Take();
          var passed;
          passed, used := HandOver(cancelled, events, used + 1, start);
          if !passed {
            return;
          }
        } else {
          var ended := Idle(events, used, start);
          used := used + 1;
          if ended {
            return;
          }
        }
      }
    }
  }

  // ----- order, and the count of drops -----

  /** The lines taken and not handed over: the one in hand, or the one the stop lost. */
  function Taken(w: Worker): seq<string> {
    match w
    case Selecting => []
    case InHand(line, _) => [line]
    case Ended(lost) => lost
  }

  function Reported(log: seq<LogLine>): nat {
    if log == [] then 0
    else Reported(log[..|log| - 1]) + (match log[|log| - 1] case QueueFull => 0 case DroppedLines(n) => n)
  }

  /** The lines alternate, beginning with that of a full queue, and each report is of some drops. */
  ghost predicate Alternates(log: seq<LogLine>) {
    && (log != [] ==> log[0].QueueFull?)
    && (forall i :: 0 < i < |log| ==> (log[i].QueueFull? <==> log[i - 1].DroppedLines?))
    && (forall i :: 0 <= i < |log| && log[i].DroppedLines? ==> log[i].n > 0)
  }

  /** The last line logged is of a queue found full. */
  predicate Open(log: seq<LogLine>) {
    log != [] && log[|log| - 1].QueueFull?
  }

  /** Lines leave in the order they were accepted. */
  ghost predicate Ordered(s: State) {
    s.accepted == s.handed + Taken(s.worker) + s.queue && |Taken(s.worker)| <= 1 && |s.queue| <= SEND_QUEUE_SIZE
  }

  /** The reported drops and the current ones are the refused lines; a burst is open while lines are
      dropped. */
  ghost predicate Counted(s: State) {
    && Reported(s.log) + s.dropped == s.refused
    && Alternates(s.log)
    && (s.dropped > 0 <==> Open(s.log))
  }

  lemma LogDroppedCounts(s: State)
    requires Counted(s)
    ensures Counted(LogDropped(s)) && LogDropped(s).dropped == 0
  {
    if s.dropped > 0 {
      assert LogDropped(s).log[..|s.log|] == s.log;
    }
  }

  lemma DropCounts(s: State)
    requires Counted(s)
    ensures var log := if s.dropped == 0 then s.log + [QueueFull] else s.log;
            Reported(log) == Reported(s.log) && Alternates(log) && Open(log)
  {
    if s.dropped == 0 {
      assert (s.log + [QueueFull])[..|s.log|] == s.log;
    }
  }

  lemma PushCounts(s: State, line: string)
    requires Counted(s)
    ensures Counted(Push(s, line))
  {
    if |s.queue| < SEND_QUEUE_SIZE {
      LogDroppedCounts(s.(queue := s.queue + [line], accepted := s.accepted + [line]));
    } else {
      DropCounts(s);
    }
  }

  lemma NextCounts(s: State, e: Event)
    requires Counted(s)
    ensures Counted(Next(s, e))
  {
    match e
    case Enters(line) =>
      if line in s.checked {
        PushCounts(s.(checked := s.checked - multiset{line}), line);
      }
    case Logs =>
      if s.stopping {
        LogDroppedCounts(s.(stopping := false));
      }
    case _ =>
  }

  lemma PushOrders(s: State, line: string)
    requires Ordered(s)
    ensures Ordered(Push(s, line))
  {
    if |s.queue| < SEND_QUEUE_SIZE {
      assert s.handed + Taken(s.worker) + (s.queue + [line]) == s.handed + Taken(s.worker) + s.queue + [line];
    }
  }

  lemma WorkerOrders(s: State, e: Event)
    requires Ordered(s) && (e.Takes? || e.Passes? || e.Refused? || e.SeesStop?)
    ensures Ordered(Next(s, e))
  {
    if e.Takes? && s.queue != [] && s.worker == Selecting {
      assert s.handed + [] + s.queue == s.handed + [s.queue[0]] + s.queue[1..];
    } else if e.Passes? && s.worker.InHand? {
      assert s.handed + [s.worker.line] + s.queue == (s.handed + [s.worker.line]) + [] + s.queue;
    }
  }

  lemma NextOrders(s: State, e: Event)
    requires Ordered(s)
    ensures Ordered(Next(s, e))
  {
    if e.Takes? || e.Passes? || e.Refused? || e.SeesStop? {
      WorkerOrders(s, e);
    } else if e.Enters? && e.line in s.checked {
      PushOrders(s.(checked := s.checked - multiset{e.line}), e.line);
    }
  }

  /** In every run: accepted lines are those handed over, at most one in hand, and the queue, in order;
      the drops add up; and the log lines alternate. */
  lemma {:induction false} AlwaysOrderedAndCounted(events: seq<Event>)
    ensures Ordered(After(New(), events)) && Counted(After(New(), events))
  {
    if events != [] {
      var n := |events| - 1;
      AlwaysOrderedAndCounted(events[..n]);
      NextOrders(After(New(), events[..n]), events[n]);
      NextCounts(After(New(), events[..n]), events[n]);
    }
  }

  /** A Send that is accepted, and the last line of Stop, report every line dropped so far. */
  lemma DropsAreReported(events: seq<Event>, e: Event)
    requires var s, t := After(New(), events), Next(After(New(), events), e);
             |t.accepted| > |s.accepted| || (s.stopping && !t.stopping)
    ensures var t := Next(After(New(), events), e); t.dropped == 0 && Reported(t.log) == t.refused
  {
    AlwaysOrderedAndCounted(events);
    NextCounts(After(New(), events), e);
  }

  // ----- lines are handed over -----

  /** How many chances there are to hand a line over: the queue is looked at, and the limiter lets the line through. */
  function Chances(events: seq<Event>): nat {
    var n := |events|;
    if n < 2 then 0
    else if events[n - 2] == Takes && events[n - 1] == Passes then Chances(events[..n - 2]) + 1
    else Chances(events[..n - 1])
  }

  /** The goroutine runs, with no line taken late. */
  ghost predicate Running(s: State) {
    Ordered(s) && !s.cancelled && !s.worker.Ended? && (s.worker.InHand? ==> !s.worker.late)
  }

  lemma GoesOn(s: State, e: Event)
    requires Running(s) && e != Cancels
    ensures var t := Next(s, e); Running(t) && |t.handed| >= |s.handed| && s.accepted <= t.accepted
  {
    NextOrders(s, e);
  }

  lemma {:induction false} AllGoOn(s: State, events: seq<Event>)
    requires Running(s) && Cancels !in events
    ensures var t := After(s, events); Running(t) && |t.handed| >= |s.handed| && s.accepted <= t.accepted
  {
    if events != [] {
      AllGoOn(s, events[..|events| - 1]);
      GoesOn(After(s, events[..|events| - 1]), events[|events| - 1]);
    }
  }

  lemma ChanceIsUsed(s: State)
    requires Running(s)
    ensures var t := Next(Next(s, Takes), Passes); |t.handed| >= |s.handed| + 1 || |t.handed| == |t.accepted| == |s.accepted|
  {}

  lemma {:induction false} ChancesAreUsed(s: State, events: seq<Event>)
    requires Running(s) && Cancels !in events
    ensures var t := After(s, events); |t.handed| >= |s.handed| + Chances(events) || |t.handed| >= |s.accepted|
  {
    var n := |events|;
    if n >= 2 && events[n - 2] == Takes && events[n - 1] == Passes {
      ChancesAreUsed(s, events[..n - 2]);
      AllGoOn(s, events[..n - 2]);
      AfterMore(s, events, n - 2);
      AfterMore(s, events, n - 1);
      assert events[..n] == events;
      ChanceIsUsed(After(s, events[..n - 2]));
    } else if n > 0 {
      ChancesAreUsed(s, events[..n - 1]);
      AllGoOn(s, events[..n - 1]);
      GoesOn(After(s, events[..n - 1]), events[n - 1]);
    }
  }

  /** Until it is stopped, whatever is sent meanwhile: after as many chances as there were lines left, all that had
      been accepted is handed over, in order. */
  lemma HandsOverAll(before: seq<Event>, events: seq<Event>)
    requires Cancels !in before && Cancels !in events
    ensures var s, t := After(New(), before), After(After(New(), before), events);
            |s.handed| <= |s.accepted|
            && (Chances(events) >= |s.accepted| - |s.handed| ==> s.accepted <= t.handed)
  {
    AllGoOn(New(), before);
    ChancesAreUsed(After(New(), before), events);
    AllGoOn(After(New(), before), events);
  }

  // ----- Stop -----

  /** A Send that starts after Stop changes nothing. */
  lemma SendAfterStopIsRefused(s: State, events: seq<Event>, line: string)
    requires s.cancelled
    ensures Next(After(s, events), Sends(line)) == After(s, events)
  {
    StoppedForGood(s, events);
  }

  lemma StoppedStep(s: State, e: Event)
    requires s.cancelled
    ensures var t := Next(s, e);
            t.cancelled && t.checked <= s.checked
            && |t.accepted| + t.refused + |t.checked| == |s.accepted| + s.refused + |s.checked|
  {
  }

  /** After the stop, only Sends that began before it are accepted or refused, each once. */
  lemma {:induction false} StoppedForGood(s: State, events: seq<Event>)
    requires s.cancelled
    ensures var t := After(s, events);
            t.cancelled && t.checked <= s.checked
            && |t.accepted| + t.refused + |t.checked| == |s.accepted| + s.refused + |s.checked|
  {
    if events != [] {
      StoppedForGood(s, events[..|events| - 1]);
      StoppedStep(After(s, events[..|events| - 1]), events[|events| - 1]);
    }
  }

  // ----- what Stop does -----

  lemma StopStep(s: State, e: Event)
    ensures s.cancelled || e == Cancels ==> Next(s, e).cancelled
    ensures s.stopping && e != Logs ==> Next(s, e).stopping
  {}

  lemma {:induction false} CancelledStays(s: State, events: seq<Event>)
    requires s.cancelled || Cancels in events
    ensures After(s, events).cancelled
  {
    if events != [] {
      var n := |events| - 1;
      StopStep(After(s, events[..n]), events[n]);
      if s.cancelled || Cancels in events[..n] {
        CancelledStays(s, events[..n]);
      } else {
        assert events == events[..n] + [events[n]];
      }
    }
  }

  lemma {:induction false} EndedStays(s: State, events: seq<Event>)
    requires s.worker.Ended?
    ensures After(s, events).worker == s.worker && After(s, events).handed == s.handed
  {
    if events != [] {
      EndedStays(s, events[..|events| - 1]);
    }
  }

  /** Once Stop was called, the goroutine ends at its next look at the context, from the limiter or from the queue,
      whatever else happened; and then nothing more is handed over. */
  lemma StopEndsTheGoroutine(before: seq<Event>, more: seq<Event>)
    requires Cancels in before
    ensures var t := Next(Next(After(New(), before), Refused), SeesStop);
            t.worker.Ended? && After(t, more).worker == t.worker && After(t, more).handed == After(New(), before).handed
  {
    CancelledStays(New(), before);
    EndedStays(Next(Next(After(New(), before), Refused), SeesStop), more);
  }

  lemma {:induction false} StoppingUntilLogged(s: State, events: seq<Event>)
    requires s.stopping && Logs !in events
    ensures After(s, events).stopping
  {
    if events != [] {
      var n := |events| - 1;
      assert events[n] in events && forall e :: e in events[..n] ==> e in events;
      StoppingUntilLogged(s, events[..n]);
      StopStep(After(s, events[..n]), events[n]);
    }
  }

  /** The first Stop, whatever comes between its cancel and its last line, leaves every line dropped until then
      reported; another one changes nothing. */
  lemma FirstStopReports(before: seq<Event>, between: seq<Event>)
    requires !After(New(), before).cancelled && Logs !in between
    ensures var t := Next(After(New(), before + [Cancels] + between), Logs);
            t.cancelled && !t.stopping && t.dropped == 0 && Reported(t.log) == t.refused && Next(Next(t, Cancels), Logs) == t
  {
    var stopped := After(New(), before + [Cancels]);
    assert (before + [Cancels])[..|before|] == before;
    StoppingUntilLogged(stopped, between);
    CancelledStays(stopped, between);
    AfterJoined(New(), before + [Cancels], between);
    AlwaysOrderedAndCounted(before + [Cancels] + between);
    NextCounts(After(New(), before + [Cancels] + between), Logs);
  }

  /** In every run a Send that has found the sender running is accepted if fewer than 256 lines wait, and dropped and
      counted otherwise. */
  lemma DroppedExactlyAt256(events: seq<Event>, line: string)
    requires line in After(New(), events).checked
    ensures var s, t := After(New(), events), Next(After(New(), events), Enters(line));
            && |s.queue| <= 256
            && (|s.queue| < 256 ==> t.accepted == s.accepted + [line] && t.queue == s.queue + [line] && t.refused == s.refused)
            && (|s.queue| == 256 ==> t.accepted == s.accepted && t.queue == s.queue && t.refused == s.refused + 1
                                     && t.dropped == s.dropped + 1)
  {
    AlwaysOrderedAndCounted(events);
  }

  function StillToHand(w: Worker): nat {
    if w.InHand? && !w.late then 1 else 0
  }

  /** After the stop, no line is handed over but the one that was in hand. */
  lemma {:induction false} HandsOverNoMore(s: State, events: seq<Event>)
    requires s.cancelled
    ensures var t := After(s, events);
            t.cancelled && s.handed <= t.handed && |t.handed| + StillToHand(t.worker) <= |s.handed| + StillToHand(s.worker)
  {
    if events != [] {
      HandsOverNoMore(s, events[..|events| - 1]);
    }
  }

  /** Once Stop is done every drop is reported, and stays so, if and only if the queue has room for the
      Sends that began before it. */
  lemma StopReportsExactly(s: State)
    requires s.cancelled && !s.stopping && |s.queue| <= SEND_QUEUE_SIZE
    ensures (forall events :: After(s, events).dropped == 0) <==>
            s.dropped == 0 && |s.queue| + |s.checked| <= SEND_QUEUE_SIZE
  {
    if s.dropped == 0 && |s.queue| + |s.checked| <= SEND_QUEUE_SIZE {
      forall events ensures After(s, events).dropped == 0 {
        NoDropWithRoom(s, events);
      }
    } else if s.dropped > 0 {
      assert After(s, []).dropped > 0;
    } else {
      var events := DropWithoutRoom(s);
      assert After(s, events).dropped > 0;
    }
  }

  lemma {:induction false} NoDropWithRoom(s: State, events: seq<Event>)
    requires s.cancelled && s.dropped == 0 && |s.queue| + |s.checked| <= SEND_QUEUE_SIZE
    ensures var t := After(s, events); t.cancelled && t.dropped == 0 && |t.queue| + |t.checked| <= SEND_QUEUE_SIZE
  {
    if events != [] {
      NoDropWithRoom(s, events[..|events| - 1]);
    }
  }

  lemma {:induction false} DropWithoutRoom(s: State) returns (events: seq<Event>)
    requires |s.queue| <= SEND_QUEUE_SIZE < |s.queue| + |s.checked|
    ensures After(s, events).dropped > 0
    decreases |s.checked|
  {
    var line :| line in s.checked;
    var t := Next(s, Enters(line));
    assert [Enters(line)][..0] == [];
    assert After(s, [Enters(line)]) == t;
    if |s.queue| == SEND_QUEUE_SIZE {
      events := [Enters(line)];
    } else {
      var rest := DropWithoutRoom(t);
      AfterJoined(s, [Enters(line)], rest);
      events := [Enters(line)] + rest;
    }
  }

  lemma {:induction false} AfterJoined(s: State, a: seq<Event>, b: seq<Event>)
    ensures After(s, a + b) == After(After(s, a), b)
  {
    if b == [] {
      assert a + b == a;
    } else {
      assert (a + b)[..|a + b| - 1] == a + b[..|b| - 1];
      AfterJoined(s, a, b[..|b| - 1]);
    }
  }

  // ----- a drop that is not reported -----

  function Lines(n: nat): seq<string> {
    seq(n, _ => "x")
  }

  /** n Sends, each undisturbed, that nothing drains. */
  function Fill(n: nat): seq<Event> {
    if n == 0 then [] else Fill(n - 1) + [Sends("x"), Enters("x")]
  }

  lemma SendsOne(s: State)
    requires !s.cancelled && s.dropped == 0 && |s.queue| < SEND_QUEUE_SIZE
    ensures After(s, [Sends("x"), Enters("x")]) == Queued(s, ["x"])
  {
    AfterTwo(s, Sends("x"), Enters("x"));
    assert s.checked + multiset{"x"} - multiset{"x"} == s.checked;
  }

  function Queued(s: State, lines: seq<string>): State {
    s.(queue := s.queue + lines, accepted := s.accepted + lines)
  }

  lemma {:induction false} Filled(s: State, n: nat)
    requires !s.cancelled && s.dropped == 0 && |s.queue| + n <= SEND_QUEUE_SIZE
    ensures After(s, Fill(n)) == Queued(s, Lines(n))
  {
    if n > 0 {
      var t := Queued(s, Lines(n - 1));
      Filled(s, n - 1);
      AfterJoined(s, Fill(n - 1), [Sends("x"), Enters("x")]);
      SendsOne(t);
      QueuedMore(s, n - 1);
    } else {
      assert s.queue + Lines(0) == s.queue && s.accepted + Lines(0) == s.accepted;
    }
  }

  lemma QueuedMore(s: State, n: nat)
    ensures Queued(Queued(s, Lines(n)), ["x"]) == Queued(s, Lines(n + 1))
  {
    assert Lines(n + 1) == Lines(n) + ["x"];
    assert s.queue + Lines(n) + ["x"] == s.queue + (Lines(n) + ["x"]);
    assert s.accepted + Lines(n) + ["x"] == s.accepted + (Lines(n) + ["x"]);
  }

  lemma AfterTwo(s: State, a: Event, b: Event)
    ensures After(s, [a, b]) == Next(Next(s, a), b)
  {
    AfterMore(s, [a, b], 0);
    AfterMore(s, [a, b], 1);
    assert [a, b][..2] == [a, b] && [a, b][..0] == [];
  }

  lemma SendsLate(s: State)
    requires !s.cancelled && !s.stopping && s.dropped == 0 && |s.queue| == SEND_QUEUE_SIZE && s.checked == multiset{}
    ensures After(After(s, [Sends("x"), Cancels]), [Logs, Enters("x")]) ==
            s.(cancelled := true, dropped := 1, refused := s.refused + 1, log := s.log + [QueueFull])
  {
    AfterTwo(s, Sends("x"), Cancels);
    AfterTwo(After(s, [Sends("x"), Cancels]), Logs, Enters("x"));
    assert multiset{"x"} - multiset{"x"} == multiset{};
  }

  /** One more Send begins, Stop comes first, and then the Send finds the queue full. */
  function LateDrop(): seq<Event> {
    Fill(SEND_QUEUE_SIZE) + [Sends("x"), Cancels] + [Logs, Enters("x")]
  }

  function OneDropped(): State {
    Queued(New(), Lines(SEND_QUEUE_SIZE)).(cancelled := true, dropped := 1, refused := 1, log := [QueueFull])
  }

  lemma AfterLateDrop()
    ensures After(New(), LateDrop()) == OneDropped()
  {
    Filled(New(), SEND_QUEUE_SIZE);
    AfterJoined(New(), Fill(SEND_QUEUE_SIZE), [Sends("x"), Cancels]);
    AfterJoined(New(), Fill(SEND_QUEUE_SIZE) + [Sends("x"), Cancels], [Logs, Enters("x")]);
    SendsLate(Queued(New(), Lines(SEND_QUEUE_SIZE)));
    assert [] + [QueueFull] == [QueueFull];
  }

  /** A run from the start that ends with the sender stopped and a drop that no later event reports. */
  lemma UnreportedDrop(more: seq<Event>)
    ensures var s := After(New(), LateDrop()); s.cancelled && !s.stopping && s.refused == 1
    ensures var t := After(New(), LateDrop() + more); t.refused == 1 && t.dropped == 1 && t.log == [QueueFull]
  {
    AfterLateDrop();
    AfterJoined(New(), LateDrop(), more);
    NothingMoreIsReported(OneDropped(), more);
  }

  lemma {:induction false} NothingMoreIsReported(s: State, events: seq<Event>)
    requires s.cancelled && !s.stopping && s.checked == multiset{}
    ensures var t := After(s, events);
            t.cancelled && !t.stopping && t.checked == multiset{}
            && t.refused == s.refused && t.dropped == s.dropped && t.log == s.log
  {
    if events != [] {
      NothingMoreIsReported(s, events[..|events| - 1]);
    }
  }
}
