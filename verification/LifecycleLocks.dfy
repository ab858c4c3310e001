/** The lifecycle with the rest of what its goroutines wait for: each sender's mutex and its once, taken
    under the client's lock by handlers and by the joins of finishSetup, and without it by API callers,
    endAttempt and Destroy; and the sink's calls that a handler leaves to be made once the client is
    unlocked. Every run of this is a run of Lifecycle with steps in between. */
module LifecycleLocks {
  import opened Options
  import opened Lifecycle
  import opened LifecycleInvariant
  import opened LifecycleCore
  import opened LifecycleSteps
  import opened LifecycleTheorems
  import opened LifecycleProgress

  /** A thread of the lifecycle, or an API caller of Send. */
  datatype Who = Thread(i: nat) | Caller(n: nat)

  /** The sink's methods but Status, which the lifecycle has. */
  datatype SinkCall = Message | Multi | ConfigChange

  /** What someone is at between two steps of the lifecycle: in Send, past its check, awaiting the mutex of
      sender k or holding it; in Stop, awaiting its once, or within it awaiting the mutex or holding it;
      or calling the sink. */
  datatype Busy =
    | Sends(k: nat)
    | Pushes(k: nat)
    | Stops(k: nat)
    | Reports(k: nat)
    | Logs(k: nat)
    | Tells(calls: seq<SinkCall>)

  datatype Once = Begun(owner: Who) | Done

  /** The state: the lifecycle's, who is busy, who holds each sender's mutex, and how far each sender's
      once is. A sender is stopped from the moment its once has begun. */
  datatype Whole = Whole(
    base: State,
    busy: map<Who, Busy>,
    mutex: map<nat, Who>,
    once: map<nat, Once>,
    callers: nat)

  function Start(): Whole {
    Whole(Init(), map[], map[], map[], 0)
  }

  // ----- the steps in between -----

  predicate CanAdvance(w: Whole, who: Who)
    requires who in w.busy
  {
    match w.busy[who]
    case Sends(k) => k !in w.mutex
    case Pushes(_) => true
    case Stops(k) => k in w.once ==> w.once[k] == Done
    case Reports(k) => k !in w.mutex
    case Logs(_) => true
    case Tells(_) => true
  }

  function Advance(w: Whole, who: Who): Whole
    requires who in w.busy
  {
    match w.busy[who]
    case Sends(k) => w.(mutex := w.mutex[k := who], busy := w.busy[who := Pushes(k)])
    case Pushes(k) => w.(mutex := w.mutex - {k}, busy := w.busy - {who})
    case Stops(k) =>
      if k in w.once then w.(busy := w.busy - {who})
      else w.(once := w.once[k := Begun(who)], busy := w.busy[who := Reports(k)])
    case Reports(k) => w.(mutex := w.mutex[k := who], busy := w.busy[who := Logs(k)])
    case Logs(k) => w.(mutex := w.mutex - {k}, once := w.once[k := Done], busy := w.busy - {who})
    case Tells(calls) =>
      if |calls| <= 1 then w.(busy := w.busy - {who}) else w.(busy := w.busy[who := Tells(calls[1..])])
  }

  /** Send, up to the mutex: without a sender, or with one that is stopped, it is over. */
  function BeginSend(w: Whole, who: Who): Whole {
    if w.base.sender.Some? && w.base.sender.value !in w.once then
      w.(busy := w.busy[who := Sends(w.base.sender.value)])
    else w
  }

  /** A handler of the current connection, or finishSetup, with the client locked. */
  predicate MaySend(s: State, i: nat)
    requires IsThread(s, i)
  {
    var pc := s.threads[i];
    (pc.HandlerCs? || pc.SetupCs?) && pc.entered && s.c.conn == Some(pc.k)
  }

  /** What thread i does right after its step: endAttempt stops the sender it may have taken away, Destroy
      the one it found, and after a handler the sink is called. */
  function After(s: State, i: nat, calls: seq<SinkCall>): Option<Busy>
    requires IsThread(s, i)
  {
    match s.threads[i]
    case EndSwap(k, _) => Some(Stops(k))
    case Swap => if s.sender.Some? then Some(Stops(s.sender.value)) else None
    case HandlerCs(_, _, entered) => if entered && calls != [] then Some(Tells(calls)) else None
    case _ => None
  }

  /** The thread whose own step it is. */
  function ActorOf(step: Step): Option<nat> {
    match step
    case Run(i) => Some(i)
    case DialUp(i) => Some(i)
    case DialFail(i, _) => Some(i)
    case ConnectOk(i) => Some(i)
    case ConnectErr(i, _) => Some(i)
    case GracePasses(i) => Some(i)
    case _ => None
  }

  datatype Move =
    // a step of the lifecycle, with the sink calls that a handler then has to make
    | Step(step: Lifecycle.Step, calls: seq<SinkCall>)
    // a Send of thread i, or of an API caller
    | Send(i: nat)
    | Call
    // the next step of someone who is busy
    | Next(who: Who)

  predicate Possible(w: Whole, m: Move) {
    match m
    case Step(step, _) => Enabled(w.base, step) && (ActorOf(step).Some? ==> Thread(ActorOf(step).value) !in w.busy)
    case Send(i) => IsThread(w.base, i) && MaySend(w.base, i) && Thread(i) !in w.busy
    case Call => true
    case Next(who) => who in w.busy && CanAdvance(w, who)
  }

  function Stepped(w: Whole, step: Lifecycle.Step, calls: seq<SinkCall>): Whole
    requires Enabled(w.base, step)
  {
    var t := w.(base := Apply(w.base, step));
    if step.Run? && After(w.base, step.i, calls).Some? then
      t.(busy := w.busy[Thread(step.i) := After(w.base, step.i, calls).value])
    else t
  }

  function Make(w: Whole, m: Move): Whole
    requires Possible(w, m)
  {
    match m
    case Step(step, calls) => Stepped(w, step, calls)
    case Send(i) => BeginSend(w, Thread(i))
    case Call => BeginSend(w, Caller(w.callers)).(callers := w.callers + 1)
    case Next(who) => Advance(w, who)
  }

  ghost predicate ValidMoves(w: Whole, ms: seq<Move>)
    decreases |ms|
  {
    ms == [] || (Possible(w, ms[0]) && ValidMoves(Make(w, ms[0]), ms[1..]))
  }

  ghost function MakeAll(w: Whole, ms: seq<Move>): Whole
    requires ValidMoves(w, ms)
    decreases |ms|
  {
    if ms == [] then w else MakeAll(Make(w, ms[0]), ms[1..])
  }

  ghost predicate ReachableWhole(w: Whole) {
    exists ms :: ValidMoves(Start(), ms) && MakeAll(Start(), ms) == w
  }

  // ----- what every reachable state keeps -----

  /** The sender whose mutex someone holds, and the one whose once they have begun. */
  function MutexOf(b: Busy): Option<nat> {
    if b.Pushes? || b.Logs? then Some(b.k) else None
  }

  function OnceOf(b: Busy): Option<nat> {
    if b.Reports? || b.Logs? then Some(b.k) else None
  }

  ghost predicate MutexRight(busy: map<Who, Busy>, mutex: map<nat, Who>) {
    && (forall k :: k in mutex ==> mutex[k] in busy && MutexOf(busy[mutex[k]]) == Some(k))
    && (forall who :: who in busy && MutexOf(busy[who]).Some? ==>
          var k := MutexOf(busy[who]).value; k in mutex && mutex[k] == who)
  }

  ghost predicate OnceRight(busy: map<Who, Busy>, once: map<nat, Once>) {
    && (forall k :: k in once && once[k].Begun? ==> once[k].owner in busy && OnceOf(busy[once[k].owner]) == Some(k))
    && (forall who :: who in busy && OnceOf(busy[who]).Some? ==>
          var k := OnceOf(busy[who]).value; k in once && once[k] == Begun(who))
  }

  /** Where a busy thread is in the lifecycle: its next step there waits. */
  predicate Fitting(pc: Pc, b: Busy) {
    match b
    case Sends(_) => (pc.HandlerCs? || pc.SetupCs?) && pc.entered
    case Pushes(_) => (pc.HandlerCs? || pc.SetupCs?) && pc.entered
    case Stops(k) => (pc.DetachCs? && pc.k == k && !pc.entered) || pc == Returned
    case Reports(k) => (pc.DetachCs? && pc.k == k && !pc.entered) || pc == Returned
    case Logs(k) => (pc.DetachCs? && pc.k == k && !pc.entered) || pc == Returned
    case Tells(calls) => calls != [] && pc == Finished
  }

  ghost predicate BusyRight(threads: seq<Pc>, busy: map<Who, Busy>, callers: nat) {
    && (forall i: nat :: Thread(i) in busy ==> i < |threads| && Fitting(threads[i], busy[Thread(i)]))
    && (forall n: nat :: Caller(n) in busy ==> n < callers && (busy[Caller(n)].Sends? || busy[Caller(n)].Pushes?))
  }

  ghost predicate StopDone(once: map<nat, Once>, k: nat) {
    k in once && once[k] == Done
  }

  /** An end report has stopped its sender before it goes on to take the attempt. */
  ghost predicate StopsFirst(threads: seq<Pc>, busy: map<Who, Busy>, once: map<nat, Once>) {
    forall i: nat :: i < |threads| && threads[i].DetachCs? && Thread(i) !in busy ==> StopDone(once, threads[i].k)
  }

  /** So an attempt that is not live has its sender stopped. */
  ghost predicate StoppedOver(attempts: seq<Attempt>, once: map<nat, Once>) {
    forall k :: 0 <= k < |attempts| && !attempts[k].stage.Live? ==> StopDone(once, k)
  }

  ghost predicate WholeInv(w: Whole) {
    && MutexRight(w.busy, w.mutex)
    && OnceRight(w.busy, w.once)
    && BusyRight(w.base.threads, w.busy, w.callers)
    && StopsFirst(w.base.threads, w.busy, w.once)
    && StoppedOver(w.base.attempts, w.once)
  }

  // ----- a step of the lifecycle, seen from the others -----

  /** What a step of the lifecycle, of thread i if it is a thread's, leaves alone. */
  ghost predicate Shifts(s: State, t: State, actor: Option<nat>) {
    && |s.threads| <= |t.threads| && |s.attempts| <= |t.attempts|
    && (forall j :: 0 <= j < |s.threads| && Some(j) != actor ==> t.threads[j] == s.threads[j] || (s.threads[j].Armed? && t.threads[j] == Finished))
    && (forall j :: |s.threads| <= j < |t.threads| ==> !t.threads[j].DetachCs?)
    && (forall k :: |s.attempts| <= k < |t.attempts| ==> t.attempts[k].stage.Live?)
    && (actor.None? ==> t.attempts == s.attempts)
  }

  /** What it does of the thread's own. */
  ghost predicate Detaches(s: State, t: State, i: nat)
    requires IsThread(s, i) && |s.threads| <= |t.threads| && |s.attempts| <= |t.attempts|
  {
    var was, now := s.threads[i], t.threads[i];
    && (now.DetachCs? ==>
          (was.EndSwap? && was.k == now.k && !now.entered) || (was.DetachCs? && was.k == now.k))
    && (was.Swap? ==> now == Returned)
    && (was.EndSwap? ==> now.DetachCs?)
    && (was.HandlerCs? && was.entered ==> now == Finished)
    && (forall k :: 0 <= k < |s.attempts| && s.attempts[k].stage.Live? && !t.attempts[k].stage.Live? ==>
          was.DetachCs? && was.k == k)
  }

  lemma LockShifts(s: State, i: nat)
    requires IsThread(s, i) && Local(s, i) && CanGo(s, i) && KnowsAttempt(s, s.threads[i])
    requires WantsLock(s.threads[i]) || WantsMu(s.threads[i])
    ensures Shifts(s, Go(s, i), Some(i)) && Detaches(s, Go(s, i), i)
  {}

  lemma DetachShifts(s: State, i: nat)
    requires IsThread(s, i) && Local(s, i) && CanGo(s, i) && KnowsAttempt(s, s.threads[i])
    requires s.threads[i].DetachCs? && s.threads[i].entered
    ensures Shifts(s, Go(s, i), Some(i)) && Detaches(s, Go(s, i), i)
  {}

  lemma DecideShifts(s: State, i: nat)
    requires IsThread(s, i) && Local(s, i) && CanGo(s, i) && KnowsAttempt(s, s.threads[i])
    requires s.threads[i].DecideCs? && s.threads[i].entered
    ensures Shifts(s, Go(s, i), Some(i)) && Detaches(s, Go(s, i), i)
  {}

  lemma MoveShifts(s: State, i: nat)
    requires IsThread(s, i) && Local(s, i) && CanGo(s, i) && KnowsAttempt(s, s.threads[i])
    requires (s.threads[i].FailCs? && s.threads[i].entered) || s.threads[i].Shut? || s.threads[i].CloseDone?
    ensures Shifts(s, Go(s, i), Some(i)) && Detaches(s, Go(s, i), i)
  {}

  lemma DialShifts(s: State, i: nat)
    requires IsThread(s, i) && Local(s, i) && CanGo(s, i) && KnowsAttempt(s, s.threads[i])
    requires !WantsLock(s.threads[i]) && Dials(s.threads[i])
    ensures Shifts(s, Go(s, i), Some(i)) && Detaches(s, Go(s, i), i)
  {}

  lemma SectionShifts(s: State, i: nat)
    requires IsThread(s, i) && Local(s, i) && CanGo(s, i) && KnowsAttempt(s, s.threads[i])
    requires HoldsLock(s.threads[i]) && (s.threads[i].HandlerCs? || s.threads[i].QuitCs? || s.threads[i].GraceCs?)
    ensures Shifts(s, Go(s, i), Some(i)) && Detaches(s, Go(s, i), i)
  {}

  lemma RestShifts(s: State, i: nat)
    requires IsThread(s, i) && Local(s, i) && CanGo(s, i) && KnowsAttempt(s, s.threads[i])
    requires !InSection(s.threads[i]) && !WantsMu(s.threads[i]) && !Moves(s.threads[i]) && !Dials(s.threads[i])
    ensures Shifts(s, Go(s, i), Some(i)) && Detaches(s, Go(s, i), i)
  {}

  lemma GoShifts(s: State, i: nat)
    requires IsThread(s, i) && Local(s, i) && CanGo(s, i) && KnowsAttempt(s, s.threads[i])
    ensures Shifts(s, Go(s, i), Some(i)) && Detaches(s, Go(s, i), i)
  {
    var pc := s.threads[i];
    if WantsLock(pc) || WantsMu(pc) { LockShifts(s, i); }
    else if pc.DetachCs? { DetachShifts(s, i); }
    else if pc.DecideCs? { DecideShifts(s, i); }
    else if Moves(pc) { MoveShifts(s, i); }
    else if Dials(pc) { DialShifts(s, i); }
    else if InSection(pc) { SectionShifts(s, i); }
    else { RestShifts(s, i); }
  }

  lemma OutsideShifts(s: State, step: Lifecycle.Step)
    requires Core(s) && Enabled(s, step) && !step.Run?
    ensures Shifts(s, Apply(s, step), ActorOf(step))
    ensures ActorOf(step).Some? ==> Detaches(s, Apply(s, step), ActorOf(step).value)
  {
    if ActorOf(step).Some? {
      assert Local(s, ActorOf(step).value);
    }
  }

  lemma StepShifts(s: State, step: Lifecycle.Step)
    requires Core(s) && Enabled(s, step)
    ensures Shifts(s, Apply(s, step), ActorOf(step))
    ensures ActorOf(step).Some? ==> Detaches(s, Apply(s, step), ActorOf(step).value)
  {
    if step.Run? {
      assert Local(s, step.i);
      GoShifts(s, step.i);
    } else {
      OutsideShifts(s, step);
    }
  }

  // ----- each move keeps the invariant -----

  /** Someone becomes busy without a lock. */
  lemma BeginKeepsLocks(w: Whole, who: Who, b: Busy)
    requires MutexRight(w.busy, w.mutex) && OnceRight(w.busy, w.once) && who !in w.busy
    requires MutexOf(b) == None && OnceOf(b) == None
    ensures MutexRight(w.busy[who := b], w.mutex) && OnceRight(w.busy[who := b], w.once)
  {}

  lemma OthersStayFitting(w: Whole, t: State, actor: Option<nat>, i: nat)
    requires BusyRight(w.base.threads, w.busy, w.callers) && Shifts(w.base, t, actor) && Thread(i) in w.busy && Some(i) != actor
    ensures IsThread(t, i) && Fitting(t.threads[i], w.busy[Thread(i)])
  {
    assert Fitting(w.base.threads[i], w.busy[Thread(i)]);
  }

  lemma AfterFits(s: State, t: State, i: nat, calls: seq<SinkCall>)
    requires IsThread(s, i) && Shifts(s, t, Some(i)) && Detaches(s, t, i) && After(s, i, calls).Some?
    ensures var b := After(s, i, calls).value;
            Fitting(t.threads[i], b) && MutexOf(b) == None && OnceOf(b) == None
  {}

  lemma SteppedBusy(w: Whole, step: Lifecycle.Step, calls: seq<SinkCall>)
    requires WholeInv(w) && Core(w.base) && Possible(w, Step(step, calls))
    ensures var t := Stepped(w, step, calls); BusyRight(t.base.threads, t.busy, t.callers)
  {
    StepShifts(w.base, step);
    var t := Stepped(w, step, calls);
    forall i: nat | Thread(i) in t.busy ensures IsThread(t.base, i) && Fitting(t.base.threads[i], t.busy[Thread(i)]) {
      if Some(i) != ActorOf(step) {
        OthersStayFitting(w, t.base, ActorOf(step), i);
      } else {
        AfterFits(w.base, t.base, i, calls);
      }
    }
  }

  lemma SteppedLocks(w: Whole, step: Lifecycle.Step, calls: seq<SinkCall>)
    requires WholeInv(w) && Core(w.base) && Possible(w, Step(step, calls))
    ensures var t := Stepped(w, step, calls); MutexRight(t.busy, t.mutex) && OnceRight(t.busy, t.once)
  {
    StepShifts(w.base, step);
    if step.Run? && After(w.base, step.i, calls).Some? {
      AfterFits(w.base, Apply(w.base, step), step.i, calls);
      BeginKeepsLocks(w, Thread(step.i), After(w.base, step.i, calls).value);
    }
  }

  lemma SteppedStopsFirst(w: Whole, step: Lifecycle.Step, calls: seq<SinkCall>)
    requires WholeInv(w) && Core(w.base) && Possible(w, Step(step, calls))
    ensures var t := Stepped(w, step, calls); StopsFirst(t.base.threads, t.busy, t.once)
  {
    StepShifts(w.base, step);
    var s, t := w.base, Stepped(w, step, calls);
    forall i: nat | i < |t.base.threads| && t.base.threads[i].DetachCs? && Thread(i) !in t.busy
      ensures StopDone(t.once, t.base.threads[i].k)
    {
      DetachedBefore(s, t.base, ActorOf(step), i);
    }
  }

  /** A thread about to take an attempt was so before, or has just come from a report's first step. */
  lemma DetachedBefore(s: State, t: State, actor: Option<nat>, i: nat)
    requires Shifts(s, t, actor) && (actor.Some? ==> IsThread(s, actor.value) && Detaches(s, t, actor.value))
    requires IsThread(t, i) && t.threads[i].DetachCs?
    ensures IsThread(s, i)
    ensures (Some(i) == actor && s.threads[i].EndSwap?) || (s.threads[i].DetachCs? && s.threads[i].k == t.threads[i].k)
  {}

  lemma SteppedStoppedOver(w: Whole, step: Lifecycle.Step, calls: seq<SinkCall>)
    requires WholeInv(w) && Core(w.base) && Possible(w, Step(step, calls))
    ensures var t := Stepped(w, step, calls); StoppedOver(t.base.attempts, t.once)
  {
    StepShifts(w.base, step);
    var s, t := w.base, Stepped(w, step, calls);
    forall k | 0 <= k < |t.base.attempts| && !t.base.attempts[k].stage.Live? ensures StopDone(t.once, k) {
      if s.attempts[k].stage.Live? {
        var i := ActorOf(step).value;
        assert s.threads[i].DetachCs? && s.threads[i].k == k && Thread(i) !in w.busy;
      }
    }
  }

  lemma SendKeeps(w: Whole, who: Who)
    requires WholeInv(w) && who !in w.busy
    requires match who case Thread(i) => IsThread(w.base, i) && MaySend(w.base, i) case Caller(n) => n == w.callers
    ensures var t := BeginSend(w, who); WholeInv(if who.Caller? then t.(callers := w.callers + 1) else t)
  {
    if BeginSend(w, who) != w {
      BeginKeepsLocks(w, who, Sends(w.base.sender.value));
    }
  }

  lemma TakesMutex(busy: map<Who, Busy>, mutex: map<nat, Who>, who: Who, b: Busy)
    requires MutexRight(busy, mutex) && who in busy && MutexOf(busy[who]) == None
    requires MutexOf(b).Some? && MutexOf(b).value !in mutex
    ensures MutexRight(busy[who := b], mutex[MutexOf(b).value := who])
  {}

  lemma LeavesMutex(busy: map<Who, Busy>, mutex: map<nat, Who>, who: Who)
    requires MutexRight(busy, mutex) && who in busy && MutexOf(busy[who]).Some?
    ensures MutexRight(busy - {who}, mutex - {MutexOf(busy[who]).value})
  {
    var t, k := busy - {who}, MutexOf(busy[who]).value;
    forall other | other in t && MutexOf(t[other]).Some?
      ensures var j := MutexOf(t[other]).value; j in mutex - {k} && (mutex - {k})[j] == other
    {
      assert other in busy && t[other] == busy[other];
    }
  }

  lemma SameOnce(busy: map<Who, Busy>, once: map<nat, Once>, who: Who, b: Busy)
    requires OnceRight(busy, once) && who in busy && OnceOf(b) == OnceOf(busy[who])
    ensures OnceRight(busy[who := b], once)
  {}

  lemma SameMutex(busy: map<Who, Busy>, mutex: map<nat, Who>, who: Who, b: Busy)
    requires MutexRight(busy, mutex) && who in busy && MutexOf(b) == MutexOf(busy[who])
    ensures MutexRight(busy[who := b], mutex)
  {}

  /** Someone with neither lock is no longer busy. */
  lemma LeavesNone(busy: map<Who, Busy>, mutex: map<nat, Who>, once: map<nat, Once>, who: Who)
    requires who in busy
    ensures MutexRight(busy, mutex) && MutexOf(busy[who]) == None ==> MutexRight(busy - {who}, mutex)
    ensures OnceRight(busy, once) && OnceOf(busy[who]) == None ==> OnceRight(busy - {who}, once)
  {
    assert forall other :: other in busy - {who} ==> (busy - {who})[other] == busy[other];
  }

  lemma BeginsOnce(busy: map<Who, Busy>, once: map<nat, Once>, who: Who, k: nat)
    requires OnceRight(busy, once) && who in busy && busy[who] == Stops(k) && k !in once
    ensures OnceRight(busy[who := Reports(k)], once[k := Begun(who)])
  {}

  lemma EndsOnce(busy: map<Who, Busy>, once: map<nat, Once>, who: Who)
    requires OnceRight(busy, once) && who in busy && OnceOf(busy[who]).Some?
    ensures OnceRight(busy - {who}, once[OnceOf(busy[who]).value := Done])
  {
    var t, k := busy - {who}, OnceOf(busy[who]).value;
    forall other | other in t && OnceOf(t[other]).Some?
      ensures var j := OnceOf(t[other]).value; j in once && j != k && once[j] == Begun(other)
    {
      assert other in busy && t[other] == busy[other];
    }
  }

  lemma AdvanceKeepsLocks(w: Whole, who: Who)
    requires WholeInv(w) && who in w.busy && CanAdvance(w, who)
    ensures var t := Advance(w, who); MutexRight(t.busy, t.mutex) && OnceRight(t.busy, t.once)
  {
    LeavesNone(w.busy, w.mutex, w.once, who);
    match w.busy[who]
    case Sends(k) =>
      TakesMutex(w.busy, w.mutex, who, Pushes(k));
      SameOnce(w.busy, w.once, who, Pushes(k));
    case Pushes(k) => LeavesMutex(w.busy, w.mutex, who);
    case Stops(k) =>
      SameMutex(w.busy, w.mutex, who, Reports(k));
      if k !in w.once { BeginsOnce(w.busy, w.once, who, k); }
    case Reports(k) =>
      TakesMutex(w.busy, w.mutex, who, Logs(k));
      SameOnce(w.busy, w.once, who, Logs(k));
    case Logs(k) =>
      LeavesMutex(w.busy, w.mutex, who);
      EndsOnce(w.busy, w.once, who);
    case Tells(calls) =>
      if |calls| > 1 {
        SameMutex(w.busy, w.mutex, who, Tells(calls[1..]));
        SameOnce(w.busy, w.once, who, Tells(calls[1..]));
      }
  }

  lemma AdvanceKeepsPlaces(w: Whole, who: Who)
    requires WholeInv(w) && who in w.busy && CanAdvance(w, who)
    ensures var t := Advance(w, who); BusyRight(t.base.threads, t.busy, t.callers)
  {}

  lemma AdvanceKeepsStopped(w: Whole, who: Who)
    requires WholeInv(w) && who in w.busy && CanAdvance(w, who)
    ensures var t := Advance(w, who); StoppedOver(t.base.attempts, t.once)
  {}

  lemma AdvanceStopsFirst(w: Whole, who: Who)
    requires WholeInv(w) && who in w.busy && CanAdvance(w, who)
    ensures var t := Advance(w, who); StopsFirst(t.base.threads, t.busy, t.once)
  {
    var t := Advance(w, who);
    forall i: nat | i < |t.base.threads| && t.base.threads[i].DetachCs? && Thread(i) !in t.busy
      ensures StopDone(t.once, t.base.threads[i].k)
    {
      assert Thread(i) in w.busy ==> Thread(i) == who && Fitting(w.base.threads[i], w.busy[who]);
    }
  }

  lemma MoveKeeps(w: Whole, m: Move)
    requires WholeInv(w) && Inv(w.base) && Possible(w, m)
    ensures WholeInv(Make(w, m)) && Inv(Make(w, m).base)
  {
    match m
    case Step(step, calls) =>
      StepInv(w.base, step);
      SteppedLocks(w, step, calls);
      SteppedBusy(w, step, calls);
      SteppedStopsFirst(w, step, calls);
      SteppedStoppedOver(w, step, calls);
    case Send(i) => SendKeeps(w, Thread(i));
    case Call => SendKeeps(w, Caller(w.callers));
    case Next(who) =>
      AdvanceKeepsLocks(w, who);
      AdvanceKeepsPlaces(w, who);
      AdvanceKeepsStopped(w, who);
      AdvanceStopsFirst(w, who);
  }

  // ----- every run -----

  lemma {:induction false} MovesKeep(w: Whole, ms: seq<Move>)
    requires WholeInv(w) && Inv(w.base) && ValidMoves(w, ms)
    ensures WholeInv(MakeAll(w, ms))
    decreases |ms|
  {
    if ms != [] {
      MoveKeeps(w, ms[0]);
      MovesKeep(Make(w, ms[0]), ms[1..]);
    }
  }

  /** The steps of the lifecycle among some moves. */
  ghost function StepsOf(ms: seq<Move>): seq<Lifecycle.Step>
    decreases |ms|
  {
    if ms == [] then []
    else if ms[0].Step? then [ms[0].step] + StepsOf(ms[1..])
    else StepsOf(ms[1..])
  }

  lemma {:induction false} MovesProject(w: Whole, ms: seq<Move>)
    requires ValidMoves(w, ms)
    ensures ValidRun(w.base, StepsOf(ms)) && Exec(w.base, StepsOf(ms)) == MakeAll(w, ms).base
    decreases |ms|
  {
    if ms != [] {
      MovesProject(Make(w, ms[0]), ms[1..]);
      if ms[0].Step? {
        RunFirst(w.base, ms[0].step, StepsOf(ms[1..]));
      }
    }
  }

  lemma RunFirst(s: State, step: Lifecycle.Step, steps: seq<Lifecycle.Step>)
    requires Enabled(s, step) && ValidRun(Apply(s, step), steps)
    ensures ValidRun(s, [step] + steps) && Exec(s, [step] + steps) == Exec(Apply(s, step), steps)
  {
    assert ([step] + steps)[1..] == steps;
  }

  /** Every run here is one of the lifecycle, so all that holds of every reachable state of that holds of
      every reachable state of this; and the locks are right. */
  lemma ReachableRight(w: Whole)
    requires ReachableWhole(w)
    ensures Reachable(w.base) && WholeInv(w)
  {
    var ms :| ValidMoves(Start(), ms) && MakeAll(Start(), ms) == w;
    InitInv();
    MovesKeep(Start(), ms);
    MovesProject(Start(), ms);
  }

  // ----- the order of the locks -----

  /** A sender's mutex is innermost: who holds it waits for nothing, and holds no other. */
  lemma MutexIsInnermost(w: Whole, k: nat)
    requires ReachableWhole(w) && k in w.mutex
    ensures w.mutex[k] in w.busy && CanAdvance(w, w.mutex[k])
    ensures forall j :: j in w.mutex && w.mutex[j] == w.mutex[k] ==> j == k
  {
    ReachableRight(w);
  }

  /** Who holds the client's lock never waits for statusMu, for a once or for the sink: for a sender's
      mutex at most. */
  lemma UnderTheClientsLock(w: Whole, i: nat)
    requires ReachableWhole(w) && w.base.lock == Some(i)
    ensures IsThread(w.base, i) && !WantsMu(w.base.threads[i]) && !w.base.threads[i].Publish?
    ensures Thread(i) in w.busy ==> w.busy[Thread(i)].Sends? || w.busy[Thread(i)].Pushes?
    ensures Thread(i) !in w.busy ==> CanGo(w.base, i)
  {
    ReachableRight(w);
    ReachableInv(w.base);
    LockOrder(w.base, i);
  }

  /** A Stop that waits for another to finish waits for someone who waits for nothing but the mutex, and
      holds neither the client's lock nor statusMu. */
  lemma OnceIsInner(w: Whole, k: nat)
    requires ReachableWhole(w) && k in w.once && w.once[k].Begun?
    ensures var who := w.once[k].owner;
            && who in w.busy && (CanAdvance(w, who) || k in w.mutex)
            && (who.Thread? ==> w.base.lock != Some(who.i) && w.base.statusMu != Some(who.i))
  {
    ReachableRight(w);
    var who := w.once[k].owner;
    if who.Thread? {
      NoLockAt(w, who.i);
    }
  }

  lemma NoLockAt(w: Whole, i: nat)
    requires ReachableWhole(w) && IsThread(w.base, i)
    ensures !HoldsLock(w.base.threads[i]) ==> w.base.lock != Some(i)
    ensures !HoldsMu(w.base.threads[i]) ==> w.base.statusMu != Some(i)
  {
    ReachableRight(w);
    ReachableInv(w.base);
  }

  /** The sink is only ever called by someone who does not hold the client's lock: with a message, a
      NICK or QUIT, or a config change, by a thread that holds no lock at all... */
  lemma SinkIsCalledUnlocked(w: Whole, who: Who)
    requires ReachableWhole(w) && who in w.busy && w.busy[who].Tells?
    ensures who.Thread? && IsThread(w.base, who.i)
    ensures w.base.lock != Some(who.i) && w.base.statusMu != Some(who.i) && forall k :: k in w.mutex ==> w.mutex[k] != who
  {
    ReachableRight(w);
    NoLockAt(w, who.i);
  }

  /** ...and with a status, by one that holds statusMu only. */
  lemma StatusIsToldUnlocked(w: Whole, i: nat)
    requires ReachableWhole(w) && IsThread(w.base, i) && w.base.threads[i].Publish?
    ensures w.base.lock != Some(i) && w.base.statusMu == Some(i) && forall k :: k in w.mutex ==> w.mutex[k] != Thread(i)
  {
    ReachableRight(w);
    LockOrder(w.base, i);
  }

  /** The Stop of a late end report finds its sender stopped already, and changes nothing. */
  lemma LateStopChangesNothing(w: Whole, i: nat, k: nat)
    requires ReachableWhole(w) && Thread(i) in w.busy && w.busy[Thread(i)] == Stops(k)
    requires IsAttempt(w.base, k) && !w.base.attempts[k].stage.Live?
    ensures CanAdvance(w, Thread(i)) && Advance(w, Thread(i)) == w.(busy := w.busy - {Thread(i)})
  {
    ReachableRight(w);
  }

  // ----- deadlock -----

  /** No one can move, and irc-go has answered every call it was given. */
  ghost predicate Stuck(w: Whole) {
    && (forall who :: who in w.busy ==> !CanAdvance(w, who))
    && (forall i :: 0 <= i < |w.base.threads| && Thread(i) !in w.busy ==>
          !CanGo(w.base, i) && !w.base.threads[i].Dialing? && !w.base.threads[i].Registering?
          && !(w.base.threads[i].Waiting? && w.base.threads[i].patient && w.base.threads[i].done.Some?))
  }

  /** Whoever is busy, someone who is can move: those who wait for a once or a mutex wait, in the end, for
      the holder of a mutex. */
  lemma SomeoneAdvances(w: Whole, who: Who) returns (other: Who)
    requires WholeInv(w) && who in w.busy
    ensures other in w.busy && CanAdvance(w, other)
  {
    other := who;
    if !CanAdvance(w, other) && w.busy[other].Stops? {
      other := w.once[w.busy[other].k].owner;
    }
    if !CanAdvance(w, other) {
      other := w.mutex[w.busy[other].k];
    }
  }

  lemma NoOneIsBusy(w: Whole)
    requires WholeInv(w) && forall who :: who in w.busy ==> !CanAdvance(w, who)
    ensures w.busy == map[] && w.mutex == map[]
  {
    if who :| who in w.busy {
      var _ := SomeoneAdvances(w, who);
    }
  }

  /** No deadlock, with every lock: when no one can move, irc-go has returned from every call and has
      reported every connection it lost, no one waits for a lock, and each thread has finished or is a
      timer not due yet. */
  lemma NoDeadlockAtAll(w: Whole, i: nat)
    requires ReachableWhole(w) && Stuck(w) && !OwesReport(w.base) && IsThread(w.base, i)
    ensures w.busy == map[] && w.mutex == map[]
    ensures var pc := w.base.threads[i]; pc.Finished? || pc.Returned? || (pc.Armed? && !w.base.c.quitting)
  {
    ReachableRight(w);
    NoOneIsBusy(w);
    NoDeadlock(w.base, i);
  }

  /** And once some Destroy has taken effect, each has then returned, from its Stop too. */
  lemma DestroyReturnsAtAll(w: Whole, i: nat)
    requires ReachableWhole(w) && w.base.c.quitting && Stuck(w) && !OwesReport(w.base) && IsThread(w.base, i)
    ensures Thread(i) !in w.busy && (w.base.threads[i].Finished? || w.base.threads[i].Returned?)
    ensures w.base.threads[i].Returned? ==> AllEnded(w.base)
  {
    ReachableRight(w);
    NoOneIsBusy(w);
    DestroyReturns(w.base, i);
  }

  // ----- runs end -----

  function Work(b: Busy): nat {
    match b
    case Sends(_) => 2
    case Pushes(_) => 1
    case Stops(_) => 3
    case Reports(_) => 2
    case Logs(_) => 1
    case Tells(calls) => |calls| + 1
  }

  ghost function WorkLeft(busy: map<Who, Busy>): nat {
    if busy == map[] then 0
    else
      var who :| who in busy;
      Work(busy[who]) + WorkLeft(busy - {who})
  }

  lemma {:induction false} WorkOne(busy: map<Who, Busy>, who: Who)
    requires who in busy
    ensures WorkLeft(busy) == Work(busy[who]) + WorkLeft(busy - {who})
    decreases |busy|
  {
    var first :| first in busy && WorkLeft(busy) == Work(busy[first]) + WorkLeft(busy - {first});
    if first != who {
      WorkOne(busy - {first}, who);
      WorkOne(busy - {who}, first);
      assert busy - {first} - {who} == busy - {who} - {first};
    }
  }

  lemma WorkChanged(busy: map<Who, Busy>, who: Who, b: Busy)
    ensures WorkLeft(busy[who := b]) == Work(b) + WorkLeft(busy - {who})
  {
    WorkOne(busy[who := b], who);
    assert busy[who := b] - {who} == busy - {who};
  }

  /** Four for each step that the lifecycle has left, which is enough for what follows one. */
  ghost function Budget(w: Whole): nat {
    4 * Left(w.base.threads) + WorkLeft(w.busy)
  }

  /** A move of someone's own, and not the clock's or a new arrival. */
  predicate Own(m: Move) {
    m.Next? || (m.Step? && !Spawns(m.step) && !m.step.Tick?)
  }

  /** What a move may add: threads and Sends that begin, and sink calls. */
  function Granted(m: Move): nat {
    match m
    case Step(step, calls) => (if Spawns(step) then 4 * MOST_STEPS else 0) + |calls|
    case Send(_) => 2
    case Call => 2
    case Next(_) => 0
  }

  ghost predicate Spends(w: Whole, t: Whole, m: Move) {
    (if Own(m) then 1 else 0) + Budget(t) <= Budget(w) + Granted(m)
  }

  lemma WorkGoesDown(busy: map<Who, Busy>, who: Who, b: Busy)
    requires who in busy && Work(b) < Work(busy[who])
    ensures WorkLeft(busy[who := b]) < WorkLeft(busy)
  {
    WorkOne(busy, who);
    WorkChanged(busy, who, b);
  }

  lemma NextSpends(w: Whole, who: Who)
    requires Possible(w, Next(who))
    ensures Spends(w, Advance(w, who), Next(who))
  {
    match w.busy[who]
    case Sends(k) => WorkGoesDown(w.busy, who, Pushes(k));
    case Stops(k) => if k in w.once { WorkOne(w.busy, who); } else { WorkGoesDown(w.busy, who, Reports(k)); }
    case Reports(k) => WorkGoesDown(w.busy, who, Logs(k));
    case Tells(calls) => if |calls| <= 1 { WorkOne(w.busy, who); } else { WorkGoesDown(w.busy, who, Tells(calls[1..])); }
    case _ => WorkOne(w.busy, who);
  }

  lemma SendSpends(w: Whole, who: Who)
    requires who !in w.busy
    ensures WorkLeft(BeginSend(w, who).busy) <= WorkLeft(w.busy) + 2
  {
    if BeginSend(w, who) != w {
      WorkChanged(w.busy, who, Sends(w.base.sender.value));
      assert w.busy - {who} == w.busy;
    }
  }

  lemma StepSpends(w: Whole, step: Lifecycle.Step, calls: seq<SinkCall>)
    requires Core(w.base) && w.base.c.quitting && Possible(w, Step(step, calls))
    ensures Spends(w, Stepped(w, step, calls), Step(step, calls))
  {
    StepTakesOne(w.base, step);
    if step.Run? && After(w.base, step.i, calls).Some? {
      var b := After(w.base, step.i, calls).value;
      WorkChanged(w.busy, Thread(step.i), b);
      assert w.busy - {Thread(step.i)} == w.busy;
      assert Work(b) <= 3 + |calls|;
    }
  }

  lemma MoveSpends(w: Whole, m: Move)
    requires WholeInv(w) && Inv(w.base) && w.base.c.quitting && Possible(w, m)
    ensures Spends(w, Make(w, m), m) && Make(w, m).base.c.quitting
  {
    match m
    case Step(step, calls) =>
      StepSpends(w, step, calls);
      StepKeepsQuitting(w.base, step);
    case Send(i) => SendSpends(w, Thread(i));
    case Call =>
      assert Caller(w.callers) !in w.busy;
      SendSpends(w, Caller(w.callers));
    case Next(who) => NextSpends(w, who);
  }

  ghost function OwnMoves(ms: seq<Move>): nat
    decreases |ms|
  {
    if ms == [] then 0 else (if Own(ms[0]) then 1 else 0) + OwnMoves(ms[1..])
  }

  ghost function AllGranted(ms: seq<Move>): nat
    decreases |ms|
  {
    if ms == [] then 0 else Granted(ms[0]) + AllGranted(ms[1..])
  }

  /** After Destroy has set quitting, the moves of a run are bounded: by what was left to do, and by what
      each new thread, each Send and each sink call adds. */
  lemma {:induction false} QuittingRunsEndAtAll(w: Whole, ms: seq<Move>)
    requires WholeInv(w) && Inv(w.base) && w.base.c.quitting && ValidMoves(w, ms)
    ensures OwnMoves(ms) + Budget(MakeAll(w, ms)) <= Budget(w) + AllGranted(ms)
    decreases |ms|
  {
    if ms != [] {
      MoveSpends(w, ms[0]);
      MoveKeeps(w, ms[0]);
      QuittingRunsEndAtAll(Make(w, ms[0]), ms[1..]);
    }
  }
}
