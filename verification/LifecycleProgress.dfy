/** Nothing in the lifecycle blocks for ever: no deadlock, and Destroy returns. */
module LifecycleProgress {
  import opened Options
  import opened Lifecycle
  import opened LifecycleInvariant
  import opened LifecycleCore
  import opened LifecycleSteps
  import opened LifecycleTheorems

  // ----- locks -----

  /** statusMu is never awaited with the client locked, and the sink is called with statusMu held and
      the client unlocked. */
  lemma LockOrder(s: State, i: nat)
    requires Reachable(s) && IsThread(s, i)
    ensures s.lock == Some(i) ==> !WantsMu(s.threads[i]) && CanGo(s, i)
    ensures s.threads[i].Publish? ==> s.statusMu == Some(i) && s.lock != Some(i) && CanGo(s, i)
  {
    ReachableInv(s);
    assert Local(s, i);
  }

  // ----- deadlock -----

  /** No thread can move, and irc-go has answered every call it was given. */
  ghost predicate Idle(s: State) {
    forall i :: 0 <= i < |s.threads| ==>
      !CanGo(s, i) && !s.threads[i].Dialing? && !s.threads[i].Registering?
      && !(s.threads[i].Waiting? && s.threads[i].patient && s.threads[i].done.Some?)
  }

  /** irc-go has yet to report the end of a registered connection whose socket is closed. */
  ghost predicate OwesReport(s: State) {
    exists k :: 0 <= k < |s.attempts| && s.attempts[k].stage.Live? && s.attempts[k].dialed && s.attempts[k].sock.Closed?
                && IsThread(s, s.attempts[k].runner) && s.threads[s.attempts[k].runner].Finished?
  }

  lemma HoldersMove(s: State)
    requires Core(s)
    ensures s.lock.Some? ==> CanGo(s, s.lock.value)
    ensures s.statusMu.Some? ==> CanGo(s, s.statusMu.value) || WantsLock(s.threads[s.statusMu.value])
  {
    if s.lock.Some? { assert Local(s, s.lock.value); }
    if s.statusMu.Some? { assert Local(s, s.statusMu.value); }
  }

  lemma NoOneAwaitsALock(s: State)
    requires Core(s) && Idle(s)
    ensures forall i :: 0 <= i < |s.threads| ==> !WantsLock(s.threads[i]) && !WantsMu(s.threads[i])
  {
    HoldersMove(s);
    forall i | 0 <= i < |s.threads| ensures !WantsLock(s.threads[i]) {
      assert !CanGo(s, i);
    }
    forall i | 0 <= i < |s.threads| ensures !WantsMu(s.threads[i]) {
      assert !CanGo(s, i);
    }
  }

  /** The thread that an unfinished attempt k waits for can move, unless its connection is up or
      irc-go owes its report. */
  lemma SomeoneMoves(s: State, k: nat)
    requires Core(s) && IsAttempt(s, k)
    ensures var a := s.attempts[k];
            && (a.stage.Live? ==>
                  IsThread(s, a.runner)
                  && var pc := s.threads[a.runner];
                     CanGo(s, a.runner) || WantsLock(pc) || WantsMu(pc) || pc.Dialing? || pc.Registering?
                     || (pc.Finished? && a.dialed && (a.sock.Closed? || Attached(s, k))))
            && (a.stage.Ending? ==>
                  IsThread(s, a.stage.ender)
                  && var pc := s.threads[a.stage.ender];
                     CanGo(s, a.stage.ender) || WantsLock(pc) || WantsMu(pc))
            && (a.stage.Ended? ==> a.closes > 0)
  {
    assert AttemptOk(s, k);
  }

  lemma IdleAttempts(s: State)
    requires Core(s) && Idle(s) && !OwesReport(s)
    ensures forall k :: 0 <= k < |s.attempts| ==>
      (s.attempts[k].stage.Ended? && s.attempts[k].closes > 0) || (s.attempts[k].stage.Live? && Attached(s, k))
  {
    NoOneAwaitsALock(s);
    forall k | 0 <= k < |s.attempts|
      ensures (s.attempts[k].stage.Ended? && s.attempts[k].closes > 0) || (s.attempts[k].stage.Live? && Attached(s, k))
    {
      SomeoneMoves(s, k);
    }
  }

  /** No deadlock: when no thread can move, irc-go has returned from every call and has reported
      every connection it lost, each thread has finished or is a timer not due yet. */
  lemma NoDeadlock(s: State, i: nat)
    requires Reachable(s) && Idle(s) && !OwesReport(s) && IsThread(s, i)
    ensures s.threads[i].Finished? || s.threads[i].Returned? || (s.threads[i].Armed? && !s.c.quitting)
  {
    ReachableInv(s);
    NoOneAwaitsALock(s);
    IdleAttempts(s);
    assert Local(s, i);
    assert !CanGo(s, i);
  }

  // ----- Destroy returns -----

  function Weight(pc: Pc): nat {
    match pc
    case ConnectCs(entered) => if entered then 1 else 2
    case Dialing(_) => 20
    case HookMu(_) => 19
    case HookCs(_, entered) => if entered then 17 else 18
    case HookRefuse(_) => 15
    case HookStore(_, _) => 16
    case Registering(_) => 14
    case SetupCs(_, entered) => if entered then 1 else 2
    case EndSwap(_, _) => 13
    case DetachCs(_, _, entered) => if entered then 11 else 12
    case Shut(_, _, _) => 10
    case FailMu(_, _) => 9
    case FailCs(_, _, entered) => if entered then 7 else 8
    case DecideMu(_) => 5
    case DecideCs(_, entered) => if entered then 3 else 4
    case CloseDone(_) => 1
    case Publish(_, p) => (match p case Up(_) => 15 case Down(_) => 6 case Retry(_) => 2 case Bye(_) => 7)
    case Armed(_, _) => 4
    case AwaitDone(_) => 3
    case HandlerCs(_, _, entered) => if entered then 1 else 2
    case QuitMu => 10
    case QuitCs(entered) => if entered then 8 else 9
    case Waiting(_, patient) => if patient then 6 else 2
    case GraceCs(_, entered) => if entered then 4 else 5
    case CloseSock(_, _) => 3
    case Swap => 1
    case Returned => 0
    case Finished => 0
  }

  /** How many more steps the threads can take, if no more are started. */
  ghost function Left(threads: seq<Pc>): nat {
    if threads == [] then 0 else Left(threads[..|threads| - 1]) + Weight(threads[|threads| - 1])
  }

  lemma {:induction false} LeftAt(threads: seq<Pc>, i: nat, pc: Pc)
    requires i < |threads|
    ensures Left(threads[i := pc]) == Left(threads) - Weight(threads[i]) + Weight(pc)
  {
    var n := |threads| - 1;
    if i == n {
      assert threads[i := pc][..n] == threads[..n];
    } else {
      assert threads[i := pc][..n] == threads[..n][i := pc];
      LeftAt(threads[..n], i, pc);
    }
  }

  lemma LeftMore(threads: seq<Pc>, pc: Pc)
    ensures Left(threads + [pc]) == Left(threads) + Weight(pc)
  {
    assert (threads + [pc])[..|threads|] == threads;
  }

  /** A step that starts a thread from outside: a report, a message, Start or Destroy. */
  predicate Spawns(step: Step) {
    step.Report? || step.Deliver? || step.Start? || step.Destroy?
  }

  const MOST_STEPS: nat := 13

  /** Thread i has moved only its own program counter, downwards. */
  ghost predicate Lowers(s: State, t: State, i: nat)
    requires IsThread(s, i)
  {
    |t.threads| == |s.threads| && t.threads == s.threads[i := t.threads[i]] && Weight(t.threads[i]) < Weight(s.threads[i])
  }

  lemma LockLowers(s: State, i: nat)
    requires s.c.quitting && IsThread(s, i) && CanGo(s, i) && KnowsAttempt(s, s.threads[i]) && !TimerArmed(s)
    requires WantsLock(s.threads[i]) || WantsMu(s.threads[i])
    ensures Lowers(s, Go(s, i), i)
  {}

  lemma MoveLowers(s: State, i: nat)
    requires s.c.quitting && IsThread(s, i) && CanGo(s, i) && KnowsAttempt(s, s.threads[i]) && !TimerArmed(s)
    requires !WantsLock(s.threads[i]) && Moves(s.threads[i])
    ensures Lowers(s, Go(s, i), i)
  {}

  lemma DialLowers(s: State, i: nat)
    requires s.c.quitting && IsThread(s, i) && CanGo(s, i) && KnowsAttempt(s, s.threads[i]) && !TimerArmed(s)
    requires !WantsLock(s.threads[i]) && Dials(s.threads[i])
    ensures Lowers(s, Go(s, i), i)
  {}

  lemma RestLowers(s: State, i: nat)
    requires s.c.quitting && IsThread(s, i) && CanGo(s, i) && KnowsAttempt(s, s.threads[i]) && !TimerArmed(s)
    requires !WantsLock(s.threads[i]) && !WantsMu(s.threads[i]) && !Moves(s.threads[i]) && !Dials(s.threads[i])
    requires !InSection(s.threads[i])
    ensures Lowers(s, Go(s, i), i)
  {}

  lemma SectionLowers(s: State, i: nat)
    requires s.c.quitting && IsThread(s, i) && CanGo(s, i) && KnowsAttempt(s, s.threads[i]) && !TimerArmed(s)
    requires HoldsLock(s.threads[i]) && !Moves(s.threads[i]) && !Dials(s.threads[i])
    ensures Lowers(s, Go(s, i), i)
  {}

  lemma GoLowers(s: State, i: nat)
    requires Core(s) && s.c.quitting && IsThread(s, i) && CanGo(s, i) && KnowsAttempt(s, s.threads[i])
    ensures Lowers(s, Go(s, i), i)
    ensures Left(Go(s, i).threads) < Left(s.threads)
  {
    NoTimerWhenQuitting(s);
    var pc := s.threads[i];
    if WantsLock(pc) || WantsMu(pc) { LockLowers(s, i); }
    else if Moves(pc) { MoveLowers(s, i); }
    else if Dials(pc) { DialLowers(s, i); }
    else if InSection(pc) { SectionLowers(s, i); }
    else { RestLowers(s, i); }
    LeftAt(s.threads, i, Go(s, i).threads[i]);
  }

  lemma NoTimerWhenQuitting(s: State)
    requires Core(s) && s.c.quitting
    ensures !TimerArmed(s)
  {
    if s.c.timer.Some? && IsThread(s, s.c.timer.value) { assert Local(s, s.c.timer.value); }
  }

  ghost predicate TakesOne(s: State, t: State, step: Step) {
    var left, left' := Left(s.threads), Left(t.threads);
    if Spawns(step) then left' <= left + MOST_STEPS
    else if step.Tick? then left' == left
    else left' < left
  }

  lemma SpawnTakesOne(s: State, step: Step)
    requires Enabled(s, step) && (Spawns(step) || step.Tick?)
    ensures TakesOne(s, Apply(s, step), step)
  {
    if Spawns(step) {
      var pc := Spawned(step);
      assert Apply(s, step).threads == s.threads + [pc];
      LeftMore(s.threads, pc);
    }
  }

  /** The thread that such a step starts. */
  function Spawned(step: Step): (pc: Pc)
    requires Spawns(step)
    ensures Weight(pc) <= MOST_STEPS
  {
    match step
    case Report(k, text) => EndSwap(k, text)
    case Deliver(k, h) => HandlerCs(k, h, false)
    case Start => ConnectCs(false)
    case Destroy => QuitMu
  }

  lemma ReturnTakesOne(s: State, step: Step)
    requires Enabled(s, step) && !Spawns(step) && !step.Tick? && !step.Run?
    ensures TakesOne(s, Apply(s, step), step)
  {
    LeftAt(s.threads, step.i, Apply(s, step).threads[step.i]);
  }

  lemma StepTakesOne(s: State, step: Step)
    requires Core(s) && s.c.quitting && Enabled(s, step)
    ensures TakesOne(s, Apply(s, step), step)
  {
    if step.Run? { GoLowers(s, step.i); }
    else if Spawns(step) || step.Tick? { SpawnTakesOne(s, step); }
    else { ReturnTakesOne(s, step); }
  }

  lemma StepKeepsQuitting(s: State, step: Step)
    requires Core(s) && Enabled(s, step) && s.c.quitting
    ensures Apply(s, step).c.quitting
  {
    FinalStays(s, step);
  }

  /** So every Destroy returns: when no thread can take a step and irc-go owes nothing, every thread
      has finished, and every attempt is over if some Destroy was called. */
  lemma DestroyReturns(s: State, i: nat)
    requires Reachable(s) && s.c.quitting && Idle(s) && !OwesReport(s) && IsThread(s, i)
    ensures s.threads[i].Finished? || s.threads[i].Returned?
    ensures s.threads[i].Returned? ==> AllEnded(s)
  {
    NoDeadlock(s, i);
    ReachableInv(s);
    assert Local(s, i);
  }
}
