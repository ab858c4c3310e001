/** An end that is not final schedules the next attempt: a client that is neither quitting nor stopped is
    never left with neither an attempt nor a thread that will start one. */
module LifecycleContinues {
  import opened Options
  import opened Lifecycle
  import opened LifecycleInvariant
  import opened LifecycleCore
  import opened LifecycleSteps
  import opened LifecycleTheorems
  import opened LifecycleProgress
  import Locks = LifecycleLocks

  /** No attempt was made, or the last one has ended or has armed the timer for the next. */
  ghost predicate Over(attempts: seq<Attempt>) {
    attempts == []
    || var stage := attempts[|attempts| - 1].stage; stage.Ended? || (stage.Ending? && stage.scheduled)
  }

  ghost predicate GoesOn(s: State) {
    s.started && !Final(s.c) && Over(s.attempts) ==> s.cont.Some?
  }

  /** Thread i ends an attempt without having scheduled the next only for a client that is final. */
  ghost predicate GivesUpOnlyIfFinal(s: State, i: nat)
    requires IsThread(s, i)
  {
    var pc := s.threads[i];
    pc.CloseDone? && IsAttempt(s, pc.k) && s.attempts[pc.k].stage == Ending(i, false) ==> Final(s.c)
  }

  ghost predicate Ongoing(s: State) {
    GoesOn(s) && forall i :: 0 <= i < |s.threads| ==> GivesUpOnlyIfFinal(s, i)
  }

  // ----- who may give up -----

  /** Of thread j, unless it is new. */
  ghost predicate Before(s: State, j: nat) {
    IsThread(s, j) ==> GivesUpOnlyIfFinal(s, j)
  }

  lemma LockGives(s: State, i: nat, j: nat)
    requires Before(s, j) && IsThread(s, i) && CanGo(s, i) && KnowsAttempt(s, s.threads[i])
    requires WantsLock(s.threads[i]) || WantsMu(s.threads[i])
    ensures Before(Go(s, i), j)
  {}

  lemma DetachGives(s: State, i: nat, j: nat)
    requires Before(s, j) && IsThread(s, i) && CanGo(s, i) && KnowsAttempt(s, s.threads[i])
    requires s.threads[i].DetachCs? && s.threads[i].entered
    ensures Before(Go(s, i), j)
  {}

  lemma DecideGives(s: State, i: nat, j: nat)
    requires Before(s, j) && IsThread(s, i) && CanGo(s, i) && KnowsAttempt(s, s.threads[i])
    requires s.threads[i].DecideCs? && s.threads[i].entered && s.threads[i].k + 1 == |s.attempts|
    requires s.attempts[s.threads[i].k].stage == Ending(i, false)
    ensures Before(Go(s, i), j)
  {}

  lemma EndGives(s: State, i: nat, j: nat)
    requires Before(s, j) && IsThread(s, i) && CanGo(s, i) && KnowsAttempt(s, s.threads[i])
    requires s.threads[i].Shut? || s.threads[i].CloseDone? || (s.threads[i].FailCs? && s.threads[i].entered)
    ensures Before(Go(s, i), j)
  {}

  lemma DialGives(s: State, i: nat, j: nat)
    requires Before(s, j) && IsThread(s, i) && CanGo(s, i) && KnowsAttempt(s, s.threads[i])
    requires !WantsLock(s.threads[i]) && Dials(s.threads[i])
    requires IsThread(s, j) && s.threads[j].CloseDone? ==> IsAttempt(s, s.threads[j].k)
    ensures Before(Go(s, i), j)
  {}

  lemma SectionGives(s: State, i: nat, j: nat)
    requires Before(s, j) && IsThread(s, i) && CanGo(s, i) && KnowsAttempt(s, s.threads[i])
    requires HoldsLock(s.threads[i]) && (s.threads[i].HandlerCs? || s.threads[i].QuitCs? || s.threads[i].GraceCs?)
    requires s.threads[i].HandlerCs? ==> !s.threads[i].h.Stop? || s.threads[i].h.reason != ""
    ensures Before(Go(s, i), j)
  {}

  lemma PublishGives(s: State, i: nat, j: nat)
    requires Before(s, j) && IsThread(s, i) && CanGo(s, i) && KnowsAttempt(s, s.threads[i]) && Local(s, i)
    requires s.threads[i].Publish?
    ensures Before(Go(s, i), j)
  {}

  lemma RestGives(s: State, i: nat, j: nat)
    requires Before(s, j) && IsThread(s, i) && CanGo(s, i) && KnowsAttempt(s, s.threads[i])
    requires !InSection(s.threads[i]) && !WantsMu(s.threads[i]) && !Moves(s.threads[i]) && !Dials(s.threads[i])
    requires !s.threads[i].Publish?
    ensures Before(Go(s, i), j)
  {}

  lemma GoGives(s: State, i: nat, j: nat)
    requires Core(s) && Before(s, j) && IsThread(s, i) && CanGo(s, i) && KnowsAttempt(s, s.threads[i])
    ensures Before(Go(s, i), j)
  {
    var pc := s.threads[i];
    assert Local(s, i);
    OnlyTheLast(s);
    if WantsLock(pc) || WantsMu(pc) { LockGives(s, i, j); }
    else if pc.DetachCs? { DetachGives(s, i, j); }
    else if pc.DecideCs? { DecideGives(s, i, j); }
    else if Moves(pc) { EndGives(s, i, j); }
    else if Dials(pc) {
      if IsThread(s, j) { assert Local(s, j); }
      DialGives(s, i, j);
    }
    else if InSection(pc) { SectionGives(s, i, j); }
    else if pc.Publish? { PublishGives(s, i, j); }
    else { RestGives(s, i, j); }
  }

  lemma OutsideGives(s: State, step: Step, j: nat)
    requires Before(s, j) && Enabled(s, step) && !step.Run?
    ensures Before(Apply(s, step), j)
  {}

  // ----- what goes on -----

  lemma LockGoesOn(s: State, i: nat)
    requires GoesOn(s) && IsThread(s, i) && CanGo(s, i) && KnowsAttempt(s, s.threads[i])
    requires WantsLock(s.threads[i]) || WantsMu(s.threads[i])
    ensures GoesOn(Go(s, i))
  {}

  lemma MoveGoesOn(s: State, i: nat)
    requires GoesOn(s) && IsThread(s, i) && CanGo(s, i) && KnowsAttempt(s, s.threads[i])
    requires Local(s, i) && GivesUpOnlyIfFinal(s, i)
    requires forall k :: 0 <= k < |s.attempts| && !s.attempts[k].stage.Ended? ==> k + 1 == |s.attempts|
    requires !WantsLock(s.threads[i]) && Moves(s.threads[i]) && !s.threads[i].DetachCs?
    ensures GoesOn(Go(s, i))
  {}

  lemma DetachGoesOn(s: State, i: nat)
    requires GoesOn(s) && IsThread(s, i) && CanGo(s, i) && KnowsAttempt(s, s.threads[i]) && Fields(s)
    requires s.threads[i].DetachCs? && s.threads[i].entered
    ensures GoesOn(Go(s, i))
  {}

  lemma DialGoesOn(s: State, i: nat)
    requires GoesOn(s) && IsThread(s, i) && CanGo(s, i) && KnowsAttempt(s, s.threads[i])
    requires !WantsLock(s.threads[i]) && Dials(s.threads[i])
    ensures GoesOn(Go(s, i))
  {}

  lemma SectionGoesOn(s: State, i: nat)
    requires GoesOn(s) && IsThread(s, i) && CanGo(s, i) && KnowsAttempt(s, s.threads[i])
    requires HoldsLock(s.threads[i]) && (s.threads[i].HandlerCs? || s.threads[i].QuitCs? || s.threads[i].GraceCs?)
    requires s.threads[i].HandlerCs? ==> !s.threads[i].h.Stop? || s.threads[i].h.reason != ""
    ensures GoesOn(Go(s, i))
  {}

  lemma RestGoesOn(s: State, i: nat)
    requires GoesOn(s) && IsThread(s, i) && CanGo(s, i) && KnowsAttempt(s, s.threads[i])
    requires !InSection(s.threads[i]) && !WantsMu(s.threads[i]) && !Moves(s.threads[i]) && !Dials(s.threads[i])
    ensures GoesOn(Go(s, i))
  {}

  lemma GoGoesOn(s: State, i: nat)
    requires Core(s) && Ongoing(s) && IsThread(s, i) && CanGo(s, i) && KnowsAttempt(s, s.threads[i])
    ensures GoesOn(Go(s, i))
  {
    var pc := s.threads[i];
    assert Local(s, i);
    OnlyTheLast(s);
    if WantsLock(pc) || WantsMu(pc) { LockGoesOn(s, i); }
    else if pc.DetachCs? { DetachGoesOn(s, i); }
    else if Moves(pc) { MoveGoesOn(s, i); }
    else if Dials(pc) { DialGoesOn(s, i); }
    else if InSection(pc) { SectionGoesOn(s, i); }
    else { RestGoesOn(s, i); }
  }

  lemma OutsideGoesOn(s: State, step: Step)
    requires GoesOn(s) && Enabled(s, step) && !step.Run?
    ensures GoesOn(Apply(s, step))
  {}

  // ----- every run -----

  lemma StepOngoing(s: State, step: Step)
    requires Core(s) && Ongoing(s) && Enabled(s, step)
    ensures Ongoing(Apply(s, step))
  {
    var t := Apply(s, step);
    if step.Run? { GoGoesOn(s, step.i); } else { OutsideGoesOn(s, step); }
    forall j | 0 <= j < |t.threads| ensures GivesUpOnlyIfFinal(t, j) {
      if step.Run? { GoGives(s, step.i, j); } else { OutsideGives(s, step, j); }
      assert Before(t, j);
    }
  }

  lemma {:induction false} RunOngoing(s: State, steps: seq<Step>)
    requires Inv(s) && Ongoing(s) && ValidRun(s, steps)
    ensures Ongoing(Exec(s, steps))
    decreases |steps|
  {
    if steps != [] {
      StepInv(s, steps[0]);
      StepOngoing(s, steps[0]);
      RunOngoing(Apply(s, steps[0]), steps[1..]);
    }
  }

  /** In every reachable state of a client that was started and is neither quitting nor stopped, either the
      last attempt is not over, and none waits to start, or there is one thread that will start the next. */
  lemma EndsAreFollowed(s: State)
    requires Reachable(s) && s.started && !Final(s.c)
    ensures AllEnded(s) ==> s.cont.Some?
    ensures s.cont.Some? <==> Over(s.attempts)
    ensures s.cont.Some? ==>
      IsThread(s, s.cont.value)
      && var pc := s.threads[s.cont.value]; pc.ConnectCs? || pc.AwaitDone? || (pc.Armed? && s.c.timer == s.cont)
  {
    var steps :| ValidRun(Init(), steps) && Exec(Init(), steps) == s;
    InitInv();
    RunOngoing(Init(), steps);
    ReachableInv(s);
    ContinuationWaits(s);
  }

  /** So when no one can move, irc-go has answered every call and has reported every connection it lost,
      such a client has an open connection or its timer is armed, for a time still to come. */
  lemma RestsConnectedOrArmed(w: Locks.Whole)
    requires Locks.ReachableWhole(w) && Locks.Stuck(w) && !OwesReport(w.base)
    requires w.base.started && !Final(w.base.c)
    ensures var s := w.base;
            || (|s.attempts| > 0 && s.attempts[|s.attempts| - 1].stage.Live? && Attached(s, |s.attempts| - 1) && s.cont == None)
            || (AllEnded(s) && s.cont.Some? && s.c.timer == s.cont && IsThread(s, s.cont.value)
                && s.threads[s.cont.value].Armed? && s.threads[s.cont.value].due > s.now)
  {
    var s := w.base;
    Locks.ReachableRight(w);
    Locks.NoOneIsBusy(w);
    ReachableInv(s);
    EndsAreFollowed(s);
    IdleAttempts(s);
    OnlyTheLast(s);
    if s.cont.Some? {
      Locks.NoDeadlockAtAll(w, s.cont.value);
    }
  }
}
