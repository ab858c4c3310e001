/** What the lifecycle guarantees in every interleaving. */
module LifecycleTheorems {
  import opened Options
  import opened Lifecycle
  import opened LifecycleInvariant
  import opened LifecycleCore
  import opened LifecycleSteps

  // ----- the published statuses -----

  /** Whenever no one is deciding or publishing a status, the last one published is the client's. */
  lemma LastStatusIsCurrent(s: State)
    requires Reachable(s) && s.statusMu == None
    ensures |s.log| > 0 && s.log[|s.log| - 1].status == s.c.Current()
  {
    ReachableInv(s);
  }

  /** "Connected" and "Reconnecting in" never follow "Closing connection". */
  lemma ClosingIsLast(s: State)
    requires Reachable(s)
    ensures forall i, j :: 0 <= i < j < |s.log| && s.log[i].status.msg == Closing ==>
      !s.log[j].status.msg.Connected? && !s.log[j].status.msg.Reconnecting?
  {
    ReachableInv(s);
  }

  /** The statuses of attempt j all precede those of a later attempt, and each attempt publishes
      at most "Connected", then its end, then "Reconnecting in", each once and in that order. */
  lemma AttemptsTellInOrder(s: State)
    requires Reachable(s)
    ensures Ordered(s.log)
    ensures forall k :: 0 <= k < |s.attempts| ==>
      var h := Heard(s.log, k); Opening(h) || Told(h) || Retried(h)
    ensures forall k :: 0 <= k < |s.attempts| && s.attempts[k].stage.Ended? ==>
      var h := Heard(s.log, k); Told(h) || Retried(h)
  {
    ReachableInv(s);
    forall k | 0 <= k < |s.attempts|
      ensures var h := Heard(s.log, k); Opening(h) || Told(h) || Retried(h)
    {
      assert Shape(s, k);
    }
    forall k | 0 <= k < |s.attempts| && s.attempts[k].stage.Ended?
      ensures var h := Heard(s.log, k); Told(h) || Retried(h)
    {
      assert Shape(s, k);
    }
  }

  /** When a handler stopped the client, or gave the attempt up, the ended attempt's status is that
      reason; the stop reason, if both. */
  lemma ReasonIsTold(s: State)
    requires Reachable(s) && |s.attempts| > 0
    ensures var why := if s.c.stopped != "" then s.c.stopped else s.c.gaveUp;
            var heard := Heard(s.log, |s.attempts| - 1);
            && (why != "" ==> forall m :: m in heard && m.Failed? ==> m.text == why)
            && (why != "" && s.attempts[|s.attempts| - 1].stage.Ended? ==> Failed(why) in heard)
  {
    ReachableInv(s);
    var k := |s.attempts| - 1;
    var h := Heard(s.log, k);
    assert Shape(s, k);
    if s.attempts[k].stage.Ended? {
      var m := if Told(h) then h[|h| - 1] else h[..|h| - 1][|h| - 2];
      assert m in h && m.Failed?;
    }
  }

  // ----- attempts -----

  /** At most the last attempt is not over; a done channel is closed exactly once, by the attempt's
      end, and no attempt joins twice. */
  lemma OneAttemptAtATime(s: State)
    requires Reachable(s)
    ensures forall k :: 0 <= k < |s.attempts| - 1 ==> s.attempts[k].stage.Ended?
    ensures forall k :: 0 <= k < |s.attempts| ==>
      s.attempts[k].closes == (if s.attempts[k].stage.Ended? then 1 else 0) && s.attempts[k].joins <= 1
    ensures s.c.conn.Some? <==> |s.attempts| > 0 && s.attempts[|s.attempts| - 1].stage.Live?
  {
    ReachableInv(s);
    forall k | 0 <= k < |s.attempts|
      ensures k + 1 < |s.attempts| ==> s.attempts[k].stage.Ended?
      ensures s.attempts[k].closes == (if s.attempts[k].stage.Ended? then 1 else 0) && s.attempts[k].joins <= 1
    {
      assert AttemptOk(s, k);
    }
  }

  /** A second report of an attempt's end changes no status and no field, and closes nothing: neither
      when it would take the sender away, nor when it would take the attempt. */
  lemma LateReportChangesNothing(s: State, i: nat, k: nat, text: string)
    requires Reachable(s) && IsThread(s, i) && (s.threads[i] == EndSwap(k, text) || s.threads[i] == DetachCs(k, text, true))
    requires !(IsAttempt(s, k) && s.attempts[k].stage.Live?)
    ensures IsAttempt(s, k)
    ensures var t := Go(s, i); t.c == s.c && t.attempts == s.attempts && t.sender == s.sender && t.log == s.log
    ensures Go(s, i).threads == s.threads[i := if s.threads[i].EndSwap? then DetachCs(k, text, false) else Finished]
  {
    ReachableInv(s);
    AttemptIsKnown(s, i);
    assert Local(s, i);
    assert AttemptOk(s, k);
  }

  /** A handler run for a connection that is no longer the client's changes nothing. */
  lemma StaleHandlerChangesNothing(s: State, i: nat, k: nat, h: Handler)
    requires Reachable(s) && IsThread(s, i) && s.threads[i] == HandlerCs(k, h, true) && CanGo(s, i)
    requires k + 1 < |s.attempts| || (IsAttempt(s, k) && !s.attempts[k].stage.Live?)
    ensures var t := Go(s, i); t.c == s.c && t.attempts == s.attempts && t.sender == s.sender && t.log == s.log
    ensures Go(s, i).threads == s.threads[i := Finished]
  {
    ReachableInv(s);
    assert AttemptOk(s, k);
  }

  // ----- what is final -----

  lemma FinalStays(s: State, step: Step)
    requires Core(s) && Enabled(s, step) && Final(s.c)
    ensures Final(Apply(s, step).c) && (s.c.quitting ==> Apply(s, step).c.quitting)
  {
    if step.Run? {
      assert Local(s, step.i);
      GoSteady(s, step.i);
    }
  }

  /** Once quitting is set, or the client is stopped, no attempt ever starts: not from a timer that
      had already fired, and not from a connect that had already begun. */
  lemma {:induction false} NoAttemptAfterFinal(s: State, steps: seq<Step>)
    requires Inv(s) && Final(s.c) && ValidRun(s, steps)
    ensures Final(Exec(s, steps).c) && |Exec(s, steps).attempts| == |s.attempts|
    decreases |steps|
  {
    if steps != [] {
      StepInv(s, steps[0]);
      FinalStays(s, steps[0]);
      FinalStartsNothing(s, steps[0]);
      NoAttemptAfterFinal(Apply(s, steps[0]), steps[1..]);
    }
  }

  lemma ReachableFinal(s: State, steps: seq<Step>)
    requires Reachable(s) && Final(s.c) && ValidRun(s, steps)
    ensures |Exec(s, steps).attempts| == |s.attempts|
  {
    ReachableInv(s);
    NoAttemptAfterFinal(s, steps);
  }

  /** No attempt is live, the client is not connected, and there is no sender. */
  ghost predicate AtRest(s: State) {
    AllEnded(s) && s.c.conn == None && !s.c.connected && s.sender == None && !s.c.registered
  }

  lemma EndedStays(s: State, step: Step)
    requires Core(s) && Enabled(s, step) && s.c.quitting && AllEnded(s)
    ensures AllEnded(Apply(s, step))
  {
    StepCore(s, step);
    FinalStartsNothing(s, step);
    var t := Apply(s, step);
    forall k | 0 <= k < |t.attempts| ensures t.attempts[k].stage.Ended? {
      assert AttemptOk(s, k);
      EndedKept(s, step, k);
    }
  }

  lemma EndedKept(s: State, step: Step, k: nat)
    requires Core(s) && Enabled(s, step) && AllEnded(s) && IsAttempt(s, k)
    ensures IsAttempt(Apply(s, step), k) && Apply(s, step).attempts[k].stage.Ended?
  {
    assert AttemptOk(s, k);
    if step.Run? {
      assert Local(s, step.i);
    }
  }

  /** When Destroy has returned, the connection is over, and stays so in every continuation. */
  lemma {:induction false} DestroyedForGood(s: State, steps: seq<Step>)
    requires Inv(s) && s.c.quitting && AllEnded(s) && ValidRun(s, steps)
    ensures AtRest(Exec(s, steps))
    decreases |steps|
  {
    if steps != [] {
      StepInv(s, steps[0]);
      FinalStays(s, steps[0]);
      EndedStays(s, steps[0]);
      DestroyedForGood(Apply(s, steps[0]), steps[1..]);
    }
  }

  lemma DestroyIsFinal(s: State, i: nat, steps: seq<Step>)
    requires Reachable(s) && IsThread(s, i) && s.threads[i] == Returned && ValidRun(s, steps)
    ensures AtRest(s) && AtRest(Exec(s, steps)) && |Exec(s, steps).attempts| == |s.attempts|
  {
    ReachableInv(s);
    assert Local(s, i);
    DestroyedForGood(s, []);
    DestroyedForGood(s, steps);
    NoAttemptAfterFinal(s, steps);
  }

  // ----- the backoff -----

  /** The waiting that n unstable ends in a row add up to. */
  function TotalWait(n: nat): nat {
    if n == 0 then 0 else TotalWait(n - 1) + Backoff(n)
  }

  lemma {:induction false} TotalWaitClosed(n: nat)
    ensures 2 * TotalWait(n) ==
      if n <= BACKOFF_CAP then RETRY_UNIT * (n * (n + 1)) else RETRY_UNIT * (420 + 40 * (n - BACKOFF_CAP))
  {
    if n > 0 {
      TotalWaitClosed(n - 1);
      if n <= BACKOFF_CAP {
        assert n * (n + 1) == (n - 1) * n + 2 * n;
      }
    }
  }

  lemma {:induction false} StreakSum(xs: seq<nat>)
    requires forall j :: 0 <= j < |xs| ==> xs[j] == Backoff(j + 1)
    ensures Sum(xs) == TotalWait(|xs|)
  {
    if xs != [] {
      StreakSum(xs[..|xs| - 1]);
    }
  }

  /** An attempt that starts after n unstable ends in a row starts at least TotalWait(n) seconds
      after the first of them. */
  lemma BackoffIsWaited(s: State, i: nat)
    requires Reachable(s) && IsThread(s, i) && s.threads[i] == ConnectCs(true) && !s.c.quitting
    ensures |Go(s, i).attempts| == |s.attempts| + 1
    ensures s.now >= s.since + TotalWait(s.c.retries)
  {
    ReachableInv(s);
    assert Local(s, i);
    StreakSum(s.streak);
  }

  /** The section that decides how the attempt's end goes on, of a client that does. */
  ghost predicate Decides(s: State, step: Step) {
    step.Run? && IsThread(s, step.i) && s.threads[step.i].DecideCs? && s.threads[step.i].entered
    && !s.c.quitting && s.c.stopped == ""
  }

  /** The retries change in that section alone: back to one after a connection that lasted 300 s since its 001,
      by one up after any other. */
  lemma ResetNeedsAStableConnection(s: State, step: Step)
    requires Reachable(s) && Enabled(s, step)
    ensures Apply(s, step).c.retries ==
            if !Decides(s, step) then s.c.retries
            else if s.c.welcomedAt.Some? && s.now - s.c.welcomedAt.value >= 300 then 1
            else s.c.retries + 1
  {
    ReachableInv(s);
    if step.Run? {
      assert Local(s, step.i);
      if !(s.threads[step.i].DecideCs? && s.threads[step.i].entered) {
        GoUnhurried(s, step.i);
      }
    } else {
      StepUnhurried(s, step);
    }
  }
}
