/** No socket is left open: an attempt that is over has none. */
module LifecycleSockets {
  import opened Options
  import opened Lifecycle
  import opened LifecycleInvariant
  import opened LifecycleCore
  import opened LifecycleSteps
  import opened LifecycleTheorems

  /** Attempt k's socket is open only while the attempt is live, or until its end closes it. */
  ghost predicate SocketOk(s: State, k: nat)
    requires IsAttempt(s, k)
  {
    var a := s.attempts[k];
    a.sock.Open? && !a.stage.Live? ==>
      a.stage.Ending? && IsThread(s, a.stage.ender)
      && var pc := s.threads[a.stage.ender]; pc.Shut? && pc.k == k && pc.sock == Some(k)
  }

  ghost predicate Sockets(s: State) {
    forall k :: 0 <= k < |s.attempts| ==> SocketOk(s, k)
  }

  lemma LockSocket(s: State, i: nat, k: nat)
    requires IsAttempt(s, k) && SocketOk(s, k) && IsThread(s, i) && CanGo(s, i) && KnowsAttempt(s, s.threads[i])
    requires WantsLock(s.threads[i]) || WantsMu(s.threads[i])
    ensures IsAttempt(Go(s, i), k) && SocketOk(Go(s, i), k)
  {}

  lemma DetachSocket(s: State, i: nat, k: nat)
    requires IsAttempt(s, k) && AttemptOk(s, k) && SocketOk(s, k) && IsThread(s, i) && KnowsAttempt(s, s.threads[i])
    requires s.threads[i].DetachCs? && s.threads[i].entered && Local(s, i)
    requires s.c.conn == Some(k) ==> s.attempts[k].stage.Live?
    ensures CanGo(s, i) && IsAttempt(Go(s, i), k) && SocketOk(Go(s, i), k)
  {}

  lemma EndSocket(s: State, i: nat, k: nat)
    requires IsAttempt(s, k) && AttemptOk(s, k) && SocketOk(s, k) && IsThread(s, i) && CanGo(s, i)
    requires KnowsAttempt(s, s.threads[i]) && Local(s, i)
    requires s.threads[i].Shut? || s.threads[i].CloseDone? || (s.threads[i].FailCs? && s.threads[i].entered)
    ensures IsAttempt(Go(s, i), k) && SocketOk(Go(s, i), k)
  {}

  lemma DecideSocket(s: State, i: nat, k: nat)
    requires IsAttempt(s, k) && AttemptOk(s, k) && SocketOk(s, k) && IsThread(s, i) && KnowsAttempt(s, s.threads[i])
    requires s.threads[i].DecideCs? && s.threads[i].entered && Local(s, i)
    ensures CanGo(s, i) && IsAttempt(Go(s, i), k) && SocketOk(Go(s, i), k)
  {}

  lemma DialSocket(s: State, i: nat, k: nat)
    requires IsAttempt(s, k) && SocketOk(s, k) && IsThread(s, i) && CanGo(s, i) && KnowsAttempt(s, s.threads[i])
    requires !WantsLock(s.threads[i]) && Dials(s.threads[i])
    ensures IsAttempt(Go(s, i), k) && SocketOk(Go(s, i), k)
  {}

  lemma SectionSocket(s: State, i: nat, k: nat)
    requires IsAttempt(s, k) && SocketOk(s, k) && IsThread(s, i) && CanGo(s, i) && KnowsAttempt(s, s.threads[i])
    requires s.threads[i].HandlerCs? || s.threads[i].QuitCs? || s.threads[i].GraceCs?
    requires HoldsLock(s.threads[i])
    ensures IsAttempt(Go(s, i), k) && SocketOk(Go(s, i), k)
  {}

  lemma RestSocket(s: State, i: nat, k: nat)
    requires IsAttempt(s, k) && SocketOk(s, k) && IsThread(s, i) && CanGo(s, i) && KnowsAttempt(s, s.threads[i])
    requires !InSection(s.threads[i]) && !WantsMu(s.threads[i]) && !Moves(s.threads[i]) && !Dials(s.threads[i])
    ensures IsAttempt(Go(s, i), k) && SocketOk(Go(s, i), k)
  {}

  lemma GoSocket(s: State, i: nat, k: nat)
    requires Core(s) && IsAttempt(s, k) && SocketOk(s, k) && IsThread(s, i) && CanGo(s, i) && KnowsAttempt(s, s.threads[i])
    ensures IsAttempt(Go(s, i), k) && SocketOk(Go(s, i), k)
  {
    var pc := s.threads[i];
    assert Local(s, i) && AttemptOk(s, k);
    if WantsLock(pc) || WantsMu(pc) { LockSocket(s, i, k); }
    else if pc.DetachCs? { DetachSocket(s, i, k); }
    else if pc.DecideCs? { DecideSocket(s, i, k); }
    else if Moves(pc) { EndSocket(s, i, k); }
    else if Dials(pc) { DialSocket(s, i, k); }
    else if InSection(pc) { SectionSocket(s, i, k); }
    else { RestSocket(s, i, k); }
  }

  lemma OutsideSocket(s: State, step: Step, k: nat)
    requires Core(s) && IsAttempt(s, k) && SocketOk(s, k) && Enabled(s, step) && !step.Run?
    ensures IsAttempt(Apply(s, step), k) && SocketOk(Apply(s, step), k)
  {
    if step.DialUp? {
      assert Local(s, step.i);
    }
  }

  lemma StepSockets(s: State, step: Step)
    requires Core(s) && Sockets(s) && Enabled(s, step)
    ensures Sockets(Apply(s, step))
  {
    var t := Apply(s, step);
    NewAttemptOnly(s, step);
    forall k | 0 <= k < |t.attempts| ensures SocketOk(t, k) {
      if k < |s.attempts| {
        assert SocketOk(s, k);
        if step.Run? { GoSocket(s, step.i, k); } else { OutsideSocket(s, step, k); }
      }
    }
  }

  lemma {:induction false} RunSockets(s: State, steps: seq<Step>)
    requires Inv(s) && Sockets(s) && ValidRun(s, steps)
    ensures Sockets(Exec(s, steps))
    decreases |steps|
  {
    if steps != [] {
      StepInv(s, steps[0]);
      StepSockets(s, steps[0]);
      RunSockets(Apply(s, steps[0]), steps[1..]);
    }
  }

  /** In every reachable state an attempt that is over has no open socket; so at most the last one's
      is open. */
  lemma OverMeansClosed(s: State)
    requires Reachable(s)
    ensures forall k :: 0 <= k < |s.attempts| && s.attempts[k].sock.Open? ==>
      !s.attempts[k].stage.Ended? && k == |s.attempts| - 1
  {
    var steps :| ValidRun(Init(), steps) && Exec(Init(), steps) == s;
    InitInv();
    RunSockets(Init(), steps);
    ReachableInv(s);
    forall k | 0 <= k < |s.attempts| && s.attempts[k].sock.Open?
      ensures !s.attempts[k].stage.Ended? && k == |s.attempts| - 1
    {
      assert SocketOk(s, k) && AttemptOk(s, k);
    }
  }

  /** So when Destroy has returned every socket the client ever opened is closed. */
  lemma DestroyClosesAll(s: State, i: nat)
    requires Reachable(s) && IsThread(s, i) && s.threads[i] == Returned
    ensures forall k :: 0 <= k < |s.attempts| ==> !s.attempts[k].sock.Open?
  {
    OverMeansClosed(s);
    assert ValidRun(s, []);
    DestroyIsFinal(s, i, []);
  }
}
