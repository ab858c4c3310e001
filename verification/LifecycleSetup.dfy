/** What a connection that is up has: its status, its sender, and its registration. And what one that a
    handler has ended lacks: an open socket. */
module LifecycleSetup {
  import opened Options
  import opened Lifecycle
  import opened LifecycleInvariant
  import opened LifecycleCore
  import opened LifecycleSteps
  import opened LifecycleTheorems
  import opened LifecycleProgress
  import opened LifecycleEffects
  import opened LifecycleContinues
  import Locks = LifecycleLocks

  // ----- what is kept -----

  /** The client is registered exactly while its attempt is live and has joined. */
  ghost predicate Registers(c: Client, attempts: seq<Attempt>) {
    c.registered <==> |attempts| > 0 && attempts[|attempts| - 1].stage.Live? && attempts[|attempts| - 1].joins == 1
  }

  /** A live attempt whose connect has returned has joined. */
  ghost predicate Joins(s: State, k: nat)
    requires IsAttempt(s, k)
  {
    var a := s.attempts[k];
    a.stage.Live? && IsThread(s, a.runner) && s.threads[a.runner].Finished? ==> a.joins == 1
  }

  /** An attached socket makes the client connected; only Destroy then changes the status. */
  ghost predicate Shows(c: Client) {
    c.socket.Some? ==> c.connected && c.msg == if c.quitting then Closing else Connected
  }

  /** A stopped or given up attempt has no open socket. */
  ghost predicate ClosedIfEnded(c: Client, attempts: seq<Attempt>) {
    Reason(c) != "" && |attempts| > 0 ==>
      attempts[|attempts| - 1].dialed && !attempts[|attempts| - 1].sock.Open?
  }

  ghost predicate NoReport(threads: seq<Pc>, k: nat) {
    forall i :: 0 <= i < |threads| ==> !(threads[i].DetachCs? && threads[i].k == k)
  }

  /** The sender of the attached connection k is stored, from when the dial hook has stored it until a
      report of its end takes it away. */
  ghost predicate Stores(s: State, k: nat)
    requires IsAttempt(s, k)
  {
    s.c.socket == Some(k) && IsThread(s, s.attempts[k].runner) && !s.threads[s.attempts[k].runner].HookStore?
    && NoReport(s.threads, k)
    ==> s.sender == Some(k)
  }

  ghost predicate SetUp(s: State) {
    && Registers(s.c, s.attempts) && Shows(s.c) && ClosedIfEnded(s.c, s.attempts)
    && forall k :: 0 <= k < |s.attempts| ==> Joins(s, k) && Stores(s, k)
  }

  // ----- a step of a thread -----

  /** The last attempt k is a: what its client and a thread at pc know of it. */
  ghost predicate Known(c: Client, a: Attempt, k: nat, pc: Pc) {
    && c.conn == (if a.stage.Live? then Some(k) else None)
    && (pc.SetupCs? && pc.k == k ==> a.joins == 0)
    && (pc.CloseDone? || (pc.DecideCs? && pc.entered) ==> pc.k != k || !a.stage.Live?)
    && (a.stage.Live? && a.dialed && a.sock.Open? ==> c.socket == Some(k))
    && (pc.HandlerCs? && pc.k == k ==> a.dialed)
  }

  lemma LastIsKnown(s: State, i: nat)
    requires Fields(s) && |s.attempts| > 0 && AttemptOk(s, |s.attempts| - 1) && IsThread(s, i) && Local(s, i)
    ensures Known(s.c, s.attempts[|s.attempts| - 1], |s.attempts| - 1, s.threads[i])
  {}

  lemma RegistersOne(c: Client, a: Attempt, k: nat, pc: Pc, i: nat, m: nat, now: nat)
    requires Known(c, a, k, pc) && !(pc.ConnectCs? && pc.entered && !c.quitting)
    requires c.registered <==> a.stage.Live? && a.joins == 1
    ensures var t, b := ClientAfter(c, pc, k + 1, m, now), AttemptAfter(c, pc, i, a, k);
            t.registered <==> b.stage.Live? && b.joins == 1
  {}

  lemma ClosesOne(c: Client, a: Attempt, k: nat, pc: Pc, i: nat, m: nat, now: nat)
    requires Known(c, a, k, pc) && !(pc.ConnectCs? && pc.entered && !c.quitting)
    requires Reason(c) != "" ==> a.dialed && !a.sock.Open?
    ensures var t, b := ClientAfter(c, pc, k + 1, m, now), AttemptAfter(c, pc, i, a, k);
            Reason(t) != "" ==> b.dialed && !b.sock.Open?
  {}

  predicate Begins(c: Client, pc: Pc) {
    pc.ConnectCs? && pc.entered && !c.quitting
  }

  lemma GoRegisters(s: State, t: State, i: nat)
    requires Fields(s) && (|s.attempts| > 0 ==> AttemptOk(s, |s.attempts| - 1)) && IsThread(s, i) && Local(s, i)
    requires Effects(s, t, i) && Registers(s.c, s.attempts) && ClosedIfEnded(s.c, s.attempts)
    requires s.c.stopped != "" ==> s.cont == None
    ensures Registers(t.c, t.attempts) && ClosedIfEnded(t.c, t.attempts)
  {
    var pc, n := s.threads[i], |s.attempts|;
    if !Begins(s.c, pc) && n > 0 {
      LastIsKnown(s, i);
      RegistersOne(s.c, s.attempts[n - 1], n - 1, pc, i, |s.threads|, s.now);
      ClosesOne(s.c, s.attempts[n - 1], n - 1, pc, i, |s.threads|, s.now);
      assert t.attempts[n - 1] == AttemptAfter(s.c, pc, i, s.attempts[n - 1], n - 1);
    }
  }

  lemma ShowsOne(c: Client, pc: Pc, n: nat, m: nat, now: nat)
    requires Shows(c) && (pc.FailCs? || pc.DecideCs? ==> c.socket == None)
    ensures Shows(ClientAfter(c, pc, n, m, now))
  {
    var t := ClientAfter(c, pc, n, m, now);
    if pc.SetupCs? || pc.HandlerCs? {
      assert t.socket == c.socket && t.quitting == c.quitting && t.Current() == c.Current();
    } else if pc.QuitCs? {
      assert t.socket == c.socket && t.connected == c.connected;
    } else if !pc.HookCs? {
      assert t == c || t.socket == None;
    }
  }

  lemma EndHasNoSocket(s: State, i: nat)
    requires Core(s) && IsThread(s, i)
    ensures s.threads[i].FailCs? || s.threads[i].DecideCs? ==> s.c.socket == None
  {
    assert Local(s, i);
    OnlyTheLast(s);
  }

  /** The runner of a live attempt k finishes by joining. */
  lemma FinishesByJoining(c: Client, pc: Pc, i: nat, a: Attempt, k: nat, n: nat, now: nat)
    requires c.conn == Some(k) && Runs(a, pc, k) && (pc.SetupCs? ==> a.joins == 0) && (pc.Finished? ==> a.joins == 1)
    requires PcAfter(c, pc, n, now).Finished?
    ensures AttemptAfter(c, pc, i, a, k).joins == 1
  {}

  lemma JoinsKept(c: Client, pc: Pc, i: nat, a: Attempt, k: nat)
    ensures AttemptAfter(c, pc, i, a, k).joins == a.joins || (pc.SetupCs? && pc.k == k)
    ensures AttemptAfter(c, pc, i, a, k).runner == a.runner
  {}

  lemma GoJoins(s: State, t: State, i: nat, k: nat)
    requires IsAttempt(s, k) && AttemptOk(s, k) && IsThread(s, i) && Local(s, i) && Joins(s, k)
    requires s.attempts[k].stage.Live? ==> s.c.conn == Some(k)
    requires Effects(s, t, i)
    ensures IsAttempt(t, k) && Joins(t, k)
  {
    var a, pc := s.attempts[k], s.threads[i];
    JoinsKept(s.c, pc, i, a, k);
    assert t.attempts[k] == AttemptAfter(s.c, pc, i, a, k);
    if a.stage.Live? && a.runner == i && PcAfter(s.c, pc, |s.attempts|, s.now).Finished? {
      FinishesByJoining(s.c, pc, i, a, k, |s.attempts|, s.now);
    }
  }

  lemma ReportsStay(s: State, t: State, i: nat, k: nat)
    requires IsThread(s, i) && ThreadsAfter(s, t, i) && NoReport(t.threads, k)
    ensures NoReport(s.threads, k) || (s.threads[i].DetachCs? && s.threads[i].k == k)
  {
    forall j | 0 <= j < |s.threads| && j != i ensures !(s.threads[j].DetachCs? && s.threads[j].k == k) {
      assert !(t.threads[j].DetachCs? && t.threads[j].k == k);
    }
  }

  lemma GoStores(s: State, t: State, i: nat, k: nat)
    requires IsAttempt(s, k) && AttemptOk(s, k) && IsThread(s, i) && Local(s, i) && Stores(s, k)
    requires s.c.socket == Some(k) ==> s.attempts[k].stage.Live? && s.c.conn == Some(k)
    requires Effects(s, t, i)
    ensures IsAttempt(t, k) && Stores(t, k)
  {
    if NoReport(t.threads, k) {
      ReportsStay(s, t, i, k);
      if s.threads[i].EndSwap? && s.threads[i].k == k {
        assert !(t.threads[i].DetachCs? && t.threads[i].k == k);
      }
    }
  }

  lemma GoAttemptsSetUp(s: State, t: State, i: nat)
    requires Core(s) && SetUp(s) && IsThread(s, i) && Effects(s, t, i)
    ensures forall k :: 0 <= k < |t.attempts| ==> Joins(t, k) && Stores(t, k)
  {
    assert Local(s, i);
    forall k | 0 <= k < |t.attempts| ensures Joins(t, k) && Stores(t, k) {
      if k < |s.attempts| {
        assert AttemptOk(s, k) && Joins(s, k) && Stores(s, k);
        assert s.attempts[k].stage.Live? ==> k + 1 == |s.attempts|;
        GoJoins(s, t, i, k);
        GoStores(s, t, i, k);
      }
    }
  }

  lemma GoSetUp(s: State, i: nat)
    requires Core(s) && SetUp(s) && IsThread(s, i) && CanGo(s, i) && KnowsAttempt(s, s.threads[i])
    ensures SetUp(Go(s, i))
  {
    var t := Go(s, i);
    GoEffects(s, i);
    assert Local(s, i);
    assert |s.attempts| > 0 ==> AttemptOk(s, |s.attempts| - 1);
    GoRegisters(s, t, i);
    EndHasNoSocket(s, i);
    ShowsOne(s.c, s.threads[i], |s.attempts|, |s.threads|, s.now);
    GoAttemptsSetUp(s, t, i);
  }

  // ----- any step -----

  lemma SpawnSetUp(s: State, t: State, pc: Pc)
    requires SetUp(s) && t.threads == s.threads + [pc] && t.c == s.c && t.attempts == s.attempts && t.sender == s.sender
    requires Attempts(s) && !pc.Finished? && !pc.DetachCs?
    ensures SetUp(t)
  {
    forall k | 0 <= k < |t.attempts| ensures Joins(t, k) && Stores(t, k) {
      assert AttemptOk(s, k) && Joins(s, k) && Stores(s, k);
      if NoReport(t.threads, k) {
        forall j | 0 <= j < |s.threads| ensures !(s.threads[j].DetachCs? && s.threads[j].k == k) {
          assert !(t.threads[j].DetachCs? && t.threads[j].k == k);
        }
      }
    }
  }

  /** A step of irc-go on behalf of thread i, or the clock's: only that thread moves, and its attempt's
      dial goes on. */
  lemma OutsideSetUp(s: State, step: Step)
    requires Core(s) && SetUp(s) && Enabled(s, step) && Locks.ActorOf(step).Some? && !step.Run?
    ensures SetUp(Apply(s, step))
  {
    var t, i := Apply(s, step), Locks.ActorOf(step).value;
    assert Local(s, i);
    OnlyTheLast(s);
    assert |s.attempts| > 0 ==> AttemptOk(s, |s.attempts| - 1);
    forall k | 0 <= k < |t.attempts| ensures Joins(t, k) && Stores(t, k) {
      assert AttemptOk(s, k) && Joins(s, k) && Stores(s, k);
      if NoReport(t.threads, k) {
        forall j | 0 <= j < |s.threads| ensures !(s.threads[j].DetachCs? && s.threads[j].k == k) {
          assert !(t.threads[j].DetachCs? && t.threads[j].k == k);
        }
      }
    }
  }

  lemma StepSetUp(s: State, step: Step)
    requires Core(s) && SetUp(s) && Enabled(s, step)
    ensures SetUp(Apply(s, step))
  {
    match step
    case Run(i) => GoSetUp(s, i);
    case Report(k, text) => SpawnSetUp(s, Apply(s, step), EndSwap(k, text));
    case Deliver(k, h) => SpawnSetUp(s, Apply(s, step), HandlerCs(k, h, false));
    case Start => SpawnSetUp(s, Apply(s, step), ConnectCs(false));
    case Destroy => SpawnSetUp(s, Apply(s, step), QuitMu);
    case Tick => TickSetUp(s);
    case _ => OutsideSetUp(s, step);
  }

  lemma TickSetUp(s: State)
    requires SetUp(s)
    ensures SetUp(s.(now := s.now + 1))
  {
    var t := s.(now := s.now + 1);
    forall k | 0 <= k < |t.attempts| ensures Joins(t, k) && Stores(t, k) { assert Joins(s, k) && Stores(s, k); }
  }

  lemma {:induction false} RunSetUp(s: State, steps: seq<Step>)
    requires Inv(s) && SetUp(s) && ValidRun(s, steps)
    ensures SetUp(Exec(s, steps))
    decreases |steps|
  {
    if steps != [] {
      StepInv(s, steps[0]);
      StepSetUp(s, steps[0]);
      RunSetUp(Apply(s, steps[0]), steps[1..]);
    }
  }

  lemma ReachableSetUp(s: State)
    requires Reachable(s)
    ensures SetUp(s)
  {
    var steps :| ValidRun(Init(), steps) && Exec(Init(), steps) == s;
    InitInv();
    RunSetUp(Init(), steps);
  }

  // ----- what follows -----

  /** Attempt k is live, and its connect has returned. */
  ghost predicate HasReturned(s: State, k: nat) {
    IsAttempt(s, k) && s.attempts[k].stage.Live? && IsThread(s, s.attempts[k].runner)
    && s.threads[s.attempts[k].runner].Finished?
  }

  /** The client is registered exactly while its attempt is live and has sent its joins; and a live attempt
      whose connect has returned has. */
  lemma RegisteredExactly(s: State)
    requires Reachable(s)
    ensures s.c.registered <==>
      |s.attempts| > 0 && s.attempts[|s.attempts| - 1].stage.Live? && s.attempts[|s.attempts| - 1].joins == 1
    ensures forall k: nat :: HasReturned(s, k) ==> s.c.registered && s.c.conn == Some(k)
  {
    ReachableSetUp(s);
    ReachableInv(s);
    OnlyTheLast(s);
    forall k: nat | HasReturned(s, k) ensures s.c.registered && s.c.conn == Some(k)
    {
      assert Joins(s, k);
    }
  }

  /** While a socket is attached the client is connected, and says so until it quits; lines then go to its
      own sender, from when the hook has stored it until a report of its end. */
  lemma AttachedIsUp(s: State, k: nat)
    requires Reachable(s) && s.c.socket == Some(k)
    ensures s.c.connected && s.c.msg == if s.c.quitting then Closing else Connected
    ensures IsAttempt(s, k) && s.attempts[k].stage.Live? && IsThread(s, s.attempts[k].runner)
    ensures !s.threads[s.attempts[k].runner].HookStore? && NoReport(s.threads, k) ==> s.sender == Some(k)
  {
    ReachableSetUp(s);
    ReachableInv(s);
    assert AttemptOk(s, k) && Stores(s, k);
  }

  /** Once a handler has stopped the client or given the attempt up, its socket is closed. */
  lemma EndedIsClosed(s: State)
    requires Reachable(s) && |s.attempts| > 0 && (s.c.stopped != "" || s.c.gaveUp != "")
    ensures !s.attempts[|s.attempts| - 1].sock.Open?
  {
    ReachableSetUp(s);
  }

  /** So a client at rest that has not ended for good is registered, shows "Connected", and has its sender,
      or waits for its timer, which says so. */
  lemma RestsRegisteredOrArmed(w: Locks.Whole)
    requires Locks.ReachableWhole(w) && Locks.Stuck(w) && !OwesReport(w.base)
    requires w.base.started && !Final(w.base.c)
    ensures var c := w.base.c;
            || (c.conn.Some? && c.registered && c.connected && c.msg == Connected && c.socket == c.conn
                && w.base.sender == c.conn && c.gaveUp == "")
            || (w.base.cont.Some? && c.timer == w.base.cont && AllEnded(w.base) && !c.connected)
  {
    var s := w.base;
    Locks.ReachableRight(w);
    Locks.NoOneIsBusy(w);
    ReachableInv(s);
    ReachableSetUp(s);
    RestsConnectedOrArmed(w);
    NoOneAwaitsALock(s);
    if s.cont == None {
      var k := |s.attempts| - 1;
      assert AttemptOk(s, k) && Joins(s, k) && Stores(s, k);
      Locks.NoDeadlockAtAll(w, s.attempts[k].runner);
      RestingRunner(s, k);
      forall i | 0 <= i < |s.threads| ensures !(s.threads[i].DetachCs? && s.threads[i].k == k) {
        Locks.NoDeadlockAtAll(w, i);
      }
    }
  }

  lemma RestingRunner(s: State, k: nat)
    requires IsAttempt(s, k) && AttemptOk(s, k) && s.attempts[k].stage.Live?
    requires var pc := s.threads[s.attempts[k].runner]; pc.Finished? || pc.Returned? || pc.Armed?
    ensures s.threads[s.attempts[k].runner].Finished?
  {}

  /** And one that a handler stopped is at rest with no connection and no timer, having told why. */
  lemma StoppedComesToRest(w: Locks.Whole)
    requires Locks.ReachableWhole(w) && Locks.Stuck(w) && !OwesReport(w.base) && w.base.c.stopped != ""
    ensures var s := w.base;
            AllEnded(s) && s.cont == None && |s.attempts| > 0
            && Failed(s.c.stopped) in Heard(s.log, |s.attempts| - 1)
  {
    var s := w.base;
    Locks.ReachableRight(w);
    Locks.NoOneIsBusy(w);
    ReachableInv(s);
    ReachableSetUp(s);
    OnlyTheLast(s);
    IdleAttempts(s);
    ReasonIsTold(s);
  }
}
