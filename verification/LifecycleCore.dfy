/** Each step keeps the core of the invariant: locks, program counters, attempts and fields. */
module LifecycleCore {
  import opened Options
  import opened Lifecycle
  import opened LifecycleInvariant

  lemma OnlyTheLast(s: State)
    requires Attempts(s)
    ensures forall k :: 0 <= k < |s.attempts| && !s.attempts[k].stage.Ended? ==> k + 1 == |s.attempts|
  {
    forall k | 0 <= k < |s.attempts| && !s.attempts[k].stage.Ended? ensures k + 1 == |s.attempts| {
      assert AttemptOk(s, k);
    }
  }

  /** A thread that may start the next attempt exists only once the last one has ended or armed it. */
  lemma ContinuationWaits(s: State)
    requires Locals(s) && Continues(s)
    ensures s.cont.Some? ==> AllEnded(s) || (|s.attempts| > 0 && Scheduled(s, |s.attempts| - 1))
  {
    if s.cont.Some? {
      assert Local(s, s.cont.value);
    }
  }

  /** What a step of thread i leaves alone of an attempt, seen from the other threads. */
  ghost predicate Keeps(a: Attempt, b: Attempt, i: nat) {
    && b.runner == a.runner
    && (a.dialed ==> b.dialed)
    && (a.stage.Live? && !a.dialed && a.runner != i ==> b == a)
    && (!a.sock.NoSocket? ==> !b.sock.NoSocket?)
    && (a.runner != i ==> b.joins == a.joins)
    && (a.stage.Ending? && a.stage.ender != i ==> b.stage == a.stage)
    && (a.stage.Ending? && a.stage.scheduled ==> b.stage.Ended? || (b.stage.Ending? && b.stage.scheduled))
    && (a.stage.Ended? ==> b.stage.Ended?)
    && (b.stage.Live? ==> a.stage.Live?)
  }

  ghost predicate KeepsAttempts(s: State, t: State, i: nat) {
    && |s.attempts| <= |t.attempts|
    && (|t.attempts| != |s.attempts| ==> s.cont == Some(i) && !s.c.quitting)
    && (forall k :: 0 <= k < |s.attempts| ==> Keeps(s.attempts[k], t.attempts[k], i))
  }

  ghost predicate KeepsThreads(s: State, t: State, i: nat) {
    && |s.threads| <= |t.threads|
    && (forall j :: 0 <= j < |s.threads| && j != i ==> t.threads[j] == s.threads[j] || t.threads[j] == Finished)
    && (t.cont == s.cont || s.cont == None || s.cont == Some(i)
        || (IsThread(s, s.cont.value) && t.threads[s.cont.value] == Finished))
  }

  /** Thread i takes a lock only when it is free, and leaves only its own. */
  ghost predicate KeepsLocks(s: State, t: State, i: nat) {
    && (t.lock != s.lock ==> (s.lock == None || s.lock == Some(i)) && (t.lock == None || t.lock == Some(i)))
    && (t.statusMu != s.statusMu ==> (s.statusMu == None || s.statusMu == Some(i)) && (t.statusMu == None || t.statusMu == Some(i)))
  }

  /** No other thread is running the current attempt's dial hook. */
  ghost predicate NoOtherHook(s: State, i: nat) {
    |s.attempts| > 0 ==>
      var a := s.attempts[|s.attempts| - 1]; a.stage.Live? && !a.dialed ==> a.runner == i
  }

  ghost predicate KeepsFields(s: State, t: State, i: nat) {
    && (s.c.quitting ==> t.c.quitting)
    && (Reason(t.c) == Reason(s.c) || s.c.conn.Some? || AllEnded(s))
    && (!s.c.connected && t.c.connected ==> s.c.conn.Some?)
    && (t.c.attemptDone == s.c.attemptDone || !s.c.quitting)
    && (t.c.Current() == s.c.Current() || s.statusMu == Some(i))
    && (t.c.quitting == s.c.quitting || s.statusMu == Some(i))
    && (t.c.socket == s.c.socket || NoOtherHook(s, i))
    && (t.sender == s.sender || t.sender == None
        || (IsAttempt(s, t.sender.value) && !s.attempts[t.sender.value].dialed))
    && (t.sender == s.sender || NoOtherHook(s, i))
    && (s.c.quitting ==> t.c.socket == s.c.socket || t.c.socket == None)
    && (s.c.quitting && t.c.socket.Some? && Attached(t, t.c.socket.value) ==> Attached(s, t.c.socket.value))
  }

  ghost predicate Rely(s: State, t: State, i: nat) {
    KeepsThreads(s, t, i) && KeepsLocks(s, t, i) && KeepsAttempts(s, t, i) && KeepsFields(s, t, i)
  }

  lemma OthersConnect(s: State, t: State, i: nat, j: nat)
    requires Core(s) && Rely(s, t, i) && IsThread(s, j) && j != i
    requires LocalConnect(s, j, s.threads[j]) && t.threads[j] == s.threads[j]
    requires HoldsMu(s.threads[j]) ==> s.statusMu == Some(j)
    ensures LocalConnect(t, j, s.threads[j])
  {
    OnlyTheLast(s);
  }

  lemma OthersEnd(s: State, t: State, i: nat, j: nat)
    requires Core(s) && Rely(s, t, i) && IsThread(s, j) && j != i
    requires LocalEnd(s, j, s.threads[j])
    ensures LocalEnd(t, j, s.threads[j])
  {
    OnlyTheLast(s);
  }

  lemma OthersPublish(s: State, t: State, i: nat, j: nat, status: Status, p: Purpose)
    requires Core(s) && Rely(s, t, i) && IsThread(s, j) && j != i
    requires LocalPublish(s, j, status, p) && s.statusMu == Some(j)
    ensures LocalPublish(t, j, status, p)
  {
    OnlyTheLast(s);
  }

  lemma OthersDestroy(s: State, t: State, i: nat, j: nat)
    requires Core(s) && Rely(s, t, i) && IsThread(s, j) && j != i
    requires LocalDestroy(s, j, s.threads[j])
    ensures LocalDestroy(t, j, s.threads[j])
  {
    OnlyTheLast(s);
  }

  lemma Others(s: State, t: State, i: nat)
    requires Core(s) && Rely(s, t, i)
    ensures forall j :: 0 <= j < |s.threads| && j != i ==> Local(t, j)
  {
    forall j | 0 <= j < |s.threads| && j != i ensures Local(t, j) {
      assert Local(s, j);
      var pc := s.threads[j];
      if t.threads[j] == pc {
        OthersConnect(s, t, i, j);
        OthersEnd(s, t, i, j);
        if pc.Publish? { OthersPublish(s, t, i, j, pc.status, pc.purpose); }
        OthersDestroy(s, t, i, j);
      }
    }
  }

  /** What is left to show of a step once the other threads are known to be undisturbed. */
  lemma Assemble(s: State, t: State, i: nat)
    requires Core(s) && IsThread(s, i) && Rely(s, t, i)
    requires Local(t, i) && (forall j :: |s.threads| <= j < |t.threads| ==> Local(t, j))
    requires Attempts(t) && Fields(t) && Locks(t) && Continues(t)
    ensures Core(t)
  {
    Others(s, t, i);
  }

  // ----- the steps -----

  lemma TakeLockAttempts(s: State, i: nat)
    requires Core(s) && IsThread(s, i) && WantsLock(s.threads[i]) && s.lock == None
    ensures Attempts(TakeLock(s, i))
  {
    assert Local(s, i);
    OnlyTheLast(s);
    var t := TakeLock(s, i);
    forall m | 0 <= m < |t.attempts| ensures AttemptOk(t, m) { assert AttemptOk(s, m); }
  }

  lemma TakeLockLocal(s: State, i: nat)
    requires Core(s) && IsThread(s, i) && WantsLock(s.threads[i]) && s.lock == None
    ensures Local(TakeLock(s, i), i)
  {
    assert Local(s, i);
  }

  lemma TakeLockCore(s: State, i: nat)
    requires Core(s) && IsThread(s, i) && WantsLock(s.threads[i]) && s.lock == None
    ensures Core(TakeLock(s, i))
  {
    TakeLockLocal(s, i);
    TakeLockAttempts(s, i);
    Assemble(s, TakeLock(s, i), i);
  }

  lemma TakeMuAttempts(s: State, i: nat)
    requires Core(s) && IsThread(s, i) && WantsMu(s.threads[i]) && s.statusMu == None
    ensures Attempts(TakeMu(s, i))
  {
    assert Local(s, i);
    OnlyTheLast(s);
    var t := TakeMu(s, i);
    forall m | 0 <= m < |t.attempts| ensures AttemptOk(t, m) { assert AttemptOk(s, m); }
  }

  lemma TakeMuLocal(s: State, i: nat)
    requires Core(s) && IsThread(s, i) && WantsMu(s.threads[i]) && s.statusMu == None
    ensures Local(TakeMu(s, i), i)
  {
    assert Local(s, i);
  }

  lemma TakeMuCore(s: State, i: nat)
    requires Core(s) && IsThread(s, i) && WantsMu(s.threads[i]) && s.statusMu == None
    ensures Core(TakeMu(s, i))
  {
    TakeMuLocal(s, i);
    TakeMuAttempts(s, i);
    Assemble(s, TakeMu(s, i), i);
  }

  lemma ConnectBodyAttempts(s: State, i: nat)
    requires Core(s) && IsThread(s, i) && s.threads[i] == ConnectCs(true)
    ensures Attempts(ConnectBody(s, i))
  {
    assert Local(s, i);
    OnlyTheLast(s);
    var t := ConnectBody(s, i);
    forall m | 0 <= m < |t.attempts| ensures AttemptOk(t, m) { if m < |s.attempts| { assert AttemptOk(s, m); } }
  }

  lemma ConnectBodyCore(s: State, i: nat)
    requires Core(s) && IsThread(s, i) && s.threads[i] == ConnectCs(true)
    ensures Core(ConnectBody(s, i))
  {
    assert Local(s, i);
    OnlyTheLast(s);
    ConnectBodyAttempts(s, i);
    Assemble(s, ConnectBody(s, i), i);
  }

  lemma DialUpAttempts(s: State, i: nat)
    requires Core(s) && IsThread(s, i) && Enabled(s, DialUp(i))
    ensures Attempts(Apply(s, DialUp(i)))
  {
    assert Local(s, i);
    OnlyTheLast(s);
    var t := Apply(s, DialUp(i));
    forall m | 0 <= m < |t.attempts| ensures AttemptOk(t, m) { assert AttemptOk(s, m); }
  }

  lemma DialUpCore(s: State, i: nat)
    requires Core(s) && IsThread(s, i) && Enabled(s, DialUp(i))
    ensures Core(Apply(s, DialUp(i)))
  {
    assert Local(s, i);
    OnlyTheLast(s);
    DialUpAttempts(s, i);
    Assemble(s, Apply(s, DialUp(i)), i);
  }

  lemma DialFailAttempts(s: State, i: nat, text: string)
    requires Core(s) && IsThread(s, i) && Enabled(s, DialFail(i, text))
    ensures Attempts(Apply(s, DialFail(i, text)))
  {
    assert Local(s, i);
    OnlyTheLast(s);
    var t := Apply(s, DialFail(i, text));
    forall m | 0 <= m < |t.attempts| ensures AttemptOk(t, m) { assert AttemptOk(s, m); }
  }

  lemma DialFailCore(s: State, i: nat, text: string)
    requires Core(s) && IsThread(s, i) && Enabled(s, DialFail(i, text))
    ensures Core(Apply(s, DialFail(i, text)))
  {
    assert Local(s, i);
    OnlyTheLast(s);
    DialFailAttempts(s, i, text);
    Assemble(s, Apply(s, DialFail(i, text)), i);
  }

  lemma HookBodyAttempts(s: State, i: nat, k: nat)
    requires Core(s) && IsThread(s, i) && s.threads[i] == HookCs(k, true)
    ensures Attempts(HookBody(s, i, k))
  {
    assert Local(s, i);
    OnlyTheLast(s);
    var t := HookBody(s, i, k);
    forall m | 0 <= m < |t.attempts| ensures AttemptOk(t, m) { assert AttemptOk(s, m); }
  }

  lemma HookBodyCore(s: State, i: nat, k: nat)
    requires Core(s) && IsThread(s, i) && s.threads[i] == HookCs(k, true)
    ensures Core(HookBody(s, i, k))
  {
    assert Local(s, i);
    OnlyTheLast(s);
    HookBodyAttempts(s, i, k);
    Assemble(s, HookBody(s, i, k), i);
  }

  lemma HookRefusalAttempts(s: State, i: nat, k: nat)
    requires Core(s) && IsThread(s, i) && s.threads[i] == HookRefuse(k)
    ensures IsAttempt(s, k) && Attempts(HookRefusal(s, i, k))
  {
    assert Local(s, i);
    OnlyTheLast(s);
    var t := HookRefusal(s, i, k);
    forall m | 0 <= m < |t.attempts| ensures AttemptOk(t, m) { assert AttemptOk(s, m); }
  }

  lemma HookRefusalCore(s: State, i: nat, k: nat)
    requires Core(s) && IsThread(s, i) && s.threads[i] == HookRefuse(k)
    ensures IsAttempt(s, k) && Core(HookRefusal(s, i, k))
  {
    assert Local(s, i);
    OnlyTheLast(s);
    HookRefusalAttempts(s, i, k);
    Assemble(s, HookRefusal(s, i, k), i);
  }

  lemma HookStoreAttempts(s: State, i: nat, k: nat, status: Status)
    requires Core(s) && IsThread(s, i) && s.threads[i] == HookStore(k, status)
    ensures Attempts(Goto(s.(sender := Some(k)), i, Publish(status, Up(k))))
  {
    assert Local(s, i);
    OnlyTheLast(s);
    var t := Goto(s.(sender := Some(k)), i, Publish(status, Up(k)));
    forall m | 0 <= m < |t.attempts| ensures AttemptOk(t, m) { assert AttemptOk(s, m); }
  }

  lemma HookStoreCore(s: State, i: nat, k: nat, status: Status)
    requires Core(s) && IsThread(s, i) && s.threads[i] == HookStore(k, status)
    ensures Core(Goto(s.(sender := Some(k)), i, Publish(status, Up(k))))
  {
    assert Local(s, i);
    OnlyTheLast(s);
    HookStoreAttempts(s, i, k, status);
    Assemble(s, Goto(s.(sender := Some(k)), i, Publish(status, Up(k))), i);
  }

  lemma SetupBodyAttempts(s: State, i: nat, k: nat)
    requires Core(s) && IsThread(s, i) && s.threads[i] == SetupCs(k, true)
    ensures IsAttempt(s, k) && Attempts(SetupBody(s, i, k))
  {
    assert Local(s, i);
    OnlyTheLast(s);
    var t := SetupBody(s, i, k);
    forall m | 0 <= m < |t.attempts| ensures AttemptOk(t, m) { assert AttemptOk(s, m); }
  }

  lemma SetupBodyRely(s: State, i: nat, k: nat)
    requires Core(s) && IsThread(s, i) && s.threads[i] == SetupCs(k, true)
    ensures IsAttempt(s, k) && Rely(s, SetupBody(s, i, k), i)
  {
    assert Local(s, i);
    OnlyTheLast(s);
  }

  lemma SetupBodyCore(s: State, i: nat, k: nat)
    requires Core(s) && IsThread(s, i) && s.threads[i] == SetupCs(k, true)
    ensures IsAttempt(s, k) && Core(SetupBody(s, i, k))
  {
    assert Local(s, i);
    SetupBodyRely(s, i, k);
    SetupBodyAttempts(s, i, k);
    Assemble(s, SetupBody(s, i, k), i);
  }

  lemma SwapOutAttempts(s: State, i: nat, k: nat, text: string)
    requires Core(s) && IsThread(s, i) && s.threads[i] == EndSwap(k, text)
    ensures Attempts(SwapOut(s, i, k, text))
  {
    assert Local(s, i);
    OnlyTheLast(s);
    var t := SwapOut(s, i, k, text);
    forall m | 0 <= m < |t.attempts| ensures AttemptOk(t, m) { assert AttemptOk(s, m); }
  }

  lemma SwapOutCore(s: State, i: nat, k: nat, text: string)
    requires Core(s) && IsThread(s, i) && s.threads[i] == EndSwap(k, text)
    ensures Core(SwapOut(s, i, k, text))
  {
    assert Local(s, i);
    OnlyTheLast(s);
    SwapOutAttempts(s, i, k, text);
    Assemble(s, SwapOut(s, i, k, text), i);
  }

  lemma DetachBodyAttempt(s: State, i: nat, k: nat, text: string, m: nat)
    requires IsThread(s, i) && s.threads[i] == DetachCs(k, text, true) && IsAttempt(s, k) && s.attempts[k].dialed
    requires IsAttempt(s, m) && AttemptOk(s, m) && (s.c.conn == Some(k) <==> s.attempts[k].stage.Live?)
    requires s.c.conn == Some(k) ==> k + 1 == |s.attempts|
    ensures AttemptOk(DetachBody(s, i, k, text), m)
  {}

  lemma DetachBodyAttempts(s: State, i: nat, k: nat, text: string)
    requires Core(s) && IsThread(s, i) && s.threads[i] == DetachCs(k, text, true)
    ensures IsAttempt(s, k) && Attempts(DetachBody(s, i, k, text))
  {
    assert Local(s, i);
    var t := DetachBody(s, i, k, text);
    forall m | 0 <= m < |t.attempts| ensures AttemptOk(t, m) {
      assert AttemptOk(s, m) && AttemptOk(s, k);
      DetachBodyAttempt(s, i, k, text, m);
    }
  }

  lemma DetachBodyRely(s: State, i: nat, k: nat, text: string)
    requires Core(s) && IsThread(s, i) && s.threads[i] == DetachCs(k, text, true)
    ensures IsAttempt(s, k) && Rely(s, DetachBody(s, i, k, text), i)
  {
    assert Local(s, i);
    OnlyTheLast(s);
  }

  lemma DetachBodyFields(s: State, i: nat, k: nat, text: string)
    requires Core(s) && IsThread(s, i) && s.threads[i] == DetachCs(k, text, true)
    ensures IsAttempt(s, k) && Fields(DetachBody(s, i, k, text)) && Locks(DetachBody(s, i, k, text))
  {
    assert Local(s, i);
    OnlyTheLast(s);
  }

  lemma DetachBodyContinues(s: State, i: nat, k: nat, text: string)
    requires Core(s) && IsThread(s, i) && s.threads[i] == DetachCs(k, text, true)
    ensures IsAttempt(s, k) && Continues(DetachBody(s, i, k, text))
  {
    assert Local(s, i);
    ContinuationWaits(s);
  }

  lemma DetachBodyLocal(s: State, i: nat, k: nat, text: string)
    requires Core(s) && IsThread(s, i) && s.threads[i] == DetachCs(k, text, true)
    ensures IsAttempt(s, k) && Local(DetachBody(s, i, k, text), i)
  {
    assert Local(s, i);
    OnlyTheLast(s);
  }

  lemma DetachBodyCore(s: State, i: nat, k: nat, text: string)
    requires Core(s) && IsThread(s, i) && s.threads[i] == DetachCs(k, text, true)
    ensures IsAttempt(s, k) && Core(DetachBody(s, i, k, text))
  {
    DetachBodyRely(s, i, k, text);
    DetachBodyFields(s, i, k, text);
    DetachBodyContinues(s, i, k, text);
    DetachBodyLocal(s, i, k, text);
    DetachBodyAttempts(s, i, k, text);
    Assemble(s, DetachBody(s, i, k, text), i);
  }

  lemma ShutAttempts(s: State, i: nat, k: nat, text: string, sock: Option<nat>)
    requires Core(s) && IsThread(s, i) && s.threads[i] == Shut(k, text, sock)
    ensures Attempts(Goto(CloseSocket(s, sock), i, FailMu(k, text)))
  {
    assert Local(s, i);
    OnlyTheLast(s);
    var t := Goto(CloseSocket(s, sock), i, FailMu(k, text));
    forall m | 0 <= m < |t.attempts| ensures AttemptOk(t, m) { assert AttemptOk(s, m); }
  }

  lemma ShutCore(s: State, i: nat, k: nat, text: string, sock: Option<nat>)
    requires Core(s) && IsThread(s, i) && s.threads[i] == Shut(k, text, sock)
    ensures Core(Goto(CloseSocket(s, sock), i, FailMu(k, text)))
  {
    assert Local(s, i);
    OnlyTheLast(s);
    ShutAttempts(s, i, k, text, sock);
    Assemble(s, Goto(CloseSocket(s, sock), i, FailMu(k, text)), i);
  }

  lemma FailBodyAttempts(s: State, i: nat, k: nat, text: string)
    requires Core(s) && IsThread(s, i) && s.threads[i] == FailCs(k, text, true)
    ensures Attempts(FailBody(s, i, k, text))
  {
    assert Local(s, i);
    OnlyTheLast(s);
    var t := FailBody(s, i, k, text);
    forall m | 0 <= m < |t.attempts| ensures AttemptOk(t, m) { assert AttemptOk(s, m); }
  }

  lemma FailBodyCore(s: State, i: nat, k: nat, text: string)
    requires Core(s) && IsThread(s, i) && s.threads[i] == FailCs(k, text, true)
    ensures Core(FailBody(s, i, k, text))
  {
    assert Local(s, i);
    OnlyTheLast(s);
    FailBodyAttempts(s, i, k, text);
    Assemble(s, FailBody(s, i, k, text), i);
  }

  lemma DecideBodyAttempts(s: State, i: nat, k: nat)
    requires Core(s) && IsThread(s, i) && s.threads[i] == DecideCs(k, true)
    ensures IsAttempt(s, k) && Attempts(DecideBody(s, i, k))
  {
    assert Local(s, i);
    OnlyTheLast(s);
    var t := DecideBody(s, i, k);
    forall m | 0 <= m < |t.attempts| ensures AttemptOk(t, m) { assert AttemptOk(s, m); }
  }

  lemma DecideBodyRely(s: State, i: nat, k: nat)
    requires Core(s) && IsThread(s, i) && s.threads[i] == DecideCs(k, true)
    ensures IsAttempt(s, k) && Rely(s, DecideBody(s, i, k), i)
  {
    assert Local(s, i);
    OnlyTheLast(s);
    ContinuationWaits(s);
  }

  lemma DecideBodyFields(s: State, i: nat, k: nat)
    requires Core(s) && IsThread(s, i) && s.threads[i] == DecideCs(k, true)
    ensures IsAttempt(s, k) && Fields(DecideBody(s, i, k)) && Locks(DecideBody(s, i, k)) && Continues(DecideBody(s, i, k))
  {
    assert Local(s, i);
    OnlyTheLast(s);
    ContinuationWaits(s);
  }

  lemma DecideBodyLocal(s: State, i: nat, k: nat)
    requires Core(s) && IsThread(s, i) && s.threads[i] == DecideCs(k, true)
    ensures IsAttempt(s, k) && Local(DecideBody(s, i, k), i)
    ensures !Final(s.c) ==> Local(DecideBody(s, i, k), |s.threads|)
  {
    assert Local(s, i);
    OnlyTheLast(s);
  }

  lemma DecideBodyCore(s: State, i: nat, k: nat)
    requires Core(s) && IsThread(s, i) && s.threads[i] == DecideCs(k, true)
    ensures IsAttempt(s, k) && Core(DecideBody(s, i, k))
  {
    DecideBodyRely(s, i, k);
    DecideBodyFields(s, i, k);
    DecideBodyLocal(s, i, k);
    DecideBodyAttempts(s, i, k);
    Assemble(s, DecideBody(s, i, k), i);
  }

  lemma CloseBodyAttempts(s: State, i: nat, k: nat)
    requires Core(s) && IsThread(s, i) && s.threads[i] == CloseDone(k)
    ensures IsAttempt(s, k) && Attempts(CloseBody(s, i, k))
  {
    assert Local(s, i);
    OnlyTheLast(s);
    var t := CloseBody(s, i, k);
    forall m | 0 <= m < |t.attempts| ensures AttemptOk(t, m) { assert AttemptOk(s, m); }
  }

  lemma CloseBodyCore(s: State, i: nat, k: nat)
    requires Core(s) && IsThread(s, i) && s.threads[i] == CloseDone(k)
    ensures IsAttempt(s, k) && Core(CloseBody(s, i, k))
  {
    assert Local(s, i);
    OnlyTheLast(s);
    CloseBodyAttempts(s, i, k);
    Assemble(s, CloseBody(s, i, k), i);
  }

  lemma PublishUpAttempts(s: State, i: nat, status: Status, k: nat)
    requires Core(s) && IsThread(s, i) && s.threads[i] == Publish(status, Up(k))
    ensures IsAttempt(s, k) && Attempts(PublishBody(s, i, status, Up(k)))
  {
    assert Local(s, i);
    OnlyTheLast(s);
    var t := PublishBody(s, i, status, Up(k));
    forall m | 0 <= m < |t.attempts| ensures AttemptOk(t, m) { assert AttemptOk(s, m); }
  }

  lemma PublishUpCore(s: State, i: nat, status: Status, k: nat)
    requires Core(s) && IsThread(s, i) && s.threads[i] == Publish(status, Up(k))
    ensures IsAttempt(s, k) && Core(PublishBody(s, i, status, Up(k)))
  {
    assert Local(s, i);
    OnlyTheLast(s);
    PublishUpAttempts(s, i, status, k);
    Assemble(s, PublishBody(s, i, status, Up(k)), i);
  }

  lemma PublishRestAttempts(s: State, i: nat, status: Status, p: Purpose)
    requires Core(s) && IsThread(s, i) && s.threads[i] == Publish(status, p) && !p.Up?
    ensures Attempts(PublishBody(s, i, status, p))
  {
    assert Local(s, i);
    OnlyTheLast(s);
    var t := PublishBody(s, i, status, p);
    forall m | 0 <= m < |t.attempts| ensures AttemptOk(t, m) { assert AttemptOk(s, m); }
  }

  lemma PublishDownCore(s: State, i: nat, status: Status, k: nat)
    requires Core(s) && IsThread(s, i) && s.threads[i] == Publish(status, Down(k))
    ensures Core(PublishBody(s, i, status, Down(k)))
  {
    assert Local(s, i);
    OnlyTheLast(s);
    PublishRestAttempts(s, i, status, Down(k));
    Assemble(s, PublishBody(s, i, status, Down(k)), i);
  }

  lemma PublishRetryCore(s: State, i: nat, status: Status, k: nat)
    requires Core(s) && IsThread(s, i) && s.threads[i] == Publish(status, Retry(k))
    ensures Core(PublishBody(s, i, status, Retry(k)))
  {
    assert Local(s, i);
    OnlyTheLast(s);
    PublishRestAttempts(s, i, status, Retry(k));
    Assemble(s, PublishBody(s, i, status, Retry(k)), i);
  }

  lemma PublishByeCore(s: State, i: nat, status: Status, done: Option<nat>)
    requires Core(s) && IsThread(s, i) && s.threads[i] == Publish(status, Bye(done))
    ensures Core(PublishBody(s, i, status, Bye(done)))
  {
    assert Local(s, i);
    OnlyTheLast(s);
    PublishRestAttempts(s, i, status, Bye(done));
    Assemble(s, PublishBody(s, i, status, Bye(done)), i);
  }

  lemma HandlerBodyAttempts(s: State, i: nat, k: nat, h: Handler)
    requires Core(s) && IsThread(s, i) && s.threads[i] == HandlerCs(k, h, true)
    ensures Attempts(HandlerBody(s, i, k, h))
  {
    assert Local(s, i);
    OnlyTheLast(s);
    var t := HandlerBody(s, i, k, h);
    forall m | 0 <= m < |t.attempts| ensures AttemptOk(t, m) { assert AttemptOk(s, m); }
  }

  lemma HandlerBodyRely(s: State, i: nat, k: nat, h: Handler)
    requires Core(s) && IsThread(s, i) && s.threads[i] == HandlerCs(k, h, true)
    ensures Rely(s, HandlerBody(s, i, k, h), i)
  {
    assert Local(s, i);
    OnlyTheLast(s);
  }

  lemma HandlerBodyFields(s: State, i: nat, k: nat, h: Handler)
    requires Core(s) && IsThread(s, i) && s.threads[i] == HandlerCs(k, h, true)
    ensures Fields(HandlerBody(s, i, k, h)) && Locks(HandlerBody(s, i, k, h))
  {
    assert Local(s, i);
    OnlyTheLast(s);
  }

  lemma HandlerBodyContinues(s: State, i: nat, k: nat, h: Handler)
    requires Core(s) && IsThread(s, i) && s.threads[i] == HandlerCs(k, h, true)
    ensures Continues(HandlerBody(s, i, k, h))
  {
    assert Local(s, i);
    OnlyTheLast(s);
    ContinuationWaits(s);
  }

  lemma HandlerBodyLocal(s: State, i: nat, k: nat, h: Handler)
    requires Core(s) && IsThread(s, i) && s.threads[i] == HandlerCs(k, h, true)
    ensures Local(HandlerBody(s, i, k, h), i)
  {
    assert Local(s, i);
    OnlyTheLast(s);
  }

  lemma HandlerBodyCore(s: State, i: nat, k: nat, h: Handler)
    requires Core(s) && IsThread(s, i) && s.threads[i] == HandlerCs(k, h, true)
    ensures Core(HandlerBody(s, i, k, h))
  {
    HandlerBodyRely(s, i, k, h);
    HandlerBodyFields(s, i, k, h);
    HandlerBodyContinues(s, i, k, h);
    HandlerBodyLocal(s, i, k, h);
    HandlerBodyAttempts(s, i, k, h);
    Assemble(s, HandlerBody(s, i, k, h), i);
  }

  ghost function Disarm(s: State): State
    requires TimerArmed(s)
  {
    Goto(s, s.c.timer.value, Finished).(cont := None)
  }

  lemma DisarmCore(s: State)
    requires Core(s) && TimerArmed(s)
    ensures Core(Disarm(s))
  {
    var i, t := s.c.timer.value, Disarm(s);
    assert Local(s, i);
    forall m | 0 <= m < |t.attempts| ensures AttemptOk(t, m) { assert AttemptOk(s, m); }
    assert Local(t, i);
    Assemble(s, t, i);
  }

  lemma QuitDisarmedCore(s: State, i: nat)
    requires Core(s) && IsThread(s, i) && s.threads[i] == QuitCs(true) && !TimerArmed(s)
    ensures Core(QuitBody(s, i))
  {
    assert Local(s, i);
    var t := QuitBody(s, i);
    forall m | 0 <= m < |t.attempts| ensures AttemptOk(t, m) { assert AttemptOk(s, m); }
    assert Local(t, i);
    Assemble(s, t, i);
  }

  lemma QuitBodyCore(s: State, i: nat)
    requires Core(s) && IsThread(s, i) && s.threads[i] == QuitCs(true)
    ensures Core(QuitBody(s, i))
  {
    if TimerArmed(s) {
      DisarmCore(s);
      var s1 := Disarm(s);
      QuitDisarmedCore(s1, i);
      assert QuitBody(s, i) == QuitBody(s1, i);
    } else {
      QuitDisarmedCore(s, i);
    }
  }

  lemma GraceBodyAttempts(s: State, i: nat, k: nat)
    requires Core(s) && IsThread(s, i) && s.threads[i] == GraceCs(k, true)
    ensures Attempts(Goto(s.(lock := None), i, CloseSock(k, s.c.socket)))
  {
    assert Local(s, i);
    OnlyTheLast(s);
    var t := Goto(s.(lock := None), i, CloseSock(k, s.c.socket));
    forall m | 0 <= m < |t.attempts| ensures AttemptOk(t, m) { assert AttemptOk(s, m); }
  }

  lemma GraceBodyCore(s: State, i: nat, k: nat)
    requires Core(s) && IsThread(s, i) && s.threads[i] == GraceCs(k, true)
    ensures Core(Goto(s.(lock := None), i, CloseSock(k, s.c.socket)))
  {
    assert Local(s, i);
    OnlyTheLast(s);
    if s.c.socket == Some(k) {
      assert AttemptOk(s, k);
      assert Local(s, s.attempts[k].runner);
    }
    GraceBodyAttempts(s, i, k);
    Assemble(s, Goto(s.(lock := None), i, CloseSock(k, s.c.socket)), i);
  }

  lemma CloseSockAttempts(s: State, i: nat, k: nat, sock: Option<nat>)
    requires Core(s) && IsThread(s, i) && s.threads[i] == CloseSock(k, sock)
    ensures Attempts(Goto(CloseSocket(s, sock), i, Waiting(Some(k), false)))
  {
    assert Local(s, i);
    OnlyTheLast(s);
    var t := Goto(CloseSocket(s, sock), i, Waiting(Some(k), false));
    forall m | 0 <= m < |t.attempts| ensures AttemptOk(t, m) { assert AttemptOk(s, m); }
  }

  lemma CloseSockRely(s: State, i: nat, k: nat, sock: Option<nat>)
    requires Core(s) && IsThread(s, i) && s.threads[i] == CloseSock(k, sock)
    ensures Rely(s, Goto(CloseSocket(s, sock), i, Waiting(Some(k), false)), i)
  {
    assert Local(s, i);
    OnlyTheLast(s);
  }

  lemma CloseSockCore(s: State, i: nat, k: nat, sock: Option<nat>)
    requires Core(s) && IsThread(s, i) && s.threads[i] == CloseSock(k, sock)
    ensures Core(Goto(CloseSocket(s, sock), i, Waiting(Some(k), false)))
  {
    assert Local(s, i);
    OnlyTheLast(s);
    CloseSockRely(s, i, k, sock);
    CloseSockAttempts(s, i, k, sock);
    Assemble(s, Goto(CloseSocket(s, sock), i, Waiting(Some(k), false)), i);
  }

  lemma SwapAttempts(s: State, i: nat)
    requires Core(s) && IsThread(s, i) && s.threads[i] == Swap
    ensures Attempts(Goto(s.(sender := None), i, Returned))
  {
    assert Local(s, i);
    OnlyTheLast(s);
    var t := Goto(s.(sender := None), i, Returned);
    forall m | 0 <= m < |t.attempts| ensures AttemptOk(t, m) { assert AttemptOk(s, m); }
  }

  lemma SwapCore(s: State, i: nat)
    requires Core(s) && IsThread(s, i) && s.threads[i] == Swap
    ensures Core(Goto(s.(sender := None), i, Returned))
  {
    assert Local(s, i);
    OnlyTheLast(s);
    SwapAttempts(s, i);
    Assemble(s, Goto(s.(sender := None), i, Returned), i);
  }

  lemma ConnectedAttempts(s: State, i: nat)
    requires Core(s) && IsThread(s, i) && Enabled(s, ConnectOk(i))
    ensures Attempts(Apply(s, ConnectOk(i)))
  {
    assert Local(s, i);
    OnlyTheLast(s);
    var t := Apply(s, ConnectOk(i));
    forall m | 0 <= m < |t.attempts| ensures AttemptOk(t, m) { assert AttemptOk(s, m); }
  }

  lemma ConnectedCore(s: State, i: nat)
    requires Core(s) && IsThread(s, i) && Enabled(s, ConnectOk(i))
    ensures Core(Apply(s, ConnectOk(i)))
  {
    assert Local(s, i);
    OnlyTheLast(s);
    ConnectedAttempts(s, i);
    Assemble(s, Apply(s, ConnectOk(i)), i);
  }

  lemma ConnectErrAttempts(s: State, i: nat, text: string)
    requires Core(s) && IsThread(s, i) && Enabled(s, ConnectErr(i, text))
    ensures Attempts(Apply(s, ConnectErr(i, text)))
  {
    assert Local(s, i);
    OnlyTheLast(s);
    var t := Apply(s, ConnectErr(i, text));
    forall m | 0 <= m < |t.attempts| ensures AttemptOk(t, m) { assert AttemptOk(s, m); }
  }

  lemma ConnectErrCore(s: State, i: nat, text: string)
    requires Core(s) && IsThread(s, i) && Enabled(s, ConnectErr(i, text))
    ensures Core(Apply(s, ConnectErr(i, text)))
  {
    assert Local(s, i);
    OnlyTheLast(s);
    ConnectErrAttempts(s, i, text);
    Assemble(s, Apply(s, ConnectErr(i, text)), i);
  }

  lemma GracePassesAttempts(s: State, i: nat)
    requires Core(s) && IsThread(s, i) && Enabled(s, GracePasses(i))
    ensures Attempts(Apply(s, GracePasses(i)))
  {
    assert Local(s, i);
    OnlyTheLast(s);
    var t := Apply(s, GracePasses(i));
    forall m | 0 <= m < |t.attempts| ensures AttemptOk(t, m) { assert AttemptOk(s, m); }
  }

  lemma GracePassesCore(s: State, i: nat)
    requires Core(s) && IsThread(s, i) && Enabled(s, GracePasses(i))
    ensures Core(Apply(s, GracePasses(i)))
  {
    assert Local(s, i);
    OnlyTheLast(s);
    GracePassesAttempts(s, i);
    Assemble(s, Apply(s, GracePasses(i)), i);
  }

  lemma DoneMeansEnded(s: State)
    requires Core(s) && DoneClosed(s, s.c.attemptDone)
    ensures AllEnded(s)
  {
    forall m | 0 <= m < |s.attempts| ensures s.attempts[m].stage.Ended? { assert AttemptOk(s, m); }
  }

  lemma FireCore(s: State, i: nat, k: nat, due: nat)
    requires Core(s) && IsThread(s, i) && s.threads[i] == Armed(k, due)
    ensures Core(Goto(s, i, AwaitDone(k)))
  {
    assert Local(s, i);
    var t := Goto(s, i, AwaitDone(k));
    forall m | 0 <= m < |t.attempts| ensures AttemptOk(t, m) { assert AttemptOk(s, m); }
    Assemble(s, t, i);
  }

  lemma AwaitDoneCore(s: State, i: nat, k: nat)
    requires Core(s) && IsThread(s, i) && s.threads[i] == AwaitDone(k) && DoneClosed(s, Some(k))
    ensures Core(Goto(s, i, ConnectCs(false)))
  {
    assert Local(s, i);
    DoneMeansEnded(s);
    var t := Goto(s, i, ConnectCs(false));
    forall m | 0 <= m < |t.attempts| ensures AttemptOk(t, m) { assert AttemptOk(s, m); }
    Assemble(s, t, i);
  }

  lemma WaitingCore(s: State, i: nat, done: Option<nat>, patient: bool)
    requires Core(s) && IsThread(s, i) && s.threads[i] == Waiting(done, patient) && DoneClosed(s, done)
    ensures Core(Goto(s, i, Swap))
  {
    assert Local(s, i);
    DoneMeansEnded(s);
    var t := Goto(s, i, Swap);
    forall m | 0 <= m < |t.attempts| ensures AttemptOk(t, m) { assert AttemptOk(s, m); }
    Assemble(s, t, i);
  }
}
