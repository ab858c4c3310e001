/** The invariant is inductive: every enabled step keeps it, so every run does. */
module LifecycleSteps {
  import opened Options
  import opened Lifecycle
  import opened LifecycleInvariant
  import opened LifecycleCore

  // ----- the core -----

  lemma SpawnCore(s: State, t: State, pc: Pc)
    requires Core(s) && t.threads == s.threads + [pc]
    requires t.c == s.c && t.sender == s.sender && t.statusMu == s.statusMu && t.lock == s.lock && t.attempts == s.attempts
    requires (t.started == s.started && t.cont == s.cont)
          || (!s.started && t.started && pc == ConnectCs(false) && t.cont == Some(|s.threads|))
    requires pc == QuitMu || pc == ConnectCs(false)
          || (exists k, text :: pc == EndSwap(k, text) && Dialed(s, k))
          || (exists k, h: Handler :: pc == HandlerCs(k, h, false) && Dialed(s, k) && (h.Stop? || h.GiveUp? ==> h.reason != ""))
    requires pc == ConnectCs(false) ==> !s.started && t.started
    ensures Core(t)
  {
    Others(s, t, |s.threads|);
    assert Local(t, |s.threads|);
    assert Locals(t);
    SpawnAttempts(s, t, pc);
    SpawnRest(s, t, pc);
  }

  lemma SpawnAttempts(s: State, t: State, pc: Pc)
    requires Attempts(s) && t.threads == s.threads + [pc] && t.attempts == s.attempts && t.c == s.c
    ensures Attempts(t)
  {
    forall m | 0 <= m < |t.attempts| ensures AttemptOk(t, m) { assert AttemptOk(s, m); }
  }

  lemma SpawnRest(s: State, t: State, pc: Pc)
    requires Fields(s) && Locks(s) && Continues(s) && t.threads == s.threads + [pc]
    requires t.c == s.c && t.sender == s.sender && t.statusMu == s.statusMu && t.lock == s.lock && t.attempts == s.attempts
    requires (t.started == s.started && t.cont == s.cont)
          || (!s.started && t.started && pc == ConnectCs(false) && t.cont == Some(|s.threads|))
    ensures Fields(t) && Locks(t) && Continues(t)
  {}

  lemma TickCore(s: State)
    requires Core(s)
    ensures Core(s.(now := s.now + 1))
  {
    var t := s.(now := s.now + 1);
    Others(s, t, |s.threads|);
    forall m | 0 <= m < |t.attempts| ensures AttemptOk(t, m) { assert AttemptOk(s, m); }
  }

  lemma AttemptIsKnown(s: State, i: nat)
    requires Core(s) && IsThread(s, i)
    ensures KnowsAttempt(s, s.threads[i])
  {
    assert Local(s, i);
  }

  lemma PublishCore(s: State, i: nat, status: Status, p: Purpose)
    requires Core(s) && IsThread(s, i) && s.threads[i] == Publish(status, p) && KnowsAttempt(s, s.threads[i])
    ensures Core(PublishBody(s, i, status, p))
  {
    match p
    case Up(k) => PublishUpCore(s, i, status, k);
    case Down(k) => PublishDownCore(s, i, status, k);
    case Retry(k) => PublishRetryCore(s, i, status, k);
    case Bye(done) => PublishByeCore(s, i, status, done);
  }

  lemma GoCore(s: State, i: nat)
    requires Core(s) && IsThread(s, i) && CanGo(s, i) && KnowsAttempt(s, s.threads[i])
    ensures Core(Go(s, i))
  {
    var pc := s.threads[i];
    if WantsLock(pc) { TakeLockCore(s, i); }
    else if WantsMu(pc) { TakeMuCore(s, i); }
    else {
      match pc
      case ConnectCs(_) => ConnectBodyCore(s, i);
      case HookCs(k, _) => HookBodyCore(s, i, k);
      case HookRefuse(k) => HookRefusalCore(s, i, k);
      case HookStore(k, status) => HookStoreCore(s, i, k, status);
      case SetupCs(k, _) => SetupBodyCore(s, i, k);
      case EndSwap(k, text) => SwapOutCore(s, i, k, text);
      case DetachCs(k, text, _) => DetachBodyCore(s, i, k, text);
      case Shut(k, text, sock) => ShutCore(s, i, k, text, sock);
      case FailCs(k, text, _) => FailBodyCore(s, i, k, text);
      case DecideCs(k, _) => DecideBodyCore(s, i, k);
      case CloseDone(k) => CloseBodyCore(s, i, k);
      case Publish(status, p) =>
        PublishCore(s, i, status, p);
      case Armed(k, due) => FireCore(s, i, k, due);
      case AwaitDone(k) => AwaitDoneCore(s, i, k);
      case HandlerCs(k, h, _) => HandlerBodyCore(s, i, k, h);
      case QuitCs(_) => QuitBodyCore(s, i);
      case Waiting(done, patient) => WaitingCore(s, i, done, patient);
      case GraceCs(k, _) => GraceBodyCore(s, i, k);
      case CloseSock(k, sock) => CloseSockCore(s, i, k, sock);
      case Swap => SwapCore(s, i);
      case _ =>
    }
  }

  lemma StepCore(s: State, step: Step)
    requires Core(s) && Enabled(s, step)
    ensures Core(Apply(s, step))
  {
    match step
    case Run(i) => GoCore(s, i);
    case DialUp(i) => DialUpCore(s, i);
    case DialFail(i, text) => DialFailCore(s, i, text);
    case ConnectOk(i) => ConnectedCore(s, i);
    case ConnectErr(i, text) => ConnectErrCore(s, i, text);
    case GracePasses(i) => GracePassesCore(s, i);
    case Report(k, text) => SpawnCore(s, Apply(s, step), EndSwap(k, text));
    case Deliver(k, h) => SpawnCore(s, Apply(s, step), HandlerCs(k, h, false));
    case Start => SpawnCore(s, Apply(s, step), ConnectCs(false));
    case Destroy => SpawnCore(s, Apply(s, step), QuitMu);
    case Tick => TickCore(s);
  }

  // ----- the published statuses -----

  /** Thread i's next step decides or publishes a status. */
  ghost predicate Talks(s: State, i: nat)
    requires IsThread(s, i)
  {
    var pc := s.threads[i];
    match pc
    case HookCs(_, entered) => entered
    case FailCs(_, _, entered) => entered
    case DecideCs(_, entered) => entered
    case QuitCs(entered) => entered
    case Publish(_, _) => true
    case _ => false
  }

  ghost predicate SpeakerOf(s: State) {
    s.statusMu.Some? && IsThread(s, s.statusMu.value) && Speaking(s.threads[s.statusMu.value])
  }

  /** Nothing that the published statuses depend on changes. */
  ghost predicate Silent(s: State, t: State) {
    t.log == s.log && t.c.Current() == s.c.Current() && t.c.quitting == s.c.quitting && SpeakerOf(t) == SpeakerOf(s)
  }

  lemma SilentStatusLog(s: State, t: State)
    requires StatusLog(s) && Silent(s, t)
    ensures StatusLog(t)
  {}

  lemma LockSilent(s: State, i: nat)
    requires Locals(s) && Locks(s) && IsThread(s, i) && CanGo(s, i) && KnowsAttempt(s, s.threads[i])
    requires WantsLock(s.threads[i]) || WantsMu(s.threads[i])
    ensures Silent(s, Go(s, i))
  {
    assert Local(s, i);
  }

  /** Whether pc is of an attempt's end or a handler. */
  ghost predicate OfEnd(pc: Pc) {
    pc.EndSwap? || pc.DetachCs? || pc.Shut? || pc.CloseDone? || pc.HandlerCs? || pc.CloseSock?
  }

  lemma DetachSilent(s: State, i: nat)
    requires Locals(s) && Locks(s) && IsThread(s, i) && CanGo(s, i) && KnowsAttempt(s, s.threads[i])
    requires s.threads[i].DetachCs? && s.threads[i].entered
    ensures Silent(s, Go(s, i))
  {
    assert Local(s, i);
  }

  lemma HandlerSilent(s: State, i: nat)
    requires Locals(s) && Locks(s) && IsThread(s, i) && CanGo(s, i) && KnowsAttempt(s, s.threads[i])
    requires s.threads[i].HandlerCs? && s.threads[i].entered
    ensures Silent(s, Go(s, i))
  {
    assert Local(s, i);
  }

  lemma EndSilent(s: State, i: nat)
    requires Locals(s) && Locks(s) && IsThread(s, i) && CanGo(s, i) && KnowsAttempt(s, s.threads[i])
    requires !InSection(s.threads[i]) && OfEnd(s.threads[i])
    ensures Silent(s, Go(s, i))
  {
    assert Local(s, i);
  }

  lemma DialSilent(s: State, i: nat)
    requires Locals(s) && Locks(s) && IsThread(s, i) && CanGo(s, i) && KnowsAttempt(s, s.threads[i])
    requires !WantsLock(s.threads[i]) && Dials(s.threads[i]) && !Talks(s, i)
    ensures Silent(s, Go(s, i))
  {
    assert Local(s, i);
  }

  lemma RestSilent(s: State, i: nat)
    requires Locals(s) && Locks(s) && IsThread(s, i) && CanGo(s, i) && KnowsAttempt(s, s.threads[i])
    requires !WantsLock(s.threads[i]) && !WantsMu(s.threads[i])
    requires !OfEnd(s.threads[i]) && !Dials(s.threads[i]) && !Talks(s, i)
    ensures Silent(s, Go(s, i))
  {
    assert Local(s, i);
  }

  lemma GoSilent(s: State, i: nat)
    requires Locals(s) && Locks(s) && IsThread(s, i) && CanGo(s, i) && KnowsAttempt(s, s.threads[i]) && !Talks(s, i)
    ensures Silent(s, Go(s, i))
  {
    var pc := s.threads[i];
    if WantsLock(pc) || WantsMu(pc) { LockSilent(s, i); }
    else if pc.DetachCs? { DetachSilent(s, i); }
    else if pc.HandlerCs? { HandlerSilent(s, i); }
    else if OfEnd(pc) { EndSilent(s, i); }
    else if Dials(pc) { DialSilent(s, i); }
    else { RestSilent(s, i); }
  }

  lemma StepSilent(s: State, step: Step)
    requires Core(s) && Enabled(s, step) && (step.Run? ==> !Talks(s, step.i))
    ensures Silent(s, Apply(s, step))
  {
    match step
    case Run(i) => GoSilent(s, i);
    case DialUp(i) => assert Local(s, i);
    case DialFail(i, _) => assert Local(s, i);
    case ConnectOk(i) => assert Local(s, i);
    case ConnectErr(i, _) => assert Local(s, i);
    case GracePasses(i) => assert Local(s, i);
    case _ =>
  }

  lemma TalkStatusLog(s: State, i: nat)
    requires Locals(s) && StatusLog(s) && IsThread(s, i) && CanGo(s, i) && KnowsAttempt(s, s.threads[i])
    requires Talks(s, i) && s.threads[i].Publish?
    ensures StatusLog(Go(s, i))
  {
    assert Local(s, i);
  }

  lemma DecideStatusLog(s: State, i: nat)
    requires Locals(s) && StatusLog(s) && IsThread(s, i) && CanGo(s, i) && KnowsAttempt(s, s.threads[i])
    requires Talks(s, i) && !s.threads[i].Publish?
    ensures StatusLog(Go(s, i))
  {
    assert Local(s, i);
  }

  lemma StepStatusLog(s: State, step: Step)
    requires Core(s) && StatusLog(s) && Enabled(s, step)
    ensures StatusLog(Apply(s, step))
  {
    if step.Run? && Talks(s, step.i) {
      if s.threads[step.i].Publish? { TalkStatusLog(s, step.i); } else { DecideStatusLog(s, step.i); }
    } else {
      StepSilent(s, step);
      SilentStatusLog(s, Apply(s, step));
    }
  }

  // ----- what each attempt has published -----

  lemma HeardOne(log: seq<Entry>, e: Entry, k: nat)
    ensures Heard(log + [e], k) == Heard(log, k) + (if e.attempt == Some(k) then [e.status.msg] else [])
  {
    assert (log + [e])[..|log|] == log;
  }

  lemma {:induction false} HeardNothing(log: seq<Entry>, k: nat)
    requires forall j :: 0 <= j < |log| && log[j].attempt.Some? ==> log[j].attempt.value != k
    ensures Heard(log, k) == []
  {
    if log != [] {
      HeardNothing(log[..|log| - 1], k);
    }
  }

  /** How an attempt's progress may change in a step that publishes nothing. */
  ghost predicate Follows(p: Progress, q: Progress) {
    q == p || (p.Unheard? && q.AtMostUp?) || ((p.EndTold? || p.RetryTold?) && q.Over?)
  }

  /** What publishing a status of the attempt changes. */
  ghost function Hears(p: Purpose, k: nat, from: Progress): Progress {
    if p == Up(k) then AtMostUp else if p == Down(k) then EndTold else if p == Retry(k) then RetryTold else from
  }

  lemma LockProgress(s: State, i: nat, k: nat)
    requires IsAttempt(s, k) && AttemptOk(s, k) && IsThread(s, i) && Local(s, i)
    requires WantsLock(s.threads[i]) && s.lock == None
    ensures ProgressOf(TakeLock(s, i), k) == ProgressOf(s, k)
  {}

  lemma MuProgress(s: State, i: nat, k: nat)
    requires IsAttempt(s, k) && AttemptOk(s, k) && IsThread(s, i) && Local(s, i)
    requires WantsMu(s.threads[i]) && s.statusMu == None
    ensures ProgressOf(TakeMu(s, i), k) == ProgressOf(s, k)
  {}

  /** The steps that move an attempt's end on, between publishing its statuses. */
  ghost predicate Moves(pc: Pc) {
    pc.DetachCs? || pc.Shut? || pc.FailCs? || pc.DecideCs? || pc.CloseDone?
  }

  /** The steps of connect and of its dial hook. */
  ghost predicate Dials(pc: Pc) {
    pc.ConnectCs? || pc.HookCs? || pc.HookRefuse? || pc.HookStore? || pc.SetupCs?
  }

  lemma MoveProgress(s: State, i: nat, k: nat)
    requires IsAttempt(s, k) && AttemptOk(s, k) && IsThread(s, i) && Local(s, i)
    requires s.c.conn == Some(k) ==> s.attempts[k].stage.Live?
    requires CanGo(s, i) && KnowsAttempt(s, s.threads[i])
    requires !WantsLock(s.threads[i]) && Moves(s.threads[i]) && !s.threads[i].DetachCs? && !s.threads[i].DecideCs?
    ensures Follows(ProgressOf(s, k), ProgressOf(Go(s, i), k))
  {}

  lemma DecideProgress(s: State, i: nat, k: nat)
    requires IsAttempt(s, k) && AttemptOk(s, k) && IsThread(s, i) && Local(s, i)
    requires KnowsAttempt(s, s.threads[i])
    requires s.threads[i].DecideCs? && s.threads[i].entered
    ensures Follows(ProgressOf(s, k), ProgressOf(Go(s, i), k))
  {}

  lemma DetachProgress(s: State, i: nat, k: nat)
    requires IsAttempt(s, k) && AttemptOk(s, k) && IsThread(s, i) && Local(s, i)
    requires s.c.conn == Some(k) ==> s.attempts[k].stage.Live?
    requires KnowsAttempt(s, s.threads[i])
    requires s.threads[i].DetachCs? && s.threads[i].entered
    ensures Follows(ProgressOf(s, k), ProgressOf(Go(s, i), k))
  {}

  lemma DialProgress(s: State, i: nat, k: nat)
    requires IsAttempt(s, k) && AttemptOk(s, k) && IsThread(s, i) && Local(s, i)
    requires s.c.conn == Some(k) ==> s.attempts[k].stage.Live?
    requires CanGo(s, i) && KnowsAttempt(s, s.threads[i])
    requires HoldsLock(s.threads[i]) && (s.threads[i].HookCs? || s.threads[i].SetupCs?)
    ensures Follows(ProgressOf(s, k), ProgressOf(Go(s, i), k))
  {}

  lemma ConnectProgress(s: State, i: nat, k: nat)
    requires IsAttempt(s, k) && AttemptOk(s, k) && IsThread(s, i) && Local(s, i)
    requires s.threads[i].ConnectCs? && s.threads[i].entered
    ensures CanGo(s, i) && KnowsAttempt(s, s.threads[i]) && Follows(ProgressOf(s, k), ProgressOf(Go(s, i), k))
  {}

  lemma HookProgress(s: State, i: nat, k: nat)
    requires IsAttempt(s, k) && AttemptOk(s, k) && IsThread(s, i) && Local(s, i)
    requires s.c.conn == Some(k) ==> s.attempts[k].stage.Live?
    requires CanGo(s, i) && KnowsAttempt(s, s.threads[i])
    requires s.threads[i].HookRefuse? || s.threads[i].HookStore?
    ensures Follows(ProgressOf(s, k), ProgressOf(Go(s, i), k))
  {}

  lemma DestroyProgress(s: State, i: nat, k: nat)
    requires IsAttempt(s, k) && AttemptOk(s, k) && IsThread(s, i) && Local(s, i)
    requires CanGo(s, i) && KnowsAttempt(s, s.threads[i])
    requires HoldsLock(s.threads[i]) && (s.threads[i].QuitCs? || s.threads[i].GraceCs?)
    ensures Follows(ProgressOf(s, k), ProgressOf(Go(s, i), k))
  {}

  lemma RestProgress(s: State, i: nat, k: nat)
    requires IsAttempt(s, k) && AttemptOk(s, k) && IsThread(s, i) && Local(s, i)
    requires CanGo(s, i) && KnowsAttempt(s, s.threads[i])
    requires !InSection(s.threads[i]) && !WantsMu(s.threads[i]) && !Moves(s.threads[i]) && !Dials(s.threads[i]) && !s.threads[i].Publish? && !OfEnd(s.threads[i])
    ensures Follows(ProgressOf(s, k), ProgressOf(Go(s, i), k))
  {}

  lemma HandlerProgress(s: State, i: nat, k: nat)
    requires IsAttempt(s, k) && AttemptOk(s, k) && IsThread(s, i) && Local(s, i)
    requires s.c.conn == Some(k) ==> s.attempts[k].stage.Live?
    requires CanGo(s, i) && KnowsAttempt(s, s.threads[i])
    requires HoldsLock(s.threads[i]) && s.threads[i].HandlerCs?
    ensures Follows(ProgressOf(s, k), ProgressOf(Go(s, i), k))
  {}

  lemma SwapProgress(s: State, i: nat, k: nat)
    requires IsAttempt(s, k) && AttemptOk(s, k) && IsThread(s, i) && Local(s, i)
    requires CanGo(s, i) && KnowsAttempt(s, s.threads[i])
    requires s.threads[i].EndSwap? || s.threads[i].CloseSock?
    ensures Follows(ProgressOf(s, k), ProgressOf(Go(s, i), k))
  {}

  lemma PublishProgress(s: State, i: nat, k: nat)
    requires IsAttempt(s, k) && AttemptOk(s, k) && IsThread(s, i) && Local(s, i)
    requires s.threads[i].Publish? && KnowsAttempt(s, s.threads[i])
    ensures var p := s.threads[i].purpose;
            var q := ProgressOf(s, k);
            ProgressOf(Go(s, i), k) == Hears(p, k, q)
  {}

  lemma StepProgress(s: State, step: Step, k: nat)
    requires Core(s) && Enabled(s, step) && !step.Run? && IsAttempt(s, k)
    ensures Follows(ProgressOf(s, k), ProgressOf(Apply(s, step), k))
  {
    assert AttemptOk(s, k);
  }

  lemma FitsFollows(h: seq<Msg>, p: Progress, q: Progress)
    requires Fits(h, p) && Follows(p, q)
    ensures Fits(h, q)
  {}

  ghost predicate Speaks(s: State, step: Step) {
    step.Run? && IsThread(s, step.i) && s.threads[step.i].Publish?
  }

  /** How a thread's step may lengthen the log and the attempts. */
  ghost predicate Grows(s: State, t: State, i: nat)
    requires IsThread(s, i)
  {
    && (!s.threads[i].Publish? ==> t.log == s.log)
    && (|t.attempts| == |s.attempts|
        || (|t.attempts| == |s.attempts| + 1 && s.threads[i].ConnectCs? && !s.c.quitting
            && t.attempts[|s.attempts|].stage.Live? && !t.attempts[|s.attempts|].dialed))
  }

  lemma LockGrows(s: State, i: nat)
    requires IsThread(s, i) && CanGo(s, i) && KnowsAttempt(s, s.threads[i])
    requires WantsLock(s.threads[i]) || WantsMu(s.threads[i])
    ensures Grows(s, Go(s, i), i)
  {}

  lemma MoveGrows(s: State, i: nat)
    requires IsThread(s, i) && CanGo(s, i) && KnowsAttempt(s, s.threads[i])
    requires !WantsLock(s.threads[i]) && Moves(s.threads[i])
    ensures Grows(s, Go(s, i), i)
  {}

  lemma DialGrows(s: State, i: nat)
    requires IsThread(s, i) && CanGo(s, i) && KnowsAttempt(s, s.threads[i])
    requires !WantsLock(s.threads[i]) && Dials(s.threads[i])
    ensures Grows(s, Go(s, i), i)
  {}

  lemma RestGrows(s: State, i: nat)
    requires IsThread(s, i) && CanGo(s, i) && KnowsAttempt(s, s.threads[i])
    requires !WantsLock(s.threads[i]) && !WantsMu(s.threads[i]) && !Moves(s.threads[i]) && !Dials(s.threads[i])
    ensures Grows(s, Go(s, i), i)
  {}

  lemma GoGrows(s: State, i: nat)
    requires IsThread(s, i) && CanGo(s, i) && KnowsAttempt(s, s.threads[i])
    ensures Grows(s, Go(s, i), i)
  {
    var pc := s.threads[i];
    if WantsLock(pc) || WantsMu(pc) { LockGrows(s, i); }
    else if Moves(pc) { MoveGrows(s, i); }
    else if Dials(pc) { DialGrows(s, i); }
    else { RestGrows(s, i); }
  }

  lemma NewAttemptOnly(s: State, step: Step)
    requires Enabled(s, step)
    ensures |s.attempts| <= |Apply(s, step).attempts| <= |s.attempts| + 1
    ensures |Apply(s, step).attempts| > |s.attempts| ==>
      !s.c.quitting && step.Run? && s.threads[step.i].ConnectCs? && ProgressOf(Apply(s, step), |s.attempts|) == Unheard
    ensures !Speaks(s, step) ==> Apply(s, step).log == s.log
  {
    if step.Run? { GoGrows(s, step.i); }
  }

  lemma GoFollows(s: State, i: nat, k: nat)
    requires IsAttempt(s, k) && AttemptOk(s, k) && IsThread(s, i) && Local(s, i)
    requires s.c.conn == Some(k) ==> s.attempts[k].stage.Live?
    requires CanGo(s, i) && KnowsAttempt(s, s.threads[i]) && !s.threads[i].Publish?
    ensures Follows(ProgressOf(s, k), ProgressOf(Go(s, i), k))
  {
    var pc := s.threads[i];
    if WantsLock(pc) { LockProgress(s, i, k); }
    else if WantsMu(pc) { MuProgress(s, i, k); }
    else if pc.DetachCs? { DetachProgress(s, i, k); }
    else if pc.DecideCs? { DecideProgress(s, i, k); }
    else if Moves(pc) { MoveProgress(s, i, k); }
    else if pc.HookRefuse? || pc.HookStore? { HookProgress(s, i, k); }
    else if pc.ConnectCs? { ConnectProgress(s, i, k); }
    else if Dials(pc) { DialProgress(s, i, k); }
    else if pc.HandlerCs? { HandlerProgress(s, i, k); }
    else if OfEnd(pc) { SwapProgress(s, i, k); }
    else if InSection(pc) { DestroyProgress(s, i, k); }
    else { RestProgress(s, i, k); }
  }

  lemma StepFollows(s: State, step: Step, k: nat)
    requires Core(s) && Enabled(s, step) && !Speaks(s, step) && IsAttempt(s, k) && IsAttempt(Apply(s, step), k)
    ensures Follows(ProgressOf(s, k), ProgressOf(Apply(s, step), k))
  {
    assert AttemptOk(s, k);
    if step.Run? {
      assert Local(s, step.i);
      GoFollows(s, step.i, k);
    } else {
      StepProgress(s, step, k);
    }
  }

  /** A step that publishes nothing keeps every attempt's shape. */
  lemma QuietShape(s: State, step: Step, k: nat)
    requires Core(s) && History(s) && Enabled(s, step) && !Speaks(s, step) && IsAttempt(Apply(s, step), k)
    ensures Shape(Apply(s, step), k)
  {
    NewAttemptOnly(s, step);
    if k == |s.attempts| {
      HeardNothing(s.log, k);
    } else {
      assert Shape(s, k);
      StepFollows(s, step, k);
      FitsFollows(Heard(s.log, k), ProgressOf(s, k), ProgressOf(Apply(s, step), k));
    }
  }

  /** A status of attempt k is the one that comes next. */
  ghost predicate Next(q: Progress, p: Purpose, msg: Msg) {
    match p
    case Up(_) => q.Unheard? && msg == Connected
    case Down(_) => q.AtMostUp? && msg.Failed?
    case Retry(_) => q.EndTold? && msg.Reconnecting?
    case Bye(_) => true
  }

  lemma NextFits(h: seq<Msg>, p: Purpose, msg: Msg, k: nat, q: Progress)
    requires Fits(h, q) && AttemptOf(p) == Some(k) && Next(q, p, msg)
    ensures Fits(h + [msg], Hears(p, k, q))
  {
    assert (h + [msg])[..|h|] == h;
  }

  lemma SaysNext(s: State, i: nat, k: nat)
    requires IsAttempt(s, k) && AttemptOk(s, k) && IsThread(s, i) && Local(s, i)
    requires s.threads[i].Publish? && AttemptOf(s.threads[i].purpose) == Some(k)
    ensures Next(ProgressOf(s, k), s.threads[i].purpose, s.threads[i].status.msg)
  {}

  lemma ShapeOfSpoken(s: State, t: State, status: Status, p: Purpose, k: nat)
    requires IsAttempt(s, k) && IsAttempt(t, k) && Shape(s, k)
    requires t.log == s.log + [Entry(status, AttemptOf(p))]
    requires ProgressOf(t, k) == Hears(p, k, ProgressOf(s, k))
    requires AttemptOf(p) == Some(k) ==> Next(ProgressOf(s, k), p, status.msg)
    ensures Shape(t, k)
  {
    var h, q := Heard(s.log, k), ProgressOf(s, k);
    HeardOne(s.log, Entry(status, AttemptOf(p)), k);
    if AttemptOf(p) == Some(k) {
      NextFits(h, p, status.msg, k, q);
    }
  }

  lemma SpokenShape(s: State, i: nat, k: nat)
    requires IsAttempt(s, k) && AttemptOk(s, k) && Shape(s, k) && IsThread(s, i) && Local(s, i)
    requires s.threads[i].Publish? && KnowsAttempt(s, s.threads[i])
    ensures Shape(Go(s, i), k)
  {
    var pc := s.threads[i];
    PublishProgress(s, i, k);
    if AttemptOf(pc.purpose) == Some(k) { SaysNext(s, i, k); }
    ShapeOfSpoken(s, Go(s, i), pc.status, pc.purpose, k);
  }

  lemma SpokenAttempt(s: State, i: nat)
    requires Core(s) && IsThread(s, i) && s.threads[i].Publish?
    ensures var p := s.threads[i].purpose; AttemptOf(p).Some? ==> AttemptOf(p).value + 1 == |s.attempts|
  {
    assert Local(s, i);
    OnlyTheLast(s);
  }

  lemma SpokenReasonTold(s: State, i: nat)
    requires ReasonTold(s) && IsThread(s, i) && Local(s, i) && s.threads[i].Publish? && KnowsAttempt(s, s.threads[i])
    ensures ReasonTold(Go(s, i))
  {
    if |s.attempts| > 0 {
      HeardOne(s.log, Go(s, i).log[|s.log|], |s.attempts| - 1);
    }
  }

  /** Quitting is for good; only a handler stops the client, and only a handler or a new attempt
      changes the reason for its end. */
  ghost predicate Steady(s: State, t: State, pc: Pc) {
    && (s.c.quitting ==> t.c.quitting)
    && (!pc.HandlerCs? ==> t.c.stopped == s.c.stopped)
    && (!pc.HandlerCs? && !pc.ConnectCs? ==> Reason(t.c) == Reason(s.c))
  }

  lemma LockSteady(s: State, i: nat)
    requires IsThread(s, i) && CanGo(s, i) && KnowsAttempt(s, s.threads[i])
    requires WantsLock(s.threads[i]) || WantsMu(s.threads[i])
    ensures Steady(s, Go(s, i), s.threads[i])
  {}

  lemma MoveSteady(s: State, i: nat)
    requires IsThread(s, i) && CanGo(s, i) && KnowsAttempt(s, s.threads[i])
    requires !WantsLock(s.threads[i]) && Moves(s.threads[i])
    ensures Steady(s, Go(s, i), s.threads[i])
  {}

  lemma DialSteady(s: State, i: nat)
    requires IsThread(s, i) && CanGo(s, i) && KnowsAttempt(s, s.threads[i])
    requires !WantsLock(s.threads[i]) && Dials(s.threads[i])
    ensures Steady(s, Go(s, i), s.threads[i])
  {}

  lemma RestSteady(s: State, i: nat)
    requires IsThread(s, i) && CanGo(s, i) && KnowsAttempt(s, s.threads[i])
    requires !WantsLock(s.threads[i]) && !WantsMu(s.threads[i]) && !Moves(s.threads[i]) && !Dials(s.threads[i])
    ensures Steady(s, Go(s, i), s.threads[i])
  {}

  lemma GoSteady(s: State, i: nat)
    requires IsThread(s, i) && CanGo(s, i) && KnowsAttempt(s, s.threads[i])
    ensures Steady(s, Go(s, i), s.threads[i])
  {
    var pc := s.threads[i];
    if WantsLock(pc) || WantsMu(pc) { LockSteady(s, i); }
    else if Moves(pc) { MoveSteady(s, i); }
    else if Dials(pc) { DialSteady(s, i); }
    else { RestSteady(s, i); }
  }

  /** The reason changes when a handler of a live connection stops it or gives it up, or with a new
      attempt, of a client that is not stopped. */
  lemma ReasonsLive(s: State, step: Step)
    requires Enabled(s, step) && Reason(Apply(s, step).c) != Reason(s.c) && |Apply(s, step).attempts| == |s.attempts|
    ensures step.Run? && s.c.conn.Some?
  {
    if step.Run? { GoSteady(s, step.i); }
  }

  lemma NewAttemptHasNoReason(s: State, step: Step)
    requires Enabled(s, step) && |Apply(s, step).attempts| > |s.attempts| && s.c.stopped == ""
    ensures Reason(Apply(s, step).c) == ""
  {
    NewAttemptOnly(s, step);
  }

  /** A stopped or quitting client starts no attempt. */
  lemma FinalStartsNothing(s: State, step: Step)
    requires Locals(s) && Continues(s) && Enabled(s, step) && Final(s.c)
    ensures |Apply(s, step).attempts| == |s.attempts|
  {
    NewAttemptOnly(s, step);
    if step.Run? { assert Local(s, step.i); }
  }

  lemma OpeningTellsNoEnd(s: State, k: nat)
    requires IsAttempt(s, k) && s.attempts[k].stage.Live? && Shape(s, k)
    ensures forall m :: m in Heard(s.log, k) ==> !m.Failed?
  {}

  lemma SameReasonTold(s: State, t: State)
    requires ReasonTold(s) && t.log == s.log && Reason(t.c) == Reason(s.c) && |t.attempts| == |s.attempts|
    ensures ReasonTold(t)
  {}

  lemma NewReasonTold(s: State, t: State)
    requires t.log == s.log && |t.attempts| == |s.attempts| > 0
    requires forall m :: m in Heard(s.log, |s.attempts| - 1) ==> !m.Failed?
    ensures ReasonTold(t)
  {}

  lemma QuietReasonTold(s: State, step: Step)
    requires Locals(s) && Continues(s) && Enabled(s, step) && !Speaks(s, step)
    requires ReasonTold(s)
    requires s.c.conn.Some? ==> |s.attempts| > 0 && s.attempts[|s.attempts| - 1].stage.Live? && Shape(s, |s.attempts| - 1)
    ensures ReasonTold(Apply(s, step))
  {
    var t := Apply(s, step);
    NewAttemptOnly(s, step);
    if |t.attempts| > |s.attempts| {
      if s.c.stopped != "" { FinalStartsNothing(s, step); }
      NewAttemptHasNoReason(s, step);
    } else if Reason(t.c) != Reason(s.c) {
      ReasonsLive(s, step);
      OpeningTellsNoEnd(s, |s.attempts| - 1);
      NewReasonTold(s, t);
    } else {
      SameReasonTold(s, t);
    }
  }

  lemma SpokenHistory(s: State, i: nat)
    requires Core(s) && History(s) && IsThread(s, i) && CanGo(s, i) && KnowsAttempt(s, s.threads[i])
    requires s.threads[i].Publish?
    ensures History(Go(s, i))
  {
    var t := Go(s, i);
    SpokenAttempt(s, i);
    assert Local(s, i);
    forall k | 0 <= k < |t.attempts| ensures Shape(t, k) {
      assert Shape(s, k);
      assert AttemptOk(s, k);
      SpokenShape(s, i, k);
    }
    SpokenReasonTold(s, i);
  }

  lemma StepHistory(s: State, step: Step)
    requires Core(s) && History(s) && Enabled(s, step)
    ensures History(Apply(s, step))
  {
    if Speaks(s, step) {
      SpokenHistory(s, step.i);
    } else {
      var t := Apply(s, step);
      NewAttemptOnly(s, step);
      forall k | 0 <= k < |t.attempts| ensures Shape(t, k) { QuietShape(s, step, k); }
      QuietReasonTold(s, step);
    }
  }

  // ----- the backoff -----

  lemma SumOne(xs: seq<nat>, x: nat)
    ensures Sum(xs + [x]) == Sum(xs) + x
  {
    assert (xs + [x])[..|xs|] == xs;
  }

  /** The waiting that must be over: until when, if the timer is still armed. */
  ghost function WaitedUntil(s: State): nat {
    if s.cont.Some? && IsThread(s, s.cont.value) && s.threads[s.cont.value].Armed?
    then s.threads[s.cont.value].due else s.now
  }

  /** A step that leaves the retries alone. */
  ghost predicate Unhurried(s: State, t: State) {
    t.c.retries == s.c.retries && t.streak == s.streak && t.since == s.since
    && (t.c.quitting || (!s.c.quitting && WaitedUntil(t) >= WaitedUntil(s)))
  }

  lemma UnhurriedPace(s: State, t: State)
    requires Pace(s) && Unhurried(s, t)
    ensures Pace(t)
  {}

  lemma LockUnhurried(s: State, i: nat)
    requires Continues(s) && IsThread(s, i) && Local(s, i) && CanGo(s, i) && KnowsAttempt(s, s.threads[i])
    requires WantsLock(s.threads[i]) || WantsMu(s.threads[i])
    ensures Unhurried(s, Go(s, i))
  {}

  lemma MoveUnhurried(s: State, i: nat)
    requires Continues(s) && IsThread(s, i) && Local(s, i) && CanGo(s, i) && KnowsAttempt(s, s.threads[i])
    requires !WantsLock(s.threads[i]) && Moves(s.threads[i]) && !s.threads[i].DecideCs?
    ensures Unhurried(s, Go(s, i))
  {}

  lemma DialUnhurried(s: State, i: nat)
    requires Continues(s) && IsThread(s, i) && Local(s, i) && CanGo(s, i) && KnowsAttempt(s, s.threads[i])
    requires !WantsLock(s.threads[i]) && Dials(s.threads[i])
    ensures Unhurried(s, Go(s, i))
  {}

  lemma RestUnhurried(s: State, i: nat)
    requires Continues(s) && IsThread(s, i) && Local(s, i) && CanGo(s, i) && KnowsAttempt(s, s.threads[i])
    requires !WantsLock(s.threads[i]) && !WantsMu(s.threads[i]) && !Moves(s.threads[i]) && !Dials(s.threads[i])
    requires !s.threads[i].QuitCs? && !s.threads[i].HandlerCs?
    ensures Unhurried(s, Go(s, i))
  {}

  lemma SectionUnhurried(s: State, i: nat)
    requires Continues(s) && IsThread(s, i) && Local(s, i) && CanGo(s, i) && KnowsAttempt(s, s.threads[i])
    requires !WantsLock(s.threads[i]) && (s.threads[i].QuitCs? || s.threads[i].HandlerCs?)
    ensures Unhurried(s, Go(s, i))
  {}

  lemma GoUnhurried(s: State, i: nat)
    requires Continues(s) && IsThread(s, i) && Local(s, i) && CanGo(s, i) && KnowsAttempt(s, s.threads[i])
    requires !(s.threads[i].DecideCs? && s.threads[i].entered)
    ensures Unhurried(s, Go(s, i))
  {
    var pc := s.threads[i];
    if WantsLock(pc) || WantsMu(pc) { LockUnhurried(s, i); }
    else if Moves(pc) { MoveUnhurried(s, i); }
    else if Dials(pc) { DialUnhurried(s, i); }
    else if pc.QuitCs? || pc.HandlerCs? { SectionUnhurried(s, i); }
    else { RestUnhurried(s, i); }
  }

  lemma StepUnhurried(s: State, step: Step)
    requires Continues(s) && Locals(s) && Enabled(s, step) && !step.Run?
    ensures Unhurried(s, Apply(s, step))
  {
    match step
    case DialUp(i) => assert Local(s, i);
    case DialFail(i, _) => assert Local(s, i);
    case ConnectOk(i) => assert Local(s, i);
    case ConnectErr(i, _) => assert Local(s, i);
    case GracePasses(i) => assert Local(s, i);
    case _ =>
  }

  lemma NothingArmed(s: State, i: nat, k: nat)
    requires Core(s) && IsThread(s, i) && s.threads[i] == DecideCs(k, true)
    ensures IsAttempt(s, k) && s.cont == None
  {
    assert Local(s, i);
    OnlyTheLast(s);
    ContinuationWaits(s);
  }

  lemma LongerStreak(streak: seq<nat>, n: nat, reset: bool)
    requires forall j :: 0 <= j < |streak| ==> streak[j] == Backoff(j + 1)
    requires n == (if reset then 0 else |streak|) + 1
    ensures var longer := (if reset then [] else streak) + [Backoff(n)];
            |longer| == n && (forall j :: 0 <= j < |longer| ==> longer[j] == Backoff(j + 1))
            && Sum(longer) == (if reset then 0 else Sum(streak)) + Backoff(n)
  {
    SumOne(if reset then [] else streak, Backoff(n));
  }

  lemma ReschedulePace(s: State, t: State, reset: bool)
    requires Pace(s) && s.cont == None && !t.c.quitting == !s.c.quitting
    requires t.c.retries == (if reset then 0 else s.c.retries) + 1
    requires t.streak == (if reset then [] else s.streak) + [Backoff(t.c.retries)]
    requires t.since == if reset || s.streak == [] then s.now else s.since
    requires t.now == s.now && t.cont.Some? && IsThread(t, t.cont.value)
    requires t.threads[t.cont.value].Armed? && t.threads[t.cont.value].due == s.now + Backoff(t.c.retries)
    ensures Pace(t)
  {
    LongerStreak(s.streak, t.c.retries, reset);
  }

  lemma DecidePace(s: State, i: nat, k: nat)
    requires Pace(s) && IsThread(s, i) && IsAttempt(s, k) && s.cont == None
    ensures Pace(DecideBody(s, i, k))
  {
    if !Final(s.c) {
      ReschedulePace(s, DecideBody(s, i, k), Stable(s.c, s.now));
    }
  }

  lemma StepPace(s: State, step: Step)
    requires Core(s) && Pace(s) && Enabled(s, step)
    ensures Pace(Apply(s, step))
  {
    if step.Run? {
      var pc := s.threads[step.i];
      assert Local(s, step.i);
      if pc.DecideCs? && pc.entered {
        NothingArmed(s, step.i, pc.k);
        DecidePace(s, step.i, pc.k);
      } else {
        GoUnhurried(s, step.i);
        UnhurriedPace(s, Go(s, step.i));
      }
    } else {
      StepUnhurried(s, step);
      UnhurriedPace(s, Apply(s, step));
    }
  }

  // ----- every run -----

  lemma StepInv(s: State, step: Step)
    requires Inv(s) && Enabled(s, step)
    ensures Inv(Apply(s, step))
  {
    StepCore(s, step);
    StepStatusLog(s, step);
    StepHistory(s, step);
    StepPace(s, step);
  }

  lemma {:induction false} RunInv(s: State, steps: seq<Step>)
    requires Inv(s) && ValidRun(s, steps)
    ensures Inv(Exec(s, steps))
    decreases |steps|
  {
    if steps != [] {
      StepInv(s, steps[0]);
      RunInv(Apply(s, steps[0]), steps[1..]);
    }
  }

  /** Every state that any interleaving reaches satisfies the invariant. */
  lemma ReachableInv(s: State)
    requires Reachable(s)
    ensures Inv(s)
  {
    var steps :| ValidRun(Init(), steps) && Exec(Init(), steps) == s;
    InitInv();
    RunInv(Init(), steps);
  }
}
