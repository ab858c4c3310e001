/** What one step of a thread does, told for each part of the state: the client, each attempt, and the
    threads. */
module LifecycleEffects {
  import opened Options
  import opened Lifecycle
  import opened LifecycleInvariant
  import opened LifecycleCore
  import opened LifecycleSteps

  /** A handler that ends the current attempt. */
  predicate EndsIt(c: Client, pc: Pc) {
    pc.HandlerCs? && pc.entered && c.conn == Some(pc.k) && (pc.h.Stop? || pc.h.GiveUp?)
  }

  /** The client after a step at pc, of |attempts| == n and |threads| == m. */
  function ClientAfter(c: Client, pc: Pc, n: nat, m: nat, now: nat): Client {
    match pc
    case ConnectCs(entered) => if entered && !c.quitting then BeginAttempt(c, n) else c
    case HookCs(k, entered) => if entered && !Refused(c, k) then Attach(c, k) else c
    case SetupCs(k, entered) => if entered && c.conn == Some(k) then FinishSetup(c) else c
    case DetachCs(k, _, entered) => if entered && c.conn == Some(k) then Detach(c) else c
    case FailCs(_, text, entered) => if entered then SetStatus(c, false, Failed(text)) else c
    case DecideCs(_, entered) => if entered && !Final(c) then Schedule(c, now, m) else c
    case HandlerCs(k, h, entered) => if entered && c.conn == Some(k) then Handle(c, h, now) else c
    case QuitCs(entered) => if entered then Quit(c) else c
    case _ => c
  }

  /** Attempt k after a step of thread i at pc. */
  function AttemptAfter(c: Client, pc: Pc, i: nat, a: Attempt, k: nat): Attempt {
    match pc
    case HookRefuse(j) => if j == k then a.(sock := Closed, dialed := true) else a
    case SetupCs(j, entered) => if entered && j == k && c.conn == Some(k) then a.(joins := a.joins + 1) else a
    case DetachCs(j, _, entered) => if entered && j == k && c.conn == Some(k) then a.(stage := Ending(i, false)) else a
    case Shut(_, _, sock) => if sock == Some(k) then a.(sock := Closed) else a
    case DecideCs(j, entered) => if entered && j == k && !Final(c) then a.(stage := Ending(i, true)) else a
    case CloseDone(j) => if j == k then a.(closes := a.closes + 1, stage := Ended) else a
    case Publish(_, p) => if p == Up(k) then a.(dialed := true) else a
    case HandlerCs(_, _, _) => if EndsIt(c, pc) && c.socket == Some(k) then a.(sock := Closed) else a
    case CloseSock(_, sock) => if sock == Some(k) then a.(sock := Closed) else a
    case _ => a
  }

  /** Where a thread at pc is after its step. */
  function PcAfter(c: Client, pc: Pc, n: nat, now: nat): Pc {
    if WantsLock(pc) then pc.(entered := true)
    else
      match pc
      case ConnectCs(_) => if c.quitting then Finished else Dialing(n)
      case HookMu(k) => HookCs(k, false)
      case HookCs(k, _) => if Refused(c, k) then HookRefuse(k) else HookStore(k, Status(true, Connected))
      case HookRefuse(k) => Registering(k)
      case HookStore(k, status) => Publish(status, Up(k))
      case EndSwap(k, text) => DetachCs(k, text, false)
      case DetachCs(k, text, _) => if c.conn == Some(k) then Shut(k, EndText(c, text), c.socket) else Finished
      case Shut(k, text, _) => FailMu(k, text)
      case FailMu(k, text) => FailCs(k, text, false)
      case FailCs(k, text, _) => Publish(Status(false, Failed(text)), Down(k))
      case DecideMu(k) => DecideCs(k, false)
      case DecideCs(k, _) =>
        if Final(c) then CloseDone(k) else Publish(Status(false, Reconnecting(Backoff(NextRetries(c, now)))), Retry(k))
      case Publish(_, p) => AfterPublish(p)
      case Armed(k, _) => AwaitDone(k)
      case AwaitDone(_) => ConnectCs(false)
      case QuitMu => QuitCs(false)
      case QuitCs(_) => Publish(Status(c.connected, Closing), Bye(c.attemptDone))
      case Waiting(_, _) => Swap
      case GraceCs(k, _) => CloseSock(k, c.socket)
      case CloseSock(k, _) => Waiting(Some(k), false)
      case Swap => Returned
      case Dialing(_) => pc
      case Registering(_) => pc
      case _ => Finished
  }

  /** The sender slot: set by the dial hook, given up by a report of the end and by Destroy. */
  function SenderAfter(sender: Option<nat>, pc: Pc): Option<nat> {
    match pc
    case HookStore(k, _) => Some(k)
    case EndSwap(k, _) => if sender == Some(k) then None else sender
    case Swap => None
    case _ => sender
  }

  /** What is published. */
  function Said(pc: Pc): seq<Entry> {
    if pc.Publish? then [Entry(pc.status, AttemptOf(pc.purpose))] else []
  }

  /** A thread that decides to go on arms the timer in a new thread. */
  predicate Arms(c: Client, pc: Pc) {
    pc.DecideCs? && pc.entered && !Final(c)
  }

  /** The threads after a step of thread i: its own, the others but for a timer that is stopped, and the
      timer it arms. */
  ghost predicate ThreadsAfter(s: State, t: State, i: nat)
    requires IsThread(s, i)
  {
    var pc, m := s.threads[i], |s.threads|;
    && |t.threads| == m + (if Arms(s.c, pc) then 1 else 0)
    && t.threads[i] == PcAfter(s.c, pc, |s.attempts|, s.now)
    && (forall j :: 0 <= j < m && j != i ==>
          t.threads[j] == s.threads[j] || (pc.QuitCs? && s.threads[j].Armed? && t.threads[j] == Finished))
    && (Arms(s.c, pc) ==> t.threads[m] == Armed(pc.k, s.now + Backoff(NextRetries(s.c, s.now))))
  }

  ghost predicate AttemptsAfter(s: State, t: State, i: nat)
    requires IsThread(s, i)
  {
    var pc, n := s.threads[i], |s.attempts|;
    && |t.attempts| == n + (if pc.ConnectCs? && pc.entered && !s.c.quitting then 1 else 0)
    && (forall k :: 0 <= k < n ==> t.attempts[k] == AttemptAfter(s.c, pc, i, s.attempts[k], k))
    && (n < |t.attempts| ==> t.attempts[n] == Attempt(i, false, NoSocket, Live, 0, 0))
  }

  ghost predicate Effects(s: State, t: State, i: nat)
    requires IsThread(s, i)
  {
    && t.c == ClientAfter(s.c, s.threads[i], |s.attempts|, |s.threads|, s.now)
    && AttemptsAfter(s, t, i)
    && ThreadsAfter(s, t, i)
    && t.sender == SenderAfter(s.sender, s.threads[i])
    && t.log == s.log + Said(s.threads[i])
    && t.now == s.now
  }

  lemma LockEffects(s: State, i: nat)
    requires IsThread(s, i) && CanGo(s, i) && KnowsAttempt(s, s.threads[i])
    requires WantsLock(s.threads[i]) || WantsMu(s.threads[i])
    ensures Effects(s, Go(s, i), i)
  {}

  lemma MoveEffects(s: State, i: nat)
    requires IsThread(s, i) && CanGo(s, i) && KnowsAttempt(s, s.threads[i])
    requires s.threads[i].Shut? || s.threads[i].CloseDone? || (s.threads[i].FailCs? && s.threads[i].entered)
    ensures Effects(s, Go(s, i), i)
  {}

  lemma DetachEffects(s: State, i: nat)
    requires IsThread(s, i) && CanGo(s, i) && KnowsAttempt(s, s.threads[i])
    requires s.threads[i].DetachCs? && s.threads[i].entered
    ensures Effects(s, Go(s, i), i)
  {}

  lemma DecideEffects(s: State, i: nat)
    requires IsThread(s, i) && CanGo(s, i) && KnowsAttempt(s, s.threads[i])
    requires s.threads[i].DecideCs? && s.threads[i].entered
    ensures Effects(s, Go(s, i), i)
  {}

  lemma HookEffects(s: State, i: nat)
    requires IsThread(s, i) && CanGo(s, i) && KnowsAttempt(s, s.threads[i])
    requires s.threads[i].HookRefuse? || s.threads[i].HookStore? || (s.threads[i].HookCs? && s.threads[i].entered)
    ensures Effects(s, Go(s, i), i)
  {}

  lemma DialEffects(s: State, i: nat)
    requires IsThread(s, i) && CanGo(s, i) && KnowsAttempt(s, s.threads[i])
    requires (s.threads[i].ConnectCs? || s.threads[i].SetupCs?) && s.threads[i].entered
    ensures Effects(s, Go(s, i), i)
  {}

  lemma HandlerEffects(s: State, i: nat)
    requires IsThread(s, i) && CanGo(s, i) && KnowsAttempt(s, s.threads[i])
    requires s.threads[i].HandlerCs? && s.threads[i].entered
    ensures Effects(s, Go(s, i), i)
  {}

  lemma DestroyEffects(s: State, i: nat)
    requires IsThread(s, i) && CanGo(s, i) && KnowsAttempt(s, s.threads[i])
    requires (s.threads[i].QuitCs? || s.threads[i].GraceCs?) && s.threads[i].entered
    ensures Effects(s, Go(s, i), i)
  {}

  lemma PublishEffects(s: State, i: nat)
    requires IsThread(s, i) && CanGo(s, i) && KnowsAttempt(s, s.threads[i])
    requires s.threads[i].Publish? || s.threads[i].CloseSock?
    ensures Effects(s, Go(s, i), i)
  {}

  lemma RestEffects(s: State, i: nat)
    requires IsThread(s, i) && CanGo(s, i) && KnowsAttempt(s, s.threads[i])
    requires !InSection(s.threads[i]) && !WantsMu(s.threads[i]) && !Moves(s.threads[i]) && !Dials(s.threads[i])
    requires !s.threads[i].Publish? && !s.threads[i].CloseSock?
    ensures Effects(s, Go(s, i), i)
  {}

  lemma GoEffects(s: State, i: nat)
    requires IsThread(s, i) && CanGo(s, i) && KnowsAttempt(s, s.threads[i])
    ensures Effects(s, Go(s, i), i)
  {
    var pc := s.threads[i];
    if WantsLock(pc) || WantsMu(pc) { LockEffects(s, i); }
    else if pc.DetachCs? { DetachEffects(s, i); }
    else if pc.DecideCs? { DecideEffects(s, i); }
    else if Moves(pc) { MoveEffects(s, i); }
    else if pc.ConnectCs? || pc.SetupCs? { DialEffects(s, i); }
    else if Dials(pc) { HookEffects(s, i); }
    else if pc.HandlerCs? { HandlerEffects(s, i); }
    else if InSection(pc) { DestroyEffects(s, i); }
    else if pc.Publish? || pc.CloseSock? { PublishEffects(s, i); }
    else { RestEffects(s, i); }
  }
}
