/** What every reachable state of the lifecycle keeps, and the proof that each step keeps it. */
module LifecycleInvariant {
  import opened Options
  import opened Lifecycle

  // ----- attempts -----

  ghost predicate Live(s: State, k: nat) {
    IsAttempt(s, k) && s.attempts[k].stage.Live?
  }

  ghost predicate AllEnded(s: State) {
    forall k :: 0 <= k < |s.attempts| ==> s.attempts[k].stage.Ended?
  }

  /** Attempt k's end has armed the timer for the next one. */
  ghost predicate Scheduled(s: State, k: nat) {
    k + 1 == |s.attempts| && (s.attempts[k].stage.Ended? || (s.attempts[k].stage.Ending? && s.attempts[k].stage.scheduled))
  }

  /** Thread i is in connect for the live attempt k, whose dial has not returned. */
  ghost predicate DialsFor(s: State, i: nat, k: nat) {
    Live(s, k) && s.attempts[k].runner == i && !s.attempts[k].dialed && s.attempts[k].joins == 0
  }

  ghost predicate Dialed(s: State, k: nat) {
    IsAttempt(s, k) && s.attempts[k].dialed
  }

  ghost predicate Ends(s: State, i: nat, k: nat, scheduled: bool) {
    IsAttempt(s, k) && s.attempts[k].stage == Ending(i, scheduled)
  }

  /** The end of an attempt that was stopped or given up says why. */
  ghost predicate Says(s: State, text: string) {
    Reason(s.c) != "" ==> text == Reason(s.c)
  }

  ghost predicate Attached(s: State, k: nat) {
    s.c.socket == Some(k) && IsAttempt(s, k) && s.attempts[k].sock.Open?
  }

  // ----- what holds at each program counter -----

  ghost predicate LocalConnect(s: State, i: nat, pc: Pc) {
    match pc
    case ConnectCs(_) => s.cont == Some(i) && AllEnded(s)
    case Armed(k, _) => s.cont == Some(i) && Scheduled(s, k)
    case AwaitDone(k) => s.cont == Some(i) && Scheduled(s, k)
    case Dialing(k) => DialsFor(s, i, k) && s.attempts[k].sock.NoSocket? && s.c.socket == None
    case HookMu(k) => DialsFor(s, i, k) && s.attempts[k].sock.Open? && s.c.socket == None
    case HookCs(k, _) => DialsFor(s, i, k) && s.attempts[k].sock.Open? && s.c.socket == None
    case HookRefuse(k) => DialsFor(s, i, k) && s.c.quitting && s.c.socket == None
    case HookStore(k, status) =>
      DialsFor(s, i, k) && s.c.socket == Some(k) && s.attempts[k].sock.Open? && !s.c.quitting
      && status == s.c.Current() == Status(true, Connected)
    case Registering(k) => Dialed(s, k) && s.attempts[k].runner == i && !s.attempts[k].sock.NoSocket? && s.attempts[k].joins == 0
    case SetupCs(k, _) => Dialed(s, k) && s.attempts[k].runner == i && !s.attempts[k].sock.NoSocket? && s.attempts[k].joins == 0
    case _ => true
  }

  ghost predicate LocalEnd(s: State, i: nat, pc: Pc) {
    match pc
    case EndSwap(k, _) => Dialed(s, k)
    case DetachCs(k, _, _) => Dialed(s, k) && s.sender != Some(k)
    case Shut(k, text, sock) => Ends(s, i, k, false) && Says(s, text) && (sock.Some? ==> sock == Some(k))
    case FailMu(k, text) => Ends(s, i, k, false) && Says(s, text)
    case FailCs(k, text, _) => Ends(s, i, k, false) && Says(s, text)
    case DecideMu(k) => Ends(s, i, k, false) && !s.c.connected
    case DecideCs(k, _) => Ends(s, i, k, false) && !s.c.connected
    case CloseDone(k) => (Ends(s, i, k, false) || Ends(s, i, k, true)) && !s.c.connected
    case HandlerCs(k, h, _) => Dialed(s, k) && (h.Stop? || h.GiveUp? ==> h.reason != "")
    case _ => true
  }

  ghost predicate LocalPublish(s: State, i: nat, status: Status, p: Purpose) {
    && status == s.c.Current()
    && match p
       case Up(k) =>
         DialsFor(s, i, k) && s.c.socket == Some(k) && s.attempts[k].sock.Open? && !s.c.quitting
         && status == Status(true, Connected)
       case Down(k) => Ends(s, i, k, false) && !status.connected && status.msg.Failed? && Says(s, status.msg.text)
       case Retry(k) => Ends(s, i, k, true) && !status.connected && status.msg.Reconnecting? && !s.c.quitting
       case Bye(done) => s.c.quitting && done == s.c.attemptDone && status.msg == Closing
  }

  ghost predicate LocalDestroy(s: State, i: nat, pc: Pc) {
    match pc
    case Waiting(done, patient) =>
      s.c.quitting && done == s.c.attemptDone
      && (!patient ==> done.Some? && (Live(s, done.value) ==> !Attached(s, done.value)))
    case GraceCs(k, _) => s.c.quitting && s.c.attemptDone == Some(k)
    case CloseSock(k, sock) =>
      s.c.quitting && s.c.attemptDone == Some(k)
      && (if sock == Some(k) then Dialed(s, k) else sock == None && (Live(s, k) ==> !Attached(s, k)))
    case Swap => s.c.quitting && AllEnded(s)
    case Returned => s.c.quitting && AllEnded(s)
    case _ => true
  }

  ghost predicate Local(s: State, i: nat)
    requires IsThread(s, i)
  {
    var pc := s.threads[i];
    && (HoldsLock(pc) ==> s.lock == Some(i))
    && (HoldsMu(pc) ==> s.statusMu == Some(i))
    && LocalConnect(s, i, pc)
    && LocalEnd(s, i, pc)
    && (pc.Publish? ==> LocalPublish(s, i, pc.status, pc.purpose))
    && LocalDestroy(s, i, pc)
  }

  // ----- what holds of each attempt -----

  /** The thread in connect for a live attempt k, until the attempt is irc-go's alone. */
  ghost predicate Runs(a: Attempt, pc: Pc, k: nat) {
    match pc
    case Dialing(j) => j == k
    case HookMu(j) => j == k
    case HookCs(j, _) => j == k
    case HookRefuse(j) => j == k
    case HookStore(j, _) => j == k
    case Publish(_, p) => p == Up(k)
    case Registering(j) => j == k
    case SetupCs(j, _) => j == k
    case EndSwap(j, _) => j == k
    case DetachCs(j, _, _) => j == k
    case Finished => a.dialed && !a.sock.NoSocket?
    case _ => false
  }

  /** The thread ending attempt k, which will close its done channel. */
  ghost predicate IsEnding(pc: Pc, k: nat, scheduled: bool) {
    match pc
    case Shut(j, _, _) => j == k && !scheduled
    case FailMu(j, _) => j == k && !scheduled
    case FailCs(j, _, _) => j == k && !scheduled
    case DecideMu(j) => j == k && !scheduled
    case DecideCs(j, _) => j == k && !scheduled
    case Publish(_, p) => p == if scheduled then Retry(k) else Down(k)
    case CloseDone(j) => j == k
    case _ => false
  }

  ghost predicate AttemptOk(s: State, k: nat)
    requires IsAttempt(s, k)
  {
    var a := s.attempts[k];
    && (k + 1 < |s.attempts| ==> a.stage.Ended?)
    && a.closes == (if a.stage.Ended? then 1 else 0)
    && a.joins <= 1
    && IsThread(s, a.runner)
    && (a.stage.Live? ==> Runs(a, s.threads[a.runner], k))
    && (a.stage.Live? && a.dialed && a.sock.Open? ==> s.c.socket == Some(k))
    && (!a.stage.Live? ==> a.dialed)
    && (a.stage.Ending? ==> IsThread(s, a.stage.ender) && IsEnding(s.threads[a.stage.ender], k, a.stage.scheduled))
  }

  // ----- what holds of the client's fields -----

  ghost predicate BeforeFail(pc: Pc) {
    pc.Shut? || pc.FailMu? || pc.FailCs?
  }

  ghost predicate MayBeConnected(s: State) {
    |s.attempts| > 0
    && var stage := s.attempts[|s.attempts| - 1].stage;
       stage.Live? || (stage.Ending? && IsThread(s, stage.ender) && BeforeFail(s.threads[stage.ender]))
  }

  ghost predicate Fields(s: State) {
    var n := |s.attempts|;
    && s.c.conn == (if n > 0 && s.attempts[n - 1].stage.Live? then Some(n - 1) else None)
    && s.c.attemptDone == (if n > 0 then Some(n - 1) else None)
    && (s.c.socket.Some? ==> s.c.socket == s.c.conn)
    && (s.sender.Some? ==> s.sender == s.c.conn)
    && (s.c.registered ==> s.c.conn.Some?)
    && (s.c.connected ==> MayBeConnected(s))
  }

  ghost predicate Locks(s: State) {
    && (s.lock.Some? ==> IsThread(s, s.lock.value) && HoldsLock(s.threads[s.lock.value]))
    && (s.statusMu.Some? ==> IsThread(s, s.statusMu.value) && HoldsMu(s.threads[s.statusMu.value]))
  }

  ghost predicate Continues(s: State) {
    && (s.cont.Some? ==>
          IsThread(s, s.cont.value)
          && var pc := s.threads[s.cont.value];
             (pc.ConnectCs? || pc.Armed? || pc.AwaitDone?)
             && (pc.Armed? ==> s.c.timer == s.cont && !s.c.quitting))
    && (!s.started ==> s.cont == None && s.attempts == [])
    && (s.c.stopped != "" ==> Stopped(s))
  }

  ghost predicate Stopped(s: State) {
    s.cont == None && |s.attempts| > 0
    && var stage := s.attempts[|s.attempts| - 1].stage; stage.Ending? ==> !stage.scheduled
  }

  // ----- what holds of the published statuses -----

  /** Thread at pc has decided on a status that it has not published yet. */
  ghost predicate Speaking(pc: Pc) {
    pc.HookStore? || pc.Publish?
  }

  ghost predicate NothingAfterClosing(log: seq<Entry>) {
    forall i, j :: 0 <= i < j < |log| && log[i].status.msg == Closing ==>
      !log[j].status.msg.Connected? && !log[j].status.msg.Reconnecting?
  }

  ghost predicate StatusLog(s: State) {
    && |s.log| > 0
    && (s.statusMu == None || !(IsThread(s, s.statusMu.value) && Speaking(s.threads[s.statusMu.value])) ==>
          s.log[|s.log| - 1].status == s.c.Current())
    && (forall j :: 0 <= j < |s.log| && s.log[j].status.msg == Closing ==> s.c.quitting)
    && NothingAfterClosing(s.log)
  }

  /** What attempt k has published, in order. */
  ghost function Heard(log: seq<Entry>, k: nat): seq<Msg> {
    if log == [] then []
    else
      var n := |log| - 1;
      Heard(log[..n], k) + (if log[n].attempt == Some(k) then [log[n].status.msg] else [])
  }

  ghost predicate Opening(h: seq<Msg>) {
    h == [] || h == [Connected]
  }

  ghost predicate Told(h: seq<Msg>) {
    |h| > 0 && h[|h| - 1].Failed? && Opening(h[..|h| - 1])
  }

  ghost predicate Retried(h: seq<Msg>) {
    |h| > 0 && h[|h| - 1].Reconnecting? && Told(h[..|h| - 1])
  }

  /** How far attempt k has got in telling of itself. */
  datatype Progress = Unheard | AtMostUp | EndTold | RetryTold | Over

  ghost function ProgressOf(s: State, k: nat): Progress
    requires IsAttempt(s, k)
  {
    match s.attempts[k].stage
    case Live => if s.attempts[k].dialed then AtMostUp else Unheard
    case Ending(i, scheduled) =>
      if !IsThread(s, i) then Over
      else (
        match s.threads[i]
        case Publish(_, p) => if p.Down? then AtMostUp else EndTold
        case DecideMu(_) => EndTold
        case DecideCs(_, _) => EndTold
        case CloseDone(_) => if scheduled then RetryTold else EndTold
        case _ => AtMostUp)
    case Ended => Over
  }

  ghost predicate Fits(h: seq<Msg>, p: Progress) {
    match p
    case Unheard => h == []
    case AtMostUp => Opening(h)
    case EndTold => Told(h)
    case RetryTold => Retried(h)
    case Over => Told(h) || Retried(h)
  }

  ghost predicate Shape(s: State, k: nat)
    requires IsAttempt(s, k)
  {
    Fits(Heard(s.log, k), ProgressOf(s, k))
  }

  ghost predicate Ordered(log: seq<Entry>) {
    forall i, j :: 0 <= i < j < |log| && log[i].attempt.Some? && log[j].attempt.Some? ==>
      log[i].attempt.value <= log[j].attempt.value
  }

  /** If the last attempt was stopped or given up, any end it has told of gave the reason. */
  ghost predicate ReasonTold(s: State) {
    Reason(s.c) != "" && |s.attempts| > 0 ==>
      forall m :: m in Heard(s.log, |s.attempts| - 1) && m.Failed? ==> m.text == Reason(s.c)
  }

  ghost predicate History(s: State) {
    && (forall j :: 0 <= j < |s.log| && s.log[j].attempt.Some? ==> s.log[j].attempt.value < |s.attempts|)
    && Ordered(s.log)
    && (forall k :: 0 <= k < |s.attempts| ==> Shape(s, k))
    && ReasonTold(s)
  }

  // ----- what holds of the backoff -----

  ghost function Sum(xs: seq<nat>): nat {
    if xs == [] then 0 else Sum(xs[..|xs| - 1]) + xs[|xs| - 1]
  }

  ghost predicate Pace(s: State) {
    && |s.streak| == s.c.retries
    && (forall j :: 0 <= j < |s.streak| ==> s.streak[j] == Backoff(j + 1))
    && (!s.c.quitting ==>
          if s.cont.Some? && IsThread(s, s.cont.value) && s.threads[s.cont.value].Armed?
          then s.threads[s.cont.value].due >= s.since + Sum(s.streak)
          else s.now >= s.since + Sum(s.streak))
  }

  // ----- the invariant -----

  ghost predicate Locals(s: State) {
    forall i :: 0 <= i < |s.threads| ==> Local(s, i)
  }

  ghost predicate Attempts(s: State) {
    forall k :: 0 <= k < |s.attempts| ==> AttemptOk(s, k)
  }

  ghost predicate Core(s: State) {
    Locals(s) && Attempts(s) && Fields(s) && Locks(s) && Continues(s)
  }

  ghost predicate Inv(s: State) {
    Core(s) && StatusLog(s) && History(s) && Pace(s)
  }

  lemma InitInv()
    ensures Inv(Init())
  {
    var s := Init();
    assert Heard(s.log, 0) == [];
  }
}
