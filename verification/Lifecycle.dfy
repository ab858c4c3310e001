/** The life of one IRC connection, as small steps.

    Every goroutine that takes part (connect, the dial hook it runs, each report of an attempt's
    end, the reconnect timer's function, each handler, each Destroy) is a thread with a program
    counter. A section under the client's lock is one step, and so is each action between two
    sections; steps of different threads interleave freely. irc-go, the network and the clock are
    an environment that may choose any enabled step. */
module Lifecycle {
  import opened Options

  // seconds, as in connection.go
  const RETRY_UNIT: nat := 15
  const STABLE_AFTER: nat := 300
  const BACKOFF_CAP: nat := 20

  function Backoff(retries: nat): nat {
    RETRY_UNIT * (if retries > BACKOFF_CAP then BACKOFF_CAP else retries)
  }

  datatype Msg = Connecting | Connected | Reconnecting(delay: nat) | Closing | Failed(text: string)
  datatype Status = Status(connected: bool, msg: Msg)

  /** The fields of IRCClient that the lifecycle uses. An attempt is named by its number; its
      connection, socket, sender and done channel are named by the same number. */
  datatype Client = Client(
    quitting: bool,
    stopped: string,
    gaveUp: string,
    conn: Option<nat>,
    socket: Option<nat>,
    attemptDone: Option<nat>,
    registered: bool,
    connected: bool,
    msg: Msg,
    retries: nat,
    welcomedAt: Option<nat>,
    timer: Option<nat>)
  {
    function Current(): Status {
      Status(connected, msg)
    }
  }

  // ----- the sections that run with the client locked -----

  function BeginAttempt(c: Client, k: nat): Client {
    c.(conn := Some(k), socket := None, attemptDone := Some(k), gaveUp := "",
       welcomedAt := None, registered := false)
  }

  predicate Refused(c: Client, k: nat) {
    c.conn != Some(k) || c.quitting
  }

  function Attach(c: Client, k: nat): Client {
    c.(socket := Some(k), connected := true, msg := Connected)
  }

  function FinishSetup(c: Client): Client {
    c.(registered := true)
  }

  function Detach(c: Client): Client {
    c.(conn := None, socket := None, registered := false)
  }

  /** What the ended attempt's disconnect status says. */
  function EndText(c: Client, text: string): string {
    if c.stopped != "" then c.stopped else if c.gaveUp != "" then c.gaveUp else text
  }

  /** Why the current attempt was ended by a handler, or "". */
  function Reason(c: Client): string {
    if c.stopped != "" then c.stopped else c.gaveUp
  }

  function SetStatus(c: Client, connected: bool, msg: Msg): Client {
    c.(connected := connected, msg := msg)
  }

  predicate Final(c: Client) {
    c.quitting || c.stopped != ""
  }

  predicate Stable(c: Client, now: nat) {
    c.welcomedAt.Some? && now - c.welcomedAt.value >= STABLE_AFTER
  }

  function NextRetries(c: Client, now: nat): nat {
    (if Stable(c, now) then 0 else c.retries) + 1
  }

  function Schedule(c: Client, now: nat, timer: nat): Client {
    var n := NextRetries(c, now);
    c.(retries := n, timer := Some(timer), connected := false, msg := Reconnecting(Backoff(n)))
  }

  function Quit(c: Client): Client {
    c.(quitting := true, msg := Closing)
  }

  datatype Handler = Welcome | Stop(reason: string) | GiveUp(reason: string) | Other

  /** What a handler changes of these fields; closing the socket is the step's. */
  function Handle(c: Client, h: Handler, now: nat): Client {
    match h
    case Welcome => c.(welcomedAt := Some(now))
    case Stop(r) => c.(stopped := r)
    case GiveUp(r) => c.(gaveUp := r)
    case Other => c
  }

  // ----- threads -----

  /** What a status being published is for: attempt k is up, its end, its reconnect, or Destroy. */
  datatype Purpose = Up(k: nat) | Down(k: nat) | Retry(k: nat) | Bye(done: Option<nat>)

  datatype Pc =
    // connect, and the dial hook on the same goroutine
    | ConnectCs(entered: bool)
    | Dialing(k: nat)
    | HookMu(k: nat)
    | HookCs(k: nat, entered: bool)
    | HookRefuse(k: nat)
    | HookStore(k: nat, status: Status)
    | Registering(k: nat)
    | SetupCs(k: nat, entered: bool)
    // endAttempt
    | EndSwap(k: nat, text: string)
    | DetachCs(k: nat, text: string, entered: bool)
    | Shut(k: nat, text: string, sock: Option<nat>)
    | FailMu(k: nat, text: string)
    | FailCs(k: nat, text: string, entered: bool)
    | DecideMu(k: nat)
    | DecideCs(k: nat, entered: bool)
    | CloseDone(k: nat)
    // the sink call, with statusMu held
    | Publish(status: Status, purpose: Purpose)
    // the reconnect timer and its function
    | Armed(k: nat, due: nat)
    | AwaitDone(k: nat)
    // a handler
    | HandlerCs(k: nat, h: Handler, entered: bool)
    // Destroy
    | QuitMu
    | QuitCs(entered: bool)
    | Waiting(done: Option<nat>, patient: bool)
    | GraceCs(k: nat, entered: bool)
    | CloseSock(k: nat, sock: Option<nat>)
    | Swap
    | Returned
    | Finished

  predicate InSection(pc: Pc) {
    pc.ConnectCs? || pc.HookCs? || pc.SetupCs? || pc.DetachCs? || pc.FailCs? || pc.DecideCs?
    || pc.HandlerCs? || pc.QuitCs? || pc.GraceCs?
  }

  predicate WantsLock(pc: Pc) { InSection(pc) && !pc.entered }

  predicate HoldsLock(pc: Pc) { InSection(pc) && pc.entered }

  predicate WantsMu(pc: Pc) { pc.HookMu? || pc.FailMu? || pc.DecideMu? || pc.QuitMu? }

  predicate HoldsMu(pc: Pc) {
    pc.HookCs? || pc.HookRefuse? || pc.HookStore? || pc.FailCs? || pc.DecideCs? || pc.QuitCs? || pc.Publish?
  }

  // ----- the whole state -----

  datatype Socket = NoSocket | Open | Closed

  /** Where an attempt is: the client's, being ended by thread `ender` (which has armed the timer if
      `scheduled`), or over, its done channel closed. */
  datatype Stage = Live | Ending(ender: nat, scheduled: bool) | Ended

  /** `runner` is the thread in connect for it; `dialed` is set once its dial has returned. */
  datatype Attempt = Attempt(runner: nat, dialed: bool, sock: Socket, stage: Stage, closes: nat, joins: nat)

  /** A published status and the attempt it is about (none for Destroy's and the first). */
  datatype Entry = Entry(status: Status, attempt: Option<nat>)

  /** `cont`, `attempts[..].stage`, `streak` and `since` only record history: the thread that may
      start the next attempt, and the delays scheduled since the last reset, which was at `since`. */
  datatype State = State(
    now: nat,
    c: Client,
    sender: Option<nat>,
    statusMu: Option<nat>,
    lock: Option<nat>,
    threads: seq<Pc>,
    attempts: seq<Attempt>,
    log: seq<Entry>,
    started: bool,
    cont: Option<nat>,
    streak: seq<nat>,
    since: nat)

  function Init(): State {
    var c := Client(false, "", "", None, None, None, false, false, Connecting, 0, None, None);
    State(0, c, None, None, None, [], [], [Entry(c.Current(), None)], false, None, [], 0)
  }

  predicate IsThread(s: State, i: nat) { i < |s.threads| }

  predicate IsAttempt(s: State, k: nat) { k < |s.attempts| }

  function Goto(s: State, i: nat, pc: Pc): State
    requires IsThread(s, i)
  {
    s.(threads := s.threads[i := pc])
  }

  function WithAttempt(s: State, k: nat, a: Attempt): State
    requires IsAttempt(s, k)
  {
    s.(attempts := s.attempts[k := a])
  }

  function CloseSocket(s: State, sock: Option<nat>): State {
    if sock.Some? && IsAttempt(s, sock.value) then
      WithAttempt(s, sock.value, s.attempts[sock.value].(sock := Closed))
    else s
  }

  // ----- one step of each kind -----

  function TakeLock(s: State, i: nat): State
    requires IsThread(s, i) && WantsLock(s.threads[i])
  {
    Goto(s.(lock := Some(i)), i, s.threads[i].(entered := true))
  }

  function AfterMu(pc: Pc): Pc
    requires WantsMu(pc)
  {
    match pc
    case HookMu(k) => HookCs(k, false)
    case FailMu(k, text) => FailCs(k, text, false)
    case DecideMu(k) => DecideCs(k, false)
    case QuitMu => QuitCs(false)
  }

  function TakeMu(s: State, i: nat): State
    requires IsThread(s, i) && WantsMu(s.threads[i])
  {
    Goto(s.(statusMu := Some(i)), i, AfterMu(s.threads[i]))
  }

  function ConnectBody(s: State, i: nat): State
    requires IsThread(s, i)
  {
    if s.c.quitting then Goto(s.(lock := None, cont := None), i, Finished)
    else
      var k := |s.attempts|;
      Goto(s.(c := BeginAttempt(s.c, k), attempts := s.attempts + [Attempt(i, false, NoSocket, Live, 0, 0)],
              cont := None, lock := None), i, Dialing(k))
  }

  function HookBody(s: State, i: nat, k: nat): State
    requires IsThread(s, i)
  {
    if Refused(s.c, k) then Goto(s.(lock := None), i, HookRefuse(k))
    else
      var c := Attach(s.c, k);
      Goto(s.(c := c, lock := None), i, HookStore(k, c.Current()))
  }

  function HookRefusal(s: State, i: nat, k: nat): State
    requires IsThread(s, i) && IsAttempt(s, k)
  {
    Goto(WithAttempt(s, k, s.attempts[k].(sock := Closed, dialed := true)).(statusMu := None), i, Registering(k))
  }

  function SetupBody(s: State, i: nat, k: nat): State
    requires IsThread(s, i) && IsAttempt(s, k)
  {
    var s1 := if s.c.conn != Some(k) then s
              else WithAttempt(s, k, s.attempts[k].(joins := s.attempts[k].joins + 1)).(c := FinishSetup(s.c));
    Goto(s1.(lock := None), i, Finished)
  }

  function SwapOut(s: State, i: nat, k: nat, text: string): State
    requires IsThread(s, i)
  {
    Goto(s.(sender := if s.sender == Some(k) then None else s.sender), i, DetachCs(k, text, false))
  }

  function DetachBody(s: State, i: nat, k: nat, text: string): State
    requires IsThread(s, i) && IsAttempt(s, k)
  {
    if s.c.conn != Some(k) then Goto(s.(lock := None), i, Finished)
    else
      Goto(WithAttempt(s, k, s.attempts[k].(stage := Ending(i, false))).(c := Detach(s.c), lock := None),
           i, Shut(k, EndText(s.c, text), s.c.socket))
  }

  function FailBody(s: State, i: nat, k: nat, text: string): State
    requires IsThread(s, i)
  {
    var c := SetStatus(s.c, false, Failed(text));
    Goto(s.(c := c, lock := None), i, Publish(c.Current(), Down(k)))
  }

  function DecideBody(s: State, i: nat, k: nat): State
    requires IsThread(s, i) && IsAttempt(s, k)
  {
    if Final(s.c) then Goto(s.(lock := None, statusMu := None), i, CloseDone(k))
    else
      var t := |s.threads|;
      var c := Schedule(s.c, s.now, t);
      var delay := Backoff(c.retries);
      var s1 := WithAttempt(s, k, s.attempts[k].(stage := Ending(i, true)));
      Goto(s1.(c := c, lock := None, cont := Some(t), threads := s.threads + [Armed(k, s.now + delay)],
               streak := (if Stable(s.c, s.now) then [] else s.streak) + [delay],
               since := if Stable(s.c, s.now) || s.streak == [] then s.now else s.since),
           i, Publish(c.Current(), Retry(k)))
  }

  function CloseBody(s: State, i: nat, k: nat): State
    requires IsThread(s, i) && IsAttempt(s, k)
  {
    Goto(WithAttempt(s, k, s.attempts[k].(closes := s.attempts[k].closes + 1, stage := Ended)), i, Finished)
  }

  function AttemptOf(p: Purpose): Option<nat> {
    if p.Bye? then None else Some(p.k)
  }

  function AfterPublish(p: Purpose): Pc {
    match p
    case Up(k) => Registering(k)
    case Down(k) => DecideMu(k)
    case Retry(k) => CloseDone(k)
    case Bye(done) => Waiting(done, true)
  }

  function PublishBody(s: State, i: nat, status: Status, p: Purpose): State
    requires IsThread(s, i) && (p.Up? ==> IsAttempt(s, p.k))
  {
    var s1 := if p.Up? then WithAttempt(s, p.k, s.attempts[p.k].(dialed := true)) else s;
    Goto(s1.(log := s.log + [Entry(status, AttemptOf(p))], statusMu := None), i, AfterPublish(p))
  }

  /** A handler for attempt k, which run ignores when k's connection is no longer the client's. */
  function HandlerBody(s: State, i: nat, k: nat, h: Handler): State
    requires IsThread(s, i)
  {
    var s1 := if s.c.conn != Some(k) then s
              else (if h.Stop? || h.GiveUp? then CloseSocket(s, s.c.socket) else s).(c := Handle(s.c, h, s.now));
    Goto(s1.(lock := None), i, Finished)
  }

  predicate TimerArmed(s: State) {
    s.c.timer.Some? && IsThread(s, s.c.timer.value) && s.threads[s.c.timer.value].Armed?
  }

  function QuitBody(s: State, i: nat): State
    requires IsThread(s, i)
  {
    var s1 := if TimerArmed(s) then Goto(s, s.c.timer.value, Finished).(cont := None) else s;
    var c := Quit(s.c);
    Goto(s1.(c := c, lock := None), i, Publish(c.Current(), Bye(c.attemptDone)))
  }

  predicate DoneClosed(s: State, done: Option<nat>) {
    done.Some? ==> IsAttempt(s, done.value) && s.attempts[done.value].closes > 0
  }

  /** Whether thread i's own next step is enabled. */
  predicate CanGo(s: State, i: nat)
    requires IsThread(s, i)
  {
    var pc := s.threads[i];
    match pc
    case Dialing(_) => false
    case Registering(_) => false
    case Finished => false
    case Returned => false
    case Armed(_, due) => s.now >= due
    case AwaitDone(k) => DoneClosed(s, Some(k))
    case Waiting(done, _) => DoneClosed(s, done)
    case _ => (WantsLock(pc) ==> s.lock == None) && (WantsMu(pc) ==> s.statusMu == None)
  }

  /** The attempt a thread's step needs to exist; the invariant says it always does. */
  predicate KnowsAttempt(s: State, pc: Pc) {
    match pc
    case HookRefuse(k) => IsAttempt(s, k)
    case SetupCs(k, _) => IsAttempt(s, k)
    case DetachCs(k, _, _) => IsAttempt(s, k)
    case DecideCs(k, _) => IsAttempt(s, k)
    case CloseDone(k) => IsAttempt(s, k)
    case Publish(_, p) => p.Up? ==> IsAttempt(s, p.k)
    case _ => true
  }

  function Go(s: State, i: nat): State
    requires IsThread(s, i) && CanGo(s, i) && KnowsAttempt(s, s.threads[i])
  {
    var pc := s.threads[i];
    if WantsLock(pc) then TakeLock(s, i)
    else if WantsMu(pc) then TakeMu(s, i)
    else
      match pc
      case ConnectCs(_) => ConnectBody(s, i)
      case HookCs(k, _) => HookBody(s, i, k)
      case HookRefuse(k) => HookRefusal(s, i, k)
      case HookStore(k, status) => Goto(s.(sender := Some(k)), i, Publish(status, Up(k)))
      case SetupCs(k, _) => SetupBody(s, i, k)
      case EndSwap(k, text) => SwapOut(s, i, k, text)
      case DetachCs(k, text, _) => DetachBody(s, i, k, text)
      case Shut(k, text, sock) => Goto(CloseSocket(s, sock), i, FailMu(k, text))
      case FailCs(k, text, _) => FailBody(s, i, k, text)
      case DecideCs(k, _) => DecideBody(s, i, k)
      case CloseDone(k) => CloseBody(s, i, k)
      case Publish(status, p) => PublishBody(s, i, status, p)
      case Armed(k, _) => Goto(s, i, AwaitDone(k))
      case AwaitDone(_) => Goto(s, i, ConnectCs(false))
      case HandlerCs(k, h, _) => HandlerBody(s, i, k, h)
      case QuitCs(_) => QuitBody(s, i)
      case Waiting(_, _) => Goto(s, i, Swap)
      case GraceCs(k, _) => Goto(s.(lock := None), i, CloseSock(k, s.c.socket))
      case CloseSock(k, sock) => Goto(CloseSocket(s, sock), i, Waiting(Some(k), false))
      case Swap => Goto(s.(sender := None), i, Returned)
  }

  // ----- the transition system -----

  datatype Step =
    // a thread's own step
    | Run(i: nat)
    // irc-go and the network, on thread i's behalf
    | DialUp(i: nat)
    | DialFail(i: nat, text: string)
    | ConnectOk(i: nat)
    | ConnectErr(i: nat, text: string)
    // destroyTimeout passes while thread i waits
    | GracePasses(i: nat)
    // irc-go's disconnect callback for attempt k, and a message on its connection
    | Report(k: nat, text: string)
    | Deliver(k: nat, h: Handler)
    // the API and the clock
    | Start
    | Destroy
    | Tick

  predicate Enabled(s: State, step: Step) {
    match step
    case Run(i) => IsThread(s, i) && CanGo(s, i) && KnowsAttempt(s, s.threads[i])
    case DialUp(i) => IsThread(s, i) && s.threads[i].Dialing? && IsAttempt(s, s.threads[i].k)
    case DialFail(i, _) => IsThread(s, i) && s.threads[i].Dialing? && IsAttempt(s, s.threads[i].k)
    case ConnectOk(i) => IsThread(s, i) && s.threads[i].Registering?
    case ConnectErr(i, _) => IsThread(s, i) && s.threads[i].Registering?
    case GracePasses(i) => IsThread(s, i) && s.threads[i].Waiting? && s.threads[i].patient && s.threads[i].done.Some?
    case Report(k, _) => IsAttempt(s, k) && s.attempts[k].dialed
    case Deliver(k, h) => IsAttempt(s, k) && s.attempts[k].dialed && (h.Stop? || h.GiveUp? ==> h.reason != "")
    case Start => !s.started
    case Destroy => true
    case Tick => true
  }

  function Spawn(s: State, pc: Pc): State {
    s.(threads := s.threads + [pc])
  }

  function Apply(s: State, step: Step): State
    requires Enabled(s, step)
  {
    match step
    case Run(i) => Go(s, i)
    case DialUp(i) =>
      var k := s.threads[i].k;
      Goto(WithAttempt(s, k, s.attempts[k].(sock := Open)), i, HookMu(k))
    case DialFail(i, text) =>
      var k := s.threads[i].k;
      Goto(WithAttempt(s, k, s.attempts[k].(dialed := true)), i, EndSwap(k, text))
    case ConnectOk(i) => Goto(s, i, SetupCs(s.threads[i].k, false))
    case ConnectErr(i, text) => Goto(s, i, EndSwap(s.threads[i].k, text))
    case GracePasses(i) => Goto(s, i, GraceCs(s.threads[i].done.value, false))
    case Report(k, text) => Spawn(s, EndSwap(k, text))
    case Deliver(k, h) => Spawn(s, HandlerCs(k, h, false))
    case Start => Spawn(s, ConnectCs(false)).(started := true, cont := Some(|s.threads|))
    case Destroy => Spawn(s, QuitMu)
    case Tick => s.(now := s.now + 1)
  }

  ghost predicate ValidRun(s: State, steps: seq<Step>)
    decreases |steps|
  {
    steps == [] || (Enabled(s, steps[0]) && ValidRun(Apply(s, steps[0]), steps[1..]))
  }

  ghost function Exec(s: State, steps: seq<Step>): State
    requires ValidRun(s, steps)
    decreases |steps|
  {
    if steps == [] then s else Exec(Apply(s, steps[0]), steps[1..])
  }

  ghost predicate Reachable(s: State) {
    exists steps :: ValidRun(Init(), steps) && Exec(Init(), steps) == s
  }
}
