/** The sections of connection.go and events.go that run with the client locked, updating it in
    place; each is one of the steps of the lifecycle. */
module Connection {
  import opened Options
  import opened Lifecycle

  /** The reconnect timer: stopping it keeps its function from starting, if it has not yet. */
  class Timer {
    const id: nat
    var armed: bool

    constructor (id: nat)
      ensures this.id == id && armed
    {
      this.id, armed := id, true;
    }
  }

  class IRCClient {
    const configNick: string
    var quitting: bool
    var stopped: string
    var gaveUp: string
    var conn: Option<nat>
    var socket: Option<nat>
    var attemptDone: Option<nat>
    var registered: bool
    var connected: bool
    var statusMessage: Msg
    var retries: nat
    var welcomedAt: Option<nat>
    var timer: Timer?
    // what the lifecycle does not depend on: the current dial's cancel, and the nick requests
    var cancelDial: Option<nat>
    var requestedNick: string
    var regNick: string
    var regTries: nat

    function View(): Client
      reads `quitting, `stopped, `gaveUp, `conn, `socket, `attemptDone
      reads `registered, `connected, `statusMessage, `retries, `welcomedAt, `timer
    {
      Client(quitting, stopped, gaveUp, conn, socket, attemptDone, registered, connected, statusMessage,
             retries, welcomedAt, if timer == null then None else Some(timer.id))
    }

    constructor (configNick: string)
      ensures View() == Init().c && cancelDial == None
    {
      this.configNick := configNick;
      cancelDial, requestedNick, regNick, regTries := None, "", "", 0;
      quitting, stopped, gaveUp := false, "", "";
      conn, socket, attemptDone := None, None, None;
      registered, connected, statusMessage := false, false, Connecting;
      retries, welcomedAt, timer := 0, None, null;
    }

    /** connect's part for the dial and the nicks asked for. */
    method BeginRequests(k: nat)
      modifies `cancelDial, `requestedNick, `regNick, `regTries
      ensures cancelDial == Some(k) && requestedNick == "" && regNick == configNick && regTries == 0
    {
      cancelDial := Some(k);
      requestedNick := "";
      regNick := configNick;
      regTries := 0;
    }

    /** connect's part for the attempt itself. */
    method BeginFields(k: nat)
      modifies `conn, `socket, `attemptDone, `gaveUp, `welcomedAt, `registered
      ensures View() == BeginAttempt(old(View()), k)
      ensures conn == attemptDone == Some(k) && socket == None && welcomedAt == None && gaveUp == "" && !registered
    {
      conn := Some(k);
      socket := None;
      attemptDone := Some(k);
      gaveUp := "";
      welcomedAt := None;
      registered := false;
    }

    /** connect, up to the dial: attempt k becomes the client's, unless it is quitting. */
    method Connect(k: nat) returns (started: bool)
      modifies this
      ensures started == !old(quitting)
      ensures View() == if started then BeginAttempt(old(View()), k) else old(View())
      ensures started ==>
        conn == attemptDone == Some(k) && socket == None && welcomedAt == None && gaveUp == "" && !registered
      ensures started ==> cancelDial == Some(k) && requestedNick == "" && regNick == configNick && regTries == 0
      ensures !started ==> unchanged(this)
    {
      if quitting {
        return false;
      }
      BeginFields(k);
      BeginRequests(k);
      return true;
    }

    /** onConnected's section: attach the socket and decide to publish "Connected". */
    method OnConnected(k: nat) returns (status: Option<Status>)
      modifies this
      ensures status.None? <==> Refused(old(View()), k)
      ensures status.None? <==> old(conn) != Some(k) || old(quitting)
      ensures View() == if status.None? then old(View()) else Attach(old(View()), k)
      ensures status.Some? ==> socket == Some(k) && status.value == View().Current() == Status(true, Connected)
    {
      if conn != Some(k) || quitting {
        return None;
      }
      socket := Some(k);
      connected := true;
      statusMessage := Connected;
      return Some(Status(connected, statusMessage));
    }

    /** connect's last section: set up the connection if it is still the client's. */
    method SetUp(k: nat) returns (joins: bool)
      modifies this
      ensures joins == (old(conn) == Some(k))
      ensures View() == if joins then FinishSetup(old(View())) else old(View())
      ensures joins ==> registered
    {
      if conn == Some(k) {
        registered := true;
        return true;
      }
      return false;
    }

    /** endAttempt's first section: take the attempt from the client, once. */
    method TakeAttempt(k: nat, text: string) returns (taken: bool, msg: string, sock: Option<nat>)
      modifies this
      ensures taken == (old(conn) == Some(k))
      ensures View() == if taken then Detach(old(View())) else old(View())
      ensures taken ==> conn == socket == cancelDial == None && !registered && sock == old(socket)
      ensures taken ==> msg == EndText(old(View()), text)
      ensures taken ==> msg == (if old(stopped) != "" then old(stopped) else if old(gaveUp) != "" then old(gaveUp) else text)
      ensures !taken ==> unchanged(this)
    {
      if conn != Some(k) {
        return false, "", None;
      }
      sock := socket;
      conn := None;
      socket := None;
      cancelDial := None;
      registered := false;
      msg := text;
      if stopped != "" {
        msg := stopped;
      } else if gaveUp != "" {
        msg := gaveUp;
      }
      taken := true;
    }

    /** setStatus's section. */
    method UpdateStatus(isConnected: bool, msg: Msg) returns (status: Status)
      modifies this
      ensures View() == Lifecycle.SetStatus(old(View()), isConnected, msg)
      ensures status == View().Current() == Status(isConnected, msg)
    {
      connected := isConnected;
      statusMessage := msg;
      status := Status(connected, statusMessage);
    }

    /** endAttempt's second section: schedule the next attempt with a new timer, or end for good. */
    method ScheduleNext(now: nat, newTimer: nat) returns (delay: Option<nat>)
      modifies this
      ensures delay.None? <==> Final(old(View()))
      ensures delay.None? <==> old(quitting) || old(stopped) != ""
      ensures View() == if delay.None? then old(View()) else Schedule(old(View()), now, newTimer)
      ensures delay.Some? ==>
        retries == (if old(welcomedAt).Some? && now - old(welcomedAt).value >= 300 then 1 else old(retries) + 1)
      ensures delay.Some? ==> delay.value == if retries <= 20 then 15 * retries else 300
      ensures delay.Some? ==> !connected && statusMessage == Reconnecting(delay.value)
      ensures delay.Some? ==> timer != null && fresh(timer) && timer.armed
    {
      if quitting || stopped != "" {
        return None;
      }
      if welcomedAt.Some? && now - welcomedAt.value >= STABLE_AFTER {
        retries := 0;
      }
      retries := retries + 1;
      var wait := Backoff(retries);
      timer := new Timer(newTimer);
      connected := false;
      statusMessage := Reconnecting(wait);
      return Some(wait);
    }

    /** Destroy's section: no attempt starts from here on, also not from the timer, if that has not fired.
        What it has to cancel and to wait for is the current attempt's. */
    method BeginDestroy() returns (current: Option<nat>, done: Option<nat>, cancel: Option<nat>, status: Status)
      modifies this`quitting, this`statusMessage, timer
      ensures View() == Quit(old(View()))
      ensures quitting && statusMessage == Closing && (timer != null ==> !timer.armed)
      ensures current == conn && done == attemptDone && cancel == cancelDial && status == View().Current()
    {
      quitting := true;
      if timer != null {
        timer.armed := false;
      }
      current, done, cancel := conn, attemptDone, cancelDial;
      statusMessage := Closing;
      status := Status(connected, statusMessage);
    }

    /** run, for the handlers that end or welcome an attempt; closes is whether the socket is closed. */
    method RunHandler(k: nat, h: Handler, now: nat) returns (closes: bool)
      modifies this
      ensures View() == if old(conn) == Some(k) then Handle(old(View()), h, now) else old(View())
      ensures old(conn) == Some(k) ==>
        && welcomedAt == (if h.Welcome? then Some(now) else old(welcomedAt))
        && stopped == (if h.Stop? then h.reason else old(stopped))
        && gaveUp == (if h.GiveUp? then h.reason else old(gaveUp))
      ensures closes == (old(conn) == Some(k) && (h.Stop? || h.GiveUp?) && old(socket).Some?)
    {
      if conn != Some(k) {
        return false;
      }
      match h {
        case Welcome => welcomedAt := Some(now);
        case Stop(reason) => stopped := reason;
        case GiveUp(reason) => gaveUp := reason;
        case Other =>
      }
      closes := (h.Stop? || h.GiveUp?) && socket.Some?;
    }
  }

  /** So with BeginDestroy's section the lifecycle's timer is stopped too. */
  lemma QuitStopsTheTimer(s: State, i: nat)
    requires IsThread(s, i) && s.threads[i] == QuitCs(true)
    ensures QuitBody(s, i).c == Quit(s.c) && !TimerArmed(QuitBody(s, i))
    ensures QuitBody(s, i).threads[i] == Publish(Quit(s.c).Current(), Bye(s.c.attemptDone))
  {}
}
