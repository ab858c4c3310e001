/** The logger: messages from liercd stored in the log table and published again, under redelivery. */
module Logging {
  import opened Options
  import opened Text

  datatype Prefix = Prefix(name: string, self: bool)

  datatype Message = Message(
    prefix: Prefix,
    tags: set<string>,
    command: string,
    params: seq<string>,
    direct: bool,
    time: real
  )

  // ----- classification -----

  datatype Kind = Pass | Skip | Target | Status

  /** How a message is handled: under what channel it is stored, if it is, and whether it is private. */
  datatype Route = Route(kind: Kind, channel: string, private: bool)

  const STATUS_CHANNEL := "status"

  const TARGETS: set<string> := {"PRIVMSG", "JOIN", "PART", "TOPIC", "MODE"}

  const STATUSES: set<string> := {
    "ERROR", "CONNECT", "DISCONNECT",
    "001", "002", "003", "004", "005",
    "250", "251", "252", "253", "254", "255", "265", "266",
    "372", "375", "376"
  }

  predicate IsReaction(m: Message) {
    "+draft/react" in m.tags || "+draft/unreact" in m.tags
  }

  /** None: the first character of an empty command is asked for, and the handler panics. */
  function LogType(m: Message): Option<Kind> {
    if m.command == "TAGMSG" then Some(if IsReaction(m) then Target else Pass)
    else if m.command in TARGETS then Some(Target)
    else if m.command == "NOTICE" then Some(if m.direct then Target else Status)
    else if m.command == "NICK" || m.command == "QUIT" then Some(Skip)
    else if m.command in STATUSES then Some(Status)
    else if m.command == "" then None
    else if m.command[0] == '4' || m.command[0] == '5' || m.command[0] == '9' then Some(Status)
    else Some(Pass)
  }

  predicate FromOther(m: Message) {
    m.direct && !m.prefix.self
  }

  /** None likewise, or for a missing first parameter. */
  function RouteChat(m: Message): Option<Route> {
    match LogType(m)
    case None => None
    case Some(Target) =>
      if FromOther(m) then Some(Route(Target, m.prefix.name, true))
      else if m.params == [] then None
      else Some(Route(Target, m.params[0], false))
    case Some(Status) => Some(Route(Status, STATUS_CHANNEL, false))
    case Some(kind) => Some(Route(kind, "", false))
  }

  /** The messages that are stored under the channel or nick they were sent to. */
  predicate ByTarget(m: Message) {
    m.command in {"PRIVMSG", "JOIN", "PART", "TOPIC", "MODE"}
    || (m.command == "TAGMSG" && ("+draft/react" in m.tags || "+draft/unreact" in m.tags))
    || (m.command == "NOTICE" && m.direct)
  }

  /** Errors, and SASL. */
  predicate IsErrorNumeric(command: string) {
    command != "" && (command[0] == '4' || command[0] == '5' || command[0] == '9')
  }

  /** The messages that the classification panics on. */
  lemma RoutesExactly(m: Message)
    ensures RouteChat(m).None? <==> m.command == "" || (m.params == [] && !FromOther(m) && ByTarget(m))
  {
    assert forall c :: c in STATUSES ==> c !in TARGETS && c != "TAGMSG" && c != "NOTICE" && c != "";
  }

  /** One of them: a PRIVMSG without parameters, not sent to us. */
  lemma PanicsOnBarePrivmsg()
    ensures RouteChat(Message(Prefix("a", false), {}, "PRIVMSG", [], false, 0.0)) == None
  {
    RoutesExactly(Message(Prefix("a", false), {}, "PRIVMSG", [], false, 0.0));
  }

  /** What each of the other messages is routed as. */
  lemma KindsOfRoutes(m: Message)
    requires RouteChat(m).Some?
    ensures var r := RouteChat(m).value;
            && (r.kind == Target <==> ByTarget(m))
            && (r.kind == Skip <==> m.command == "NICK" || m.command == "QUIT")
            && (r.kind == Status <==>
                  (m.command == "NOTICE" && !m.direct) || m.command in STATUSES || IsErrorNumeric(m.command))
            && (r.kind == Pass <==> r.kind != Target && r.kind != Skip && r.kind != Status)
            && (r.private <==> r.kind == Target && FromOther(m))
            && (r.kind == Target && r.private ==> r.channel == m.prefix.name)
            && (r.kind == Target && !r.private ==> m.params != [] && r.channel == m.params[0])
            && (r.kind == Status ==> r.channel == STATUS_CHANNEL)
  {
    KindsOfTypes(m);
  }

  lemma KindsOfTypes(m: Message)
    requires LogType(m).Some?
    ensures LogType(m) == Some(Target) <==> ByTarget(m)
    ensures LogType(m) == Some(Skip) <==> m.command == "NICK" || m.command == "QUIT"
    ensures LogType(m) == Some(Status) <==>
              (m.command == "NOTICE" && !m.direct) || m.command in STATUSES || IsErrorNumeric(m.command)
  {
    CommandsApart(m.command);
  }

  lemma CommandsApart(c: string)
    ensures c in TARGETS || c in {"TAGMSG", "NOTICE", "NICK", "QUIT"} ==> c !in STATUSES && !IsErrorNumeric(c)
    ensures c in {"TAGMSG", "NOTICE", "NICK", "QUIT"} ==> c !in TARGETS
  {}

  // ----- the store and the topics -----

  datatype Row = Row(
    id: nat,
    user: string,
    connection: string,
    channel: string,
    command: string,
    message: Message,
    highlight: bool
  )

  datatype Topic = Logged | Highlight

  /** One message handed to nsqd, whether it takes it or not. */
  datatype Publication = Publication(topic: Topic, connection: string, message: Message, id: nat, highlight: bool)

  datatype World = World(
    rows: seq<Row>,
    lastId: nat,
    privates: map<(string, string), real>,
    published: seq<Publication>
  )

  /** What a delivery meets: the connections in the database, with their users; the store calls that
      fail; how many ids other inserts take before each of its rows; and whether the message is a
      highlight just then. */
  datatype Delivery = Delivery(
    connections: map<string, string>,
    privateFails: bool,
    insertFails: bool,
    gaps: seq<nat>,
    highlight: bool
  )

  /** What a consumer is handed. */
  datatype Body = Unreadable | NoMessage | Chat(id: string, m: Message) | Multi(id: string, m: Message, channels: seq<string>)

  /** How a handler ends: done with the message, with an error that has it delivered again, or not at all. */
  datatype Outcome = Finished | Failed | Panicked

  /** The id of the i-th row of a delivery. */
  function IdAt(last: nat, gaps: seq<nat>, i: nat): (id: nat)
    ensures id > last
  {
    (if i == 0 then last else IdAt(last, gaps, i - 1)) + 1 + (if i < |gaps| then gaps[i] else 0)
  }

  lemma {:induction false} IdsAreApart(last: nat, gaps: seq<nat>, i: nat, j: nat)
    requires i < j
    ensures IdAt(last, gaps, i) < IdAt(last, gaps, j)
  {
    if i + 1 < j {
      IdsAreApart(last, gaps, i, j - 1);
    }
  }

  function NewRow(w: World, d: Delivery, i: nat, connection: string, m: Message, channel: string, highlight: bool): Row
    requires connection in d.connections
  {
    Row(IdAt(w.lastId, d.gaps, i), d.connections[connection], connection, Lower(channel), Upper(m.command), m, highlight)
  }

  function Insert(w: World, row: Row): World {
    w.(rows := w.rows + [row], lastId := row.id)
  }

  /** One row for each channel, in order, with ids that grow. */
  function InsertAll(w: World, d: Delivery, connection: string, m: Message, channels: seq<string>): World
    requires connection in d.connections
  {
    if channels == [] then w
    else
      var n := |channels| - 1;
      Insert(InsertAll(w, d, connection, m, channels[..n]), NewRow(w, d, n, connection, m, channels[n], false))
  }

  function Publish(w: World, connection: string, m: Message, id: nat, highlight: bool): World {
    var logged := [Publication(Logged, connection, m, id, highlight)];
    var more := if highlight || FromOther(m) then [Publication(Highlight, connection, m, id, highlight)] else [];
    w.(published := w.published + (logged + more))
  }

  /** The part of handleChat after the private message is recorded. */
  function StoreChat(w: World, id: string, m: Message, channel: string, d: Delivery): (World, Outcome) {
    if d.insertFails then (w, Failed)
    else if id in d.connections then
      var row := NewRow(w, d, 0, id, m, channel, d.highlight);
      (Publish(Insert(w, row), id, m, row.id, d.highlight), Finished)
    else (Publish(w, id, m, 0, d.highlight), Finished)
  }

  function OnChat(w: World, id: string, m: Message, d: Delivery): (World, Outcome) {
    match RouteChat(m)
    case None => (w, Panicked)
    case Some(r) =>
      if r.kind == Skip then (w, Finished)
      else if r.kind == Pass then (Publish(w, id, m, 0, false), Finished)
      else if !r.private then StoreChat(w, id, m, r.channel, d)
      else if d.privateFails then (w, Failed)
      else StoreChat(w.(privates := w.privates[(id, r.channel) := m.time]), id, m, r.channel, d)
  }

  function OnMulti(w: World, id: string, m: Message, channels: seq<string>, d: Delivery): (World, Outcome) {
    if channels == [] then (Publish(w, id, m, 0, false), Finished)
    else if d.insertFails then (w, Failed)
    else if id in d.connections then
      var stored := InsertAll(w, d, id, m, channels);
      (Publish(stored, id, m, stored.lastId, false), Finished)
    else (Publish(w, id, m, 0, false), Finished)
  }

  function Handle(w: World, body: Body, d: Delivery): (World, Outcome) {
    match body
    case Unreadable => (w, Finished)
    case NoMessage => (w, Finished)
    case Chat(id, m) => OnChat(w, id, m, d)
    case Multi(id, m, channels) => OnMulti(w, id, m, channels, d)
  }

  // ----- the logger itself -----

  datatype Inserted = InsertedAs(id: nat) | NoConnection | StoreError

  /** The rows of a NICK or QUIT: one for each channel, in order. */
  function NewRows(last: nat, d: Delivery, connection: string, m: Message, channels: seq<string>): seq<Row>
    requires connection in d.connections
  {
    seq(|channels|, i requires 0 <= i < |channels| =>
      Row(IdAt(last, d.gaps, i), d.connections[connection], connection, Lower(channels[i]), Upper(m.command), m, false))
  }

  class Store {
    var rows: seq<Row>
    var lastId: nat
    var privates: map<(string, string), real>

    constructor ()
      ensures rows == [] && lastId == 0 && privates == map[]
    {
      rows, lastId, privates := [], 0, map[];
    }

    method InsertMessage(connection: string, m: Message, channel: string, highlight: bool, d: Delivery)
        returns (r: Inserted)
      modifies this`rows, this`lastId
      ensures r == if d.insertFails then StoreError
                   else if connection in d.connections then InsertedAs(IdAt(old(lastId), d.gaps, 0))
                   else NoConnection
      ensures r.InsertedAs? ==>
        rows == old(rows) + [Row(r.id, d.connections[connection], connection, Lower(channel), Upper(m.command), m, highlight)]
        && lastId == r.id
      ensures !r.InsertedAs? ==> rows == old(rows) && lastId == old(lastId)
    {
      if d.insertFails {
        return StoreError;
      }
      if connection !in d.connections {
        return NoConnection;
      }
      lastId := IdAt(lastId, d.gaps, 0);
      rows := rows + [Row(lastId, d.connections[connection], connection, Lower(channel), Upper(m.command), m, highlight)];
      return InsertedAs(lastId);
    }

    /** One statement for all the channels: all the rows, or none. */
    method InsertMessages(connection: string, m: Message, channels: seq<string>, d: Delivery) returns (r: Inserted)
      modifies this`rows, this`lastId
      ensures r == if channels == [] then InsertedAs(0)
                   else if d.insertFails then StoreError
                   else if connection in d.connections then InsertedAs(IdAt(old(lastId), d.gaps, |channels| - 1))
                   else NoConnection
      ensures channels != [] && r.InsertedAs? ==>
        rows == old(rows) + NewRows(old(lastId), d, connection, m, channels) && lastId == r.id
      ensures channels == [] || !r.InsertedAs? ==> rows == old(rows) && lastId == old(lastId)
    {
      if channels == [] {
        return InsertedAs(0);
      }
      if d.insertFails {
        return StoreError;
      }
      if connection !in d.connections {
        return NoConnection;
      }
      ghost var before := rows;
      var last := lastId;
      var i := 0;
      while i < |channels|
        invariant i <= |channels|
        invariant rows == before + NewRows(last, d, connection, m, channels)[..i]
        invariant lastId == if i == 0 then last else IdAt(last, d.gaps, i - 1)
      {
        lastId := lastId + 1 + (if i < |d.gaps| then d.gaps[i] else 0);
        rows := rows + [Row(lastId, d.connections[connection], connection, Lower(channels[i]), Upper(m.command), m, false)];
        i := i + 1;
      }
      return InsertedAs(lastId);
    }

    method InsertPrivate(connection: string, nick: string, time: real, d: Delivery) returns (ok: bool)
      modifies this`privates
      ensures ok == !d.privateFails
      ensures privates == if ok then old(privates)[(connection, nick) := time] else old(privates)
    {
      if d.privateFails {
        return false;
      }
      privates := privates[(connection, nick) := time];
      return true;
    }
  }

  class Logger {
    const store: Store
    var published: seq<Publication>

    ghost function Now(): World
      reads this, store
    {
      World(store.rows, store.lastId, store.privates, published)
    }

    constructor (store: Store)
      ensures this.store == store && published == []
    {
      this.store, published := store, [];
    }

    method PublishLogged(connection: string, m: Message, id: nat, highlight: bool)
      modifies this
      ensures Now() == Publish(old(Now()), connection, m, id, highlight)
      ensures published == old(published) + [Publication(Logged, connection, m, id, highlight)]
        + (if highlight || (m.direct && !m.prefix.self) then [Publication(Highlight, connection, m, id, highlight)] else [])
    {
      ghost var before := published;
      published := published + [Publication(Logged, connection, m, id, highlight)];
      if highlight || (m.direct && !m.prefix.self) {
        published := published + [Publication(Highlight, connection, m, id, highlight)];
      }
      assert published == Publish(World([], 0, map[], before), connection, m, id, highlight).published;
    }

    method HandleChat(body: Body, d: Delivery) returns (outcome: Outcome)
      requires !body.Multi?
      modifies this, store
      ensures (Now(), outcome) == Handle(old(Now()), body, d)
    {
      if !body.Chat? {
        return Finished;
      }
      var id, m := body.id, body.m;
      var route := RouteChat(m);
      if route == None {
        return Panicked;
      }
      if route.value.kind == Skip {
        return Finished;
      } else if route.value.kind == Pass {
        PublishLogged(id, m, 0, false);
        return Finished;
      }
      if route.value.private {
        var ok := store.InsertPrivate(id, route.value.channel, m.time, d);
        if !ok {
          return Failed;
        }
      }
      var inserted := store.InsertMessage(id, m, route.value.channel, d.highlight, d);
      if inserted == StoreError {
        return Failed;
      }
      PublishLogged(id, m, if inserted.InsertedAs? then inserted.id else 0, d.highlight);
      return Finished;
    }

    method HandleMulti(body: Body, d: Delivery) returns (outcome: Outcome)
      requires !body.Chat?
      modifies this, store
      ensures (Now(), outcome) == Handle(old(Now()), body, d)
    {
      if !body.Multi? {
        return Finished;
      }
      var id, m := body.id, body.m;
      var inserted := store.InsertMessages(id, m, body.channels, d);
      if inserted == StoreError {
        return Failed;
      }
      if body.channels != [] && inserted.InsertedAs? {
        InsertAllOnce(old(Now()), d, id, m, body.channels);
      }
      PublishLogged(id, m, if inserted.InsertedAs? then inserted.id else 0, false);
      return Finished;
    }
  }

  lemma {:induction false} InsertAllOnce(w: World, d: Delivery, id: string, m: Message, channels: seq<string>)
    requires id in d.connections
    ensures InsertAll(w, d, id, m, channels) ==
            if channels == [] then w
            else w.(rows := w.rows + NewRows(w.lastId, d, id, m, channels), lastId := IdAt(w.lastId, d.gaps, |channels| - 1))
  {
    if channels != [] {
      var n := |channels| - 1;
      InsertAllOnce(w, d, id, m, channels[..n]);
      assert NewRows(w.lastId, d, id, m, channels) ==
        NewRows(w.lastId, d, id, m, channels[..n]) + [NewRow(w, d, n, id, m, channels[n], false)];
      if n == 0 {
        assert NewRows(w.lastId, d, id, m, channels[..n]) == [];
      }
    }
  }

  // ----- redelivery -----

  /** The same message delivered again and again, until a handler takes it without an error. */
  function Redeliver(w: World, body: Body, ds: seq<Delivery>): World
    decreases |ds|
  {
    if ds == [] then w
    else
      var (t, outcome) := Handle(w, body, ds[0]);
      if outcome == Failed then Redeliver(t, body, ds[1..]) else t
  }

  predicate Stores(m: Message) {
    RouteChat(m).Some? && (RouteChat(m).value.kind == Target || RouteChat(m).value.kind == Status)
  }

  /** A message that is not stored: a NICK or QUIT that came as a chat message is not published either, and any other
      is published, once to each topic it belongs to, with no id and not as a highlight. */
  lemma UnstoredIsPassedOn(w: World, id: string, m: Message, d: Delivery)
    requires RouteChat(m).Some? && !ByTarget(m) && !(m.command == "NOTICE" && !m.direct) && m.command !in STATUSES
    requires !IsErrorNumeric(m.command)
    ensures var told := [Publication(Logged, id, m, 0, false)]
                        + (if m.direct && !m.prefix.self then [Publication(Highlight, id, m, 0, false)] else []);
            Handle(w, Chat(id, m), d) ==
            (if m.command == "NICK" || m.command == "QUIT" then w else w.(published := w.published + told), Finished)
  {
    KindsOfRoutes(m);
  }

  predicate IsPrivate(m: Message) {
    RouteChat(m).Some? && RouteChat(m).value.private
  }

  /** A store call that the delivery makes fails. */
  predicate Fails(body: Body, d: Delivery) {
    match body
    case Chat(_, m) => Stores(m) && (d.insertFails || (IsPrivate(m) && d.privateFails))
    case Multi(_, _, channels) => channels != [] && d.insertFails
    case _ => false
  }

  /** A handler returns an error exactly then, and has stored and published nothing; a private
      conversation may have been recorded. */
  lemma FailsExactly(w: World, body: Body, d: Delivery)
    ensures Handle(w, body, d).1 == Failed <==> Fails(body, d)
    ensures Fails(body, d) ==> Handle(w, body, d).0 == w.(privates := Handle(w, body, d).0.privates)
  {
  }

  function Publications(connection: string, m: Message, id: nat, highlight: bool): seq<Publication> {
    [Publication(Logged, connection, m, id, highlight)]
    + (if highlight || FromOther(m) then [Publication(Highlight, connection, m, id, highlight)] else [])
  }

  /** The world after a message was handled once, with d. */
  function ChatLogged(w: World, id: string, m: Message, r: Route, d: Delivery): World {
    var known := id in d.connections;
    var stored := if known then IdAt(w.lastId, d.gaps, 0) else 0;
    w.(privates := if r.private then w.privates[(id, r.channel) := m.time] else w.privates,
       rows := if known then w.rows + [Row(stored, d.connections[id], id, Lower(r.channel), Upper(m.command), m, d.highlight)]
               else w.rows,
       lastId := if known then stored else w.lastId,
       published := w.published + Publications(id, m, stored, d.highlight))
  }

  /** A stored chat message, after any failures and then a success: one row if its connection exists
      and none if not, and it is published once, as it was in the last delivery; its private
      conversation is recorded as if once. */
  lemma {:induction false} ChatIsLoggedOnce(w: World, id: string, m: Message, ds: seq<Delivery>, d: Delivery)
    requires Stores(m) && !Fails(Chat(id, m), d) && forall e :: e in ds ==> Fails(Chat(id, m), e)
    ensures Redeliver(w, Chat(id, m), ds + [d]) == ChatLogged(w, id, m, RouteChat(m).value, d)
    decreases |ds|
  {
    var body, r := Chat(id, m), RouteChat(m).value;
    if ds == [] {
      assert (ds + [d])[0] == d;
    } else {
      assert (ds + [d])[0] == ds[0] && (ds + [d])[1..] == ds[1..] + [d];
      var t := Handle(w, body, ds[0]).0;
      FailsExactly(w, body, ds[0]);
      ChatIsLoggedOnce(t, id, m, ds[1..], d);
      FailedPrivate(w, id, m, ds[0]);
    }
  }

  lemma FailedPrivate(w: World, id: string, m: Message, d: Delivery)
    requires Stores(m) && Fails(Chat(id, m), d)
    ensures var t := Handle(w, Chat(id, m), d).0;
            t == w || (IsPrivate(m) && t == w.(privates := w.privates[(id, RouteChat(m).value.channel) := m.time]))
  {
  }

  /** The world after a NICK or QUIT was handled once. */
  function MultiLogged(w: World, id: string, m: Message, channels: seq<string>, d: Delivery): World {
    if channels != [] && id in d.connections then
      var last := IdAt(w.lastId, d.gaps, |channels| - 1);
      w.(rows := w.rows + NewRows(w.lastId, d, id, m, channels),
         lastId := last,
         published := w.published + Publications(id, m, last, false))
    else w.(published := w.published + Publications(id, m, 0, false))
  }

  lemma MultiOnce(w: World, id: string, m: Message, channels: seq<string>, d: Delivery)
    ensures OnMulti(w, id, m, channels, d) ==
            if channels != [] && d.insertFails then (w, Failed) else (MultiLogged(w, id, m, channels, d), Finished)
  {
    if id in d.connections {
      InsertAllOnce(w, d, id, m, channels);
    }
  }

  /** Likewise: one row for each channel, in order, and one publication with the last one's id. */
  lemma {:induction false} MultiIsLoggedOnce(w: World, id: string, m: Message, channels: seq<string>, ds: seq<Delivery>, d: Delivery)
    requires !Fails(Multi(id, m, channels), d) && forall e :: e in ds ==> Fails(Multi(id, m, channels), e)
    ensures Redeliver(w, Multi(id, m, channels), ds + [d]) == MultiLogged(w, id, m, channels, d)
    decreases |ds|
  {
    if ds == [] {
      RedeliverFirst(w, Multi(id, m, channels), d, []);
      assert ds + [d] == [d] + [];
      MultiOnce(w, id, m, channels, d);
    } else {
      RedeliverFirst(w, Multi(id, m, channels), ds[0], ds[1..] + [d]);
      assert ds + [d] == [ds[0]] + (ds[1..] + [d]) && ds[0] in ds;
      MultiOnce(w, id, m, channels, ds[0]);
      MultiIsLoggedOnce(w, id, m, channels, ds[1..], d);
    }
  }

  lemma RedeliverFirst(w: World, body: Body, d: Delivery, ds: seq<Delivery>)
    ensures var (t, outcome) := Handle(w, body, d);
            Redeliver(w, body, [d] + ds) == if outcome == Failed then Redeliver(t, body, ds) else t
  {
    assert ([d] + ds)[1..] == ds;
  }

  /** While it fails, nothing is stored and nothing is published. */
  lemma {:induction false} NothingPublishedWhileFailing(w: World, body: Body, ds: seq<Delivery>)
    requires forall e :: e in ds ==> Fails(body, e)
    ensures var t := Redeliver(w, body, ds); t.rows == w.rows && t.published == w.published && t.lastId == w.lastId
    decreases |ds|
  {
    if ds != [] {
      FailsExactly(w, body, ds[0]);
      NothingPublishedWhileFailing(Handle(w, body, ds[0]).0, body, ds[1..]);
    }
  }

  /** A message that was handled is stored again if it is delivered again all the same. */
  lemma HandledTwiceIsStoredTwice(w: World, id: string, m: Message, d: Delivery)
    requires Stores(m) && !Fails(Chat(id, m), d) && id in d.connections
    ensures |Handle(Handle(w, Chat(id, m), d).0, Chat(id, m), d).0.rows| == |w.rows| + 2
  {
  }

  // ----- whole runs -----

  datatype Handling = Handling(body: Body, d: Delivery)

  function Handled(w: World, h: Handling): World {
    Handle(w, h.body, h.d).0
  }

  function After(hs: seq<Handling>): World {
    if hs == [] then World([], 0, map[], []) else Handled(After(hs[..|hs| - 1]), hs[|hs| - 1])
  }

  /** Ids grow from row to row, after the last id there was, up to the one there is. */
  ghost predicate IdsGrow(rows: seq<Row>, before: nat, last: nat) {
    && (forall i :: 0 <= i < |rows| ==> before < rows[i].id <= last)
    && (forall i, j :: 0 <= i < j < |rows| ==> rows[i].id < rows[j].id)
  }

  /** What one delivery adds: rows of its message and the publications of it, with the last row's id or
      0; or publications without rows; or nothing. */
  ghost predicate Adds(w: World, t: World, rows: seq<Row>, ps: seq<Publication>) {
    && t.rows == w.rows + rows && t.published == w.published + ps
    && IdsGrow(rows, w.lastId, t.lastId) && w.lastId <= t.lastId
    && (rows != [] ==> ps != [])
    && (ps != [] ==>
          var p := ps[0];
          && ps == Publications(p.connection, p.message, p.id, p.highlight)
          && p.id == (if rows == [] then 0 else rows[|rows| - 1].id)
          && forall r :: r in rows ==> r.message == p.message && r.connection == p.connection && r.highlight == p.highlight)
  }

  ghost predicate OneDelivery(w: World, t: World) {
    |w.rows| <= |t.rows| && |w.published| <= |t.published|
    && Adds(w, t, t.rows[|w.rows|..], t.published[|w.published|..])
  }

  lemma AddsIsOne(w: World, t: World, rows: seq<Row>, ps: seq<Publication>)
    requires Adds(w, t, rows, ps)
    ensures OneDelivery(w, t)
  {
    assert t.rows[|w.rows|..] == rows && t.published[|w.published|..] == ps;
  }

  lemma NewRowsGrow(last: nat, d: Delivery, connection: string, m: Message, channels: seq<string>)
    requires connection in d.connections && channels != []
    ensures IdsGrow(NewRows(last, d, connection, m, channels), last, IdAt(last, d.gaps, |channels| - 1))
  {
    var rows, n := NewRows(last, d, connection, m, channels), |channels| - 1;
    forall i: nat, j: nat | i < j < |rows| ensures rows[i].id < rows[j].id {
      IdsAreApart(last, d.gaps, i, j);
    }
    forall i: nat | i < |rows| ensures rows[i].id <= IdAt(last, d.gaps, n) {
      if i < n {
        IdsAreApart(last, d.gaps, i, n);
      }
    }
  }

  lemma NothingAdded(w: World, t: World)
    requires t.rows == w.rows && t.published == w.published && t.lastId == w.lastId
    ensures OneDelivery(w, t)
  {
    AddsIsOne(w, t, [], []);
  }

  lemma StoreChatAdds(w: World, id: string, m: Message, channel: string, d: Delivery)
    ensures OneDelivery(w, StoreChat(w, id, m, channel, d).0)
  {
    var t := StoreChat(w, id, m, channel, d).0;
    if d.insertFails {
      NothingAdded(w, t);
    } else if id in d.connections {
      var row := NewRow(w, d, 0, id, m, channel, d.highlight);
      AddsIsOne(w, t, [row], Publications(id, m, row.id, d.highlight));
    } else {
      AddsIsOne(w, t, [], Publications(id, m, 0, d.highlight));
    }
  }

  lemma ChatAdds(w: World, id: string, m: Message, d: Delivery)
    ensures OneDelivery(w, OnChat(w, id, m, d).0)
  {
    var t := OnChat(w, id, m, d).0;
    if RouteChat(m).None? || RouteChat(m).value.kind == Skip {
      NothingAdded(w, t);
    } else {
      var r := RouteChat(m).value;
      if r.kind == Pass {
        AddsIsOne(w, t, [], Publications(id, m, 0, false));
      } else if r.private && d.privateFails {
        NothingAdded(w, t);
      } else {
        var noted := if r.private then w.(privates := w.privates[(id, r.channel) := m.time]) else w;
        StoreChatAdds(noted, id, m, r.channel, d);
      }
    }
  }

  lemma MultiAdds(w: World, id: string, m: Message, channels: seq<string>, d: Delivery)
    ensures OneDelivery(w, OnMulti(w, id, m, channels, d).0)
  {
    var t := OnMulti(w, id, m, channels, d).0;
    MultiOnce(w, id, m, channels, d);
    if channels != [] && d.insertFails {
      NothingAdded(w, t);
    } else if channels != [] && id in d.connections {
      NewRowsGrow(w.lastId, d, id, m, channels);
      AddsIsOne(w, t, NewRows(w.lastId, d, id, m, channels), Publications(id, m, t.lastId, false));
    } else {
      AddsIsOne(w, t, [], Publications(id, m, 0, false));
    }
  }

  /** Every delivery of any message adds its rows and its publications together: a row is published by
      the delivery that stores it, and a publication's id is that of the delivery's last row. */
  lemma EveryDeliveryTies(w: World, h: Handling)
    ensures OneDelivery(w, Handled(w, h))
  {
    match h.body
    case Unreadable => NothingAdded(w, w);
    case NoMessage => NothingAdded(w, w);
    case Chat(id, m) => ChatAdds(w, id, m, h.d);
    case Multi(id, m, channels) => MultiAdds(w, id, m, channels, h.d);
  }

  /** In every run ids are positive and grow from row to row, whoever else inserts. */
  lemma {:induction false} IdsAlwaysGrow(hs: seq<Handling>)
    ensures IdsGrow(After(hs).rows, 0, After(hs).lastId)
  {
    if hs != [] {
      var w := After(hs[..|hs| - 1]);
      IdsAlwaysGrow(hs[..|hs| - 1]);
      EveryDeliveryTies(w, hs[|hs| - 1]);
    }
  }

  /** The j-th row was stored by delivery i. */
  ghost predicate StoredBy(hs: seq<Handling>, j: nat, i: nat) {
    i < |hs| && |After(hs[..i]).rows| <= j < |After(hs[..i + 1]).rows|
  }

  /** Every row of a run was stored by some delivery of it, in the place it still has; with
      EveryDeliveryTies, that delivery published it. */
  lemma {:induction false} EveryRowIsStoredOnce(hs: seq<Handling>, j: nat) returns (i: nat)
    requires j < |After(hs).rows|
    ensures StoredBy(hs, j, i) && After(hs[..i + 1]).rows[j] == After(hs).rows[j]
    ensures OneDelivery(After(hs[..i]), After(hs[..i + 1]))
  {
    var n := |hs| - 1;
    var w := After(hs[..n]);
    assert hs[..n + 1] == hs;
    EveryDeliveryTies(w, hs[n]);
    if j < |w.rows| {
      i := EveryRowIsStoredOnce(hs[..n], j);
      assert hs[..n][..i] == hs[..i] && hs[..n][..i + 1] == hs[..i + 1];
    } else {
      i := n;
    }
  }

  /** So in every run each row's message has been published by the delivery that stored it, with the id
      of that delivery's last row. */
  lemma EveryRowIsPublished(hs: seq<Handling>, j: nat) returns (i: nat, q: nat)
    requires j < |After(hs).rows|
    ensures StoredBy(hs, j, i)
    ensures var r, t := After(hs).rows[j], After(hs[..i + 1]);
            && |After(hs[..i]).published| <= q < |t.published|
            && t.published[q] == Publication(Logged, r.connection, r.message, t.rows[|t.rows| - 1].id, r.highlight)
  {
    i := EveryRowIsStoredOnce(hs, j);
    var w, t := After(hs[..i]), After(hs[..i + 1]);
    q := |w.published|;
    assert t.rows[|w.rows|..][j - |w.rows|] == t.rows[j];
    assert t.rows[j] in t.rows[|w.rows|..];
    assert t.published[|w.published|..][0] == t.published[q];
  }
}
