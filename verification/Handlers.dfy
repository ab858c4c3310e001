/** What each handler of events.go makes of one message: the specification that the client's methods
    are proved against. */
module Handlers {
  import opened Options
  import opened Text
  import opened Channels

  /** A nick prefix of the server: its symbol and its mode. */
  datatype Prefix = Prefix(symbol: char, mode: char)

  datatype Config = Config(nick: string, channels: seq<string>)

  /** The part of IRCClient that the handlers keep. */
  datatype Client = Client(channels: map<string, Chan>, config: Config, requestedNick: string)

  /** A message from the server: the nick it is from, and its parameters. */
  datatype Message = Message(nick: string, params: seq<string>)

  /** One changed field of the config, with its new value. */
  datatype Change = ChannelsChange(channels: seq<string>) | NickChange(nick: string)

  datatype Kind = Names | EndOfNames | Mode | ChannelModes | Join | Kick | Part | Quit | Nick | NickRefused | NickChangeRefused

  /** What happens to a client: connect starts an attempt, the API asks for a nick, or a handler runs,
      with currentNick() then being me, on a connection that has registered or not. */
  datatype Event =
    | Connect
    | RequestNick(nick: string)
    | Handle(kind: Kind, m: Message, me: string, registered: bool, prefixes: seq<Prefix>)

  // ----- NAMES -----

  function ModeOf(prefixes: seq<Prefix>, symbol: char): Option<char> {
    if prefixes == [] then None
    else if prefixes[0].symbol == symbol then Some(prefixes[0].mode)
    else ModeOf(prefixes[1..], symbol)
  }

  predicate IsNickMode(prefixes: seq<Prefix>, mode: char) {
    exists i :: 0 <= i < |prefixes| && prefixes[i].mode == mode
  }

  /** The nick an entry of a NAMES reply names, and its modes. */
  function EntryNick(prefixes: seq<Prefix>, entry: string): string
    requires entry != ""
  {
    if ModeOf(prefixes, entry[0]).Some? then entry[1..] else entry
  }

  function EntryModes(prefixes: seq<Prefix>, entry: string): string
    requires entry != ""
  {
    var mode := ModeOf(prefixes, entry[0]);
    if mode.Some? then [mode.value] else ""
  }

  function AddEntries(prefixes: seq<Prefix>, nicks: map<string, string>, entries: seq<string>): map<string, string> {
    if entries == [] then nicks
    else
      var n := |entries| - 1;
      var before := AddEntries(prefixes, nicks, entries[..n]);
      var e := entries[n];
      if e == "" then before else before[EntryNick(prefixes, e) := EntryModes(prefixes, e)]
  }

  function WithNames(ch: Chan, prefixes: seq<Prefix>, text: string): Chan {
    var listed := if ch.synced then ch.(synced := false, nicks := map[]) else ch;
    listed.(nicks := AddEntries(prefixes, listed.nicks, Split(text, ' ')))
  }

  function OnNames(c: Client, m: Message, prefixes: seq<Prefix>): Client {
    if |m.params| < 4 then c
    else
      var name := Lower(m.params[2]);
      if name in c.channels then c.(channels := c.channels[name := WithNames(c.channels[name], prefixes, m.params[3])])
      else c
  }

  function OnEndOfNames(c: Client, m: Message): Client {
    if |m.params| < 2 then c
    else
      var name := Lower(m.params[1]);
      if name in c.channels then c.(channels := c.channels[name := c.channels[name].(synced := true)]) else c
  }

  // ----- MODE -----

  /** The letters of one MODE, as the handler takes them: all with the first letter's action, and all
      for the first nick. */
  function WithModes(ch: Chan, prefixes: seq<Prefix>, action: char, modes: string, params: seq<string>): (r: Chan)
    ensures r.name == ch.name && r.synced == ch.synced && r.nicks.Keys == ch.nicks.Keys
  {
    if modes == "" then ch
    else
      var n := |modes| - 1;
      var before := WithModes(ch, prefixes, action, modes[..n], params);
      var mode := modes[n];
      if IsNickMode(prefixes, mode) then
        if |params| > 2 then WithNickMode(before, action, mode, params[2]) else before
      else if |params| == 2 then WithMode(before, action, mode)
      else before
  }

  function OnMode(c: Client, m: Message, prefixes: seq<Prefix>): Client {
    if |m.params| < 2 then c
    else
      var name := Lower(m.params[0]);
      if m.nick == name || name !in c.channels || m.params[1] == "" then c
      else
        var text := m.params[1];
        c.(channels := c.channels[name := WithModes(c.channels[name], prefixes, text[0], text[1..], m.params)])
  }

  /** A 324: the channel's modes are what the server says, whatever they were. */
  function OnChannelModes(c: Client, m: Message): Client {
    if |m.params| < 3 then c
    else
      var name := Lower(m.params[1]);
      if name in c.channels && m.params[2] != "" then
        c.(channels := c.channels[name := c.channels[name].(mode := m.params[2][1..])])
      else c
  }

  // ----- the config's channels -----

  /** The channel a config entry names: "#chan key" is #chan, lowercased. */
  function ChannelName(entry: string): string {
    Lower(FirstField(entry))
  }

  predicate HasEntry(entries: seq<string>, name: string) {
    exists i :: 0 <= i < |entries| && ChannelName(entries[i]) == name
  }

  /** The entries that do not name the channel. */
  function Without(entries: seq<string>, name: string): seq<string> {
    if entries == [] then []
    else
      var n := |entries| - 1;
      Without(entries[..n], name) + (if ChannelName(entries[n]) != name then [entries[n]] else [])
  }

  function WithEntry(config: Config, name: string): Config {
    if HasEntry(config.channels, Lower(name)) then config
    else config.(channels := config.channels + [name])
  }

  function WithoutEntry(config: Config, name: string): Config {
    config.(channels := Without(config.channels, Lower(name)))
  }

  // ----- JOIN, KICK, PART, QUIT, NICK -----

  function WithNick(c: Client, name: string, nick: string, modes: string): Client {
    if name in c.channels then
      var ch := c.channels[name];
      c.(channels := c.channels[name := ch.(nicks := ch.nicks[nick := modes])])
    else c
  }

  function WithoutNick(c: Client, name: string, nick: string): Client {
    if name in c.channels then
      var ch := c.channels[name];
      c.(channels := c.channels[name := ch.(nicks := ch.nicks - {nick})])
    else c
  }

  function Joined(c: Client, name: string): Client {
    c.(channels := c.channels[Lower(name) := Chan(name, map[], "", false)], config := WithEntry(c.config, name))
  }

  function Left(c: Client, name: string): Client {
    c.(channels := c.channels - {Lower(name)}, config := WithoutEntry(c.config, Lower(name)))
  }

  function OnJoin(c: Client, m: Message, me: string): Client {
    if |m.params| < 1 then c
    else WithNick(if m.nick == me then Joined(c, m.params[0]) else c, Lower(m.params[0]), m.nick, "")
  }

  /** KICK and PART: nick has left the channel. */
  function Leaves(c: Client, name: string, nick: string, me: string): Client {
    if nick == me then Left(c, name) else WithoutNick(c, Lower(name), nick)
  }

  function OnKick(c: Client, m: Message, me: string): Client {
    if |m.params| < 2 then c else Leaves(c, m.params[0], m.params[1], me)
  }

  function OnPart(c: Client, m: Message, me: string): Client {
    if |m.params| < 1 then c else Leaves(c, m.params[0], m.nick, me)
  }

  function Quitted(ch: Chan, nick: string): Chan {
    ch.(nicks := ch.nicks - {nick})
  }

  function OnQuit(c: Client, m: Message): Client {
    c.(channels := map k | k in c.channels :: Quitted(c.channels[k], m.nick))
  }

  /** One channel's part of a NICK: the new nick is set, then the old one is deleted. */
  function Renamed(ch: Chan, nick: string, newNick: string): Chan {
    if nick in ch.nicks then ch.(nicks := ch.nicks[newNick := ch.nicks[nick]] - {nick}) else ch
  }

  /** The nick we asked for, taken. */
  predicate TakesRequest(c: Client, m: Message, me: string) {
    |m.params| >= 1 && m.nick != m.params[0] && m.params[0] == me
    && c.requestedNick != "" && EqualFold(m.params[0], c.requestedNick)
  }

  function SavedNick(c: Client, m: Message, me: string): Client {
    if TakesRequest(c, m, me) then c.(requestedNick := "", config := c.config.(nick := m.params[0])) else c
  }

  function OnNick(c: Client, m: Message, me: string): Client {
    if |m.params| < 1 then c
    else SavedNick(c, m, me).(channels := map k | k in c.channels :: Renamed(c.channels[k], m.nick, m.params[0]))
  }

  /** The names of the channels that nick is in, which a QUIT or NICK of it is published to. */
  function ChannelsOf(c: Client, nick: string): set<string> {
    set k | k in c.channels && nick in c.channels[k].nicks :: c.channels[k].name
  }

  // ----- refusals -----

  predicate NamesRequest(c: Client, m: Message) {
    |m.params| >= 3 && c.requestedNick != "" && EqualFold(m.params[1], c.requestedNick)
  }

  /** A refusal after registration ends the request if it names it. */
  function OnRefusal(c: Client, m: Message, registered: bool): Client {
    if registered && NamesRequest(c, m) then c.(requestedNick := "") else c
  }

  // ----- any event -----

  function Step(c: Client, e: Event): Client {
    match e
    case Connect => c.(requestedNick := "")
    case RequestNick(nick) => c.(requestedNick := nick)
    case Handle(kind, m, me, registered, prefixes) =>
      match kind
      case Names => OnNames(c, m, prefixes)
      case EndOfNames => OnEndOfNames(c, m)
      case Mode => OnMode(c, m, prefixes)
      case ChannelModes => OnChannelModes(c, m)
      case Join => OnJoin(c, m, me)
      case Kick => OnKick(c, m, me)
      case Part => OnPart(c, m, me)
      case Quit => OnQuit(c, m)
      case Nick => OnNick(c, m, me)
      case NickRefused => OnRefusal(c, m, registered)
      case NickChangeRefused => OnRefusal(c, m, registered)
  }

  predicate OwnJoin(e: Event) {
    e.Handle? && e.kind == Join && |e.m.params| >= 1 && e.m.nick == e.me
  }

  predicate OwnLeave(e: Event) {
    e.Handle?
    && ((e.kind == Kick && |e.m.params| >= 2 && e.m.params[1] == e.me)
        || (e.kind == Part && |e.m.params| >= 1 && e.m.nick == e.me))
  }

  /** The config changes the event publishes. */
  function Changes(c: Client, e: Event): seq<Change> {
    var config := Step(c, e).config;
    if OwnJoin(e) then
      (if HasEntry(c.config.channels, Lower(e.m.params[0])) then [] else [ChannelsChange(config.channels)])
    else if OwnLeave(e) then
      (if |config.channels| == |c.config.channels| then [] else [ChannelsChange(config.channels)])
    else if e.Handle? && e.kind == Nick && TakesRequest(c, e.m, e.me) then [NickChange(config.nick)]
    else []
  }

  /** Every key is its channel's name lowercased. */
  ghost predicate Keyed(channels: map<string, Chan>) {
    forall k :: k in channels ==> Lower(channels[k].name) == k
  }

  /** The client after a whole history of events. */
  function After(c: Client, events: seq<Event>): Client {
    if events == [] then c
    else
      var n := |events| - 1;
      Step(After(c, events[..n]), events[n])
  }

  /** The client after the first i events. */
  function At(c: Client, events: seq<Event>, i: nat): Client
    requires i <= |events|
  {
    After(c, events[..i])
  }

  lemma AtMore(c: Client, events: seq<Event>, i: nat)
    requires i < |events|
    ensures At(c, events, i + 1) == Step(At(c, events, i), events[i])
  {
    assert events[..i + 1][..i] == events[..i];
  }

  lemma AtEnd(c: Client, events: seq<Event>)
    ensures At(c, events, |events|) == After(c, events)
  {
    assert events[..|events|] == events;
  }
}
