/** The handlers as they run: methods that update the client's maps, and the channels in them, in
    place. Each is proved to do what Handlers says. */
module ClientState {
  import opened Options
  import opened Text
  import opened Channels
  import opened Handlers

  /** The user and host of a message's source, if it has them. */
  datatype Source = Source(user: string, host: string)

  class IRCClient {
    var channels: map<string, IRCChannel>
    var configNick: string
    var configChannels: seq<string>
    var requestedNick: string
    var user: string
    var host: string
    // what the handlers want published, and the lines they have given to Send
    var changes: seq<Change>
    var lines: seq<string>

    // what the channel objects hold
    ghost var contents: map<string, Chan>

    /** contents is what the channel objects hold, and no two keys share one. */
    ghost predicate Linked()
      reads this`channels, this`contents, channels.Values
    {
      && contents.Keys == channels.Keys
      && (forall k :: k in channels ==> channels[k].View() == contents[k])
      && (forall j, k :: j in channels && k in channels && j != k ==> channels[j] != channels[k])
    }

    ghost predicate Valid()
      reads this`channels, this`contents, channels.Values
    {
      Linked() && Keyed(contents)
    }

    ghost function View(): Client
      reads this
    {
      Client(contents, Config(configNick, configChannels), requestedNick)
    }

    constructor (config: Config)
      ensures Valid() && View() == Client(map[], config, "") && changes == []
    {
      channels, contents := map[], map[];
      configNick, configChannels := config.nick, config.channels;
      requestedNick, changes := "", [];
      user, host, lines := "", "", [];
    }

    method RequestNick(nick: string)
      requires Valid()
      modifies this`requestedNick
      ensures Valid() && View() == Step(old(View()), Event.RequestNick(nick))
    {
      requestedNick := nick;
    }

    // ----- the config's channels -----

    /** addConfigChannel */
    method AddConfigChannel(name: string) returns (added: bool)
      modifies this`configChannels
      ensures added == !HasEntry(old(configChannels), Lower(name))
      ensures configChannels == WithEntry(old(View()).config, name).channels
    {
      for i := 0 to |configChannels|
        invariant forall j :: 0 <= j < i ==> ChannelName(configChannels[j]) != Lower(name)
        invariant configChannels == old(configChannels)
      {
        if ChannelName(configChannels[i]) == Lower(name) {
          return false;
        }
      }
      configChannels := configChannels + [name];
      return true;
    }

    /** removeConfigChannel */
    method RemoveConfigChannel(name: string) returns (removed: bool)
      modifies this`configChannels
      ensures configChannels == Without(old(configChannels), Lower(name))
      ensures removed == (|configChannels| != |old(configChannels)|)
    {
      var kept := [];
      for i := 0 to |configChannels|
        invariant configChannels == old(configChannels)
        invariant kept == Without(configChannels[..i], Lower(name)) && |kept| <= i
        invariant |kept| == i ==> kept == configChannels[..i]
      {
        assert configChannels[..i + 1][..i] == configChannels[..i];
        if ChannelName(configChannels[i]) != Lower(name) {
          kept := kept + [configChannels[i]];
        }
      }
      assert configChannels[..|configChannels|] == configChannels;
      if |kept| == |configChannels| {
        return false;
      }
      configChannels := kept;
      return true;
    }

    // ----- JOIN, KICK, PART -----

    /** Give nick these modes in the channel, if it is tracked. */
    method SetNick(name: string, nick: string, modes: string)
      requires Valid()
      modifies this`contents, channels.Values
      ensures Valid() && View() == WithNick(old(View()), name, nick, modes)
    {
      if name in channels {
        var channel := channels[name];
        channel.nicks := channel.nicks[nick := modes];
        contents := contents[name := channel.View()];
      }
    }

    method DeleteNick(name: string, nick: string)
      requires Valid()
      modifies this`contents, channels.Values
      ensures Valid() && View() == WithoutNick(old(View()), name, nick)
    {
      if name in channels {
        var channel := channels[name];
        channel.nicks := channel.nicks - {nick};
        contents := contents[name := channel.View()];
      }
    }

    method AddChannel(key: string, target: string)
      requires Valid() && key == Lower(target)
      modifies this`channels, this`contents
      ensures Valid() && contents == old(contents)[key := Chan(target, map[], "", false)]
      ensures fresh(channels.Values - old(channels.Values))
    {
      var channel := new IRCChannel(target);
      PutKeyed(contents, channel.View());
      channels := channels[key := channel];
      contents := contents[key := channel.View()];
    }

    /** Our own JOIN: a fresh channel, saved to the config. */
    method TrackChannel(target: string)
      requires Valid()
      modifies this`channels, this`contents, this`configChannels, this`changes
      ensures Valid() && View() == Joined(old(View()), target)
      ensures fresh(channels.Values - old(channels.Values))
      ensures changes == old(changes) + JoinChanges(old(View()), target)
    {
      AddChannel(Lower(target), target);
      var added := AddConfigChannel(target);
      if added {
        changes := changes + [ChannelsChange(configChannels)];
      }
    }

    /** Our own PART, or a KICK of us: the channel is dropped, also from the config. */
    method DropChannel(target: string)
      requires Valid()
      modifies this
      ensures Valid() && View() == Left(old(View()), target)
      ensures changes == old(changes)
        + (if |configChannels| == |old(configChannels)| then [] else [ChannelsChange(configChannels)])
    {
      LowerTwice(target);
      var name := Lower(target);
      channels := channels - {name};
      contents := contents - {name};
      var removed := RemoveConfigChannel(name);
      if removed {
        changes := changes + [ChannelsChange(configChannels)];
      }
    }

    /** A JOIN of ours also says what we are on the server, and the channel's modes are asked for. */
    method NoteJoin(target: string, source: Option<Source>)
      modifies this`user, this`host, this`lines
      ensures lines == old(lines) + ["MODE " + target]
      ensures user == (if source.Some? then source.value.user else old(user))
      ensures host == (if source.Some? then source.value.host else old(host))
    {
      if source.Some? {
        host := source.value.host;
        user := source.value.user;
      }
      lines := lines + ["MODE " + target];
    }

    /** onJoin's part for a JOIN of ours. */
    method OwnJoin(target: string, source: Option<Source>)
      requires Valid()
      modifies this`channels, this`contents, this`configChannels, this`changes, this`user, this`host, this`lines
      ensures Valid() && View() == Joined(old(View()), target)
      ensures fresh(channels.Values - old(channels.Values))
      ensures changes == old(changes) + JoinChanges(old(View()), target)
      ensures lines == old(lines) + ["MODE " + target]
      ensures user == (if source.Some? then source.value.user else old(user))
      ensures host == (if source.Some? then source.value.host else old(host))
    {
      TrackChannel(target);
      NoteJoin(target, source);
    }

    method OnJoin(m: Message, me: string, source: Option<Source>)
      requires Valid()
      modifies this, channels.Values
      ensures Valid() && View() == Handlers.OnJoin(old(View()), m, me)
      ensures changes == old(changes) + Changes(old(View()), Handle(Join, m, me, true, []))
      ensures lines == if IsOurs(m, me) then old(lines) + ["MODE " + m.params[0]] else old(lines)
      ensures user == if IsOurs(m, me) && source.Some? then source.value.user else old(user)
      ensures host == if IsOurs(m, me) && source.Some? then source.value.host else old(host)
    {
      if |m.params| < 1 {
        return;
      }
      JoinChangesAre(View(), m, me);
      if m.nick == me {
        OwnJoin(m.params[0], source);
      }
      SetNick(Lower(m.params[0]), m.nick, "");
    }

    method OnKick(m: Message, me: string)
      requires Valid()
      modifies this, channels.Values
      ensures Valid() && View() == Handlers.OnKick(old(View()), m, me)
      ensures changes == old(changes) + Changes(old(View()), Handle(Kick, m, me, true, []))
    {
      if |m.params| < 2 {
        return;
      }
      if m.params[1] == me {
        DropChannel(m.params[0]);
      } else {
        DeleteNick(Lower(m.params[0]), m.params[1]);
      }
    }

    method OnPart(m: Message, me: string)
      requires Valid()
      modifies this, channels.Values
      ensures Valid() && View() == Handlers.OnPart(old(View()), m, me)
      ensures changes == old(changes) + Changes(old(View()), Handle(Part, m, me, true, []))
    {
      if |m.params| < 1 {
        return;
      }
      if m.nick == me {
        DropChannel(m.params[0]);
      } else {
        DeleteNick(Lower(m.params[0]), m.nick);
      }
    }

    // ----- QUIT, NICK -----

    /** onQuit's part for the channel k. */
    method QuitChannel(k: string, nick: string) returns (inIt: bool)
      requires Linked() && k in channels
      modifies this`contents, channels.Values
      ensures Linked()
      ensures inIt == (nick in old(contents)[k].nicks)
      ensures contents == old(contents)[k := Quitted(old(contents)[k], nick)]
    {
      var channel := channels[k];
      inIt := nick in channel.nicks;
      if inIt {
        channel.nicks := channel.nicks - {nick};
      } else {
        assert channel.nicks - {nick} == channel.nicks;
      }
      contents := contents[k := channel.View()];
    }

    /** onNick's part for the channel k: the new nick is set, then the old one is deleted. */
    method RenameIn(k: string, nick: string, newNick: string) returns (inIt: bool)
      requires Linked() && k in channels
      modifies this`contents, channels.Values
      ensures Linked()
      ensures inIt == (nick in old(contents)[k].nicks)
      ensures contents == old(contents)[k := Renamed(old(contents)[k], nick, newNick)]
    {
      var channel := channels[k];
      inIt := nick in channel.nicks;
      if inIt {
        channel.nicks := channel.nicks[newNick := channel.nicks[nick]];
        channel.nicks := channel.nicks - {nick};
        contents := contents[k := channel.View()];
      }
    }

    method OnQuit(m: Message) returns (touched: seq<string>)
      requires Valid()
      modifies this`contents, channels.Values
      ensures Valid() && View() == Handlers.OnQuit(old(View()), m)
      ensures Distinct(touched) && (set n | n in touched) == ChannelsOf(old(View()), m.nick)
    {
      ghost var order;
      ghost var goal := map k | k in contents :: Quitted(contents[k], m.nick);
      touched, order := QuitAll(m.nick, goal);
      StaysKeyed(old(contents), contents);
      ListsAll(touched, order, old(contents), m.nick);
    }

    /** The channels but for keys have had their turn in a loop that makes them what goal says. */
    ghost predicate Turning(was: map<string, Chan>, goal: map<string, Chan>, keys: set<string>,
                            touched: seq<string>, order: seq<string>, nick: string)
      reads this`channels, this`contents, channels.Values
    {
      Linked() && Midway(contents, was, goal, keys) && Lists(touched, order, was, keys, nick)
    }

    /** One turn of onQuit's loop. */
    method QuitNext(k: string, nick: string, keys: set<string>, touched: seq<string>, ghost order: seq<string>,
                    ghost was: map<string, Chan>, ghost goal: map<string, Chan>)
        returns (touched': seq<string>, ghost order': seq<string>)
      requires k in keys && Turning(was, goal, keys, touched, order, nick)
      requires goal[k] == Quitted(was[k], nick)
      modifies this`contents, channels.Values
      ensures Turning(was, goal, keys - {k}, touched', order', nick)
    {
      MidwayOne(contents, was, goal, keys, k);
      ListsOne(touched, order, was, keys, nick, k);
      touched', order' := touched, order;
      var name := channels[k].name;
      var inIt := QuitChannel(k, nick);
      if inIt {
        touched', order' := touched + [name], order + [k];
      }
    }

    /** The loop takes the channels in any order; the names it collects are those of the channels the
        nick was in, each once. */
    method QuitAll(nick: string, ghost goal: map<string, Chan>) returns (touched: seq<string>, ghost order: seq<string>)
      requires Linked() && goal.Keys == contents.Keys
      requires forall k :: k in contents ==> goal[k] == Quitted(contents[k], nick)
      modifies this`contents, channels.Values
      ensures Linked() && contents == goal
      ensures Lists(touched, order, old(contents), {}, nick)
    {
      touched, order := [], [];
      ghost var was := contents;
      var keys := channels.Keys;
      while keys != {}
        invariant keys <= channels.Keys && Turning(was, goal, keys, touched, order, nick)
      {
        var k :| k in keys;
        touched, order := QuitNext(k, nick, keys, touched, order, was, goal);
        keys := keys - {k};
      }
      MidwayEnds(contents, was, goal);
    }

    method OnNick(m: Message, me: string) returns (touched: seq<string>)
      requires Valid()
      modifies this, channels.Values
      ensures Valid() && View() == Handlers.OnNick(old(View()), m, me)
      ensures changes == old(changes) + Changes(old(View()), Handle(Nick, m, me, true, []))
      ensures |m.params| >= 1 ==> Distinct(touched) && (set n | n in touched) == ChannelsOf(old(View()), m.nick)
    {
      touched := [];
      if |m.params| < 1 {
        return;
      }
      NickChanges(View(), m, me);
      SaveNick(m, me);
      ghost var saved := View();
      touched := Rename(m.nick, m.params[0]);
      assert View() == saved.(channels := contents);
    }

    /** Our own NICK is saved only when it's the nick we asked for. */
    method SaveNick(m: Message, me: string)
      requires |m.params| >= 1
      modifies this`requestedNick, this`configNick, this`changes
      ensures View() == SavedNick(old(View()), m, me)
      ensures changes == old(changes) + (if TakesRequest(old(View()), m, me) then [NickChange(m.params[0])] else [])
    {
      var newNick := m.params[0];
      if m.nick != newNick && newNick == me {
        if requestedNick != "" && EqualFold(newNick, requestedNick) {
          requestedNick := "";
          configNick := newNick;
          changes := changes + [NickChange(configNick)];
        }
      }
    }

    method Rename(nick: string, newNick: string) returns (touched: seq<string>)
      requires Valid()
      modifies this`contents, channels.Values
      ensures Valid() && contents == map k | k in old(contents) :: Renamed(old(contents)[k], nick, newNick)
      ensures Distinct(touched) && (set n | n in touched) == ChannelsOf(old(View()), nick)
    {
      ghost var order;
      ghost var goal := map k | k in contents :: Renamed(contents[k], nick, newNick);
      touched, order := RenameAll(nick, newNick, goal);
      StaysKeyed(old(contents), contents);
      ListsAll(touched, order, old(contents), nick);
    }

    /** One turn of onNick's loop. */
    method RenameNext(k: string, nick: string, newNick: string, keys: set<string>, touched: seq<string>,
                      ghost order: seq<string>, ghost was: map<string, Chan>, ghost goal: map<string, Chan>)
        returns (touched': seq<string>, ghost order': seq<string>)
      requires k in keys && Turning(was, goal, keys, touched, order, nick)
      requires goal[k] == Renamed(was[k], nick, newNick)
      modifies this`contents, channels.Values
      ensures Turning(was, goal, keys - {k}, touched', order', nick)
    {
      MidwayOne(contents, was, goal, keys, k);
      ListsOne(touched, order, was, keys, nick, k);
      touched', order' := touched, order;
      var name := channels[k].name;
      var inIt := RenameIn(k, nick, newNick);
      if inIt {
        touched', order' := touched + [name], order + [k];
      }
    }

    method RenameAll(nick: string, newNick: string, ghost goal: map<string, Chan>)
        returns (touched: seq<string>, ghost order: seq<string>)
      requires Linked() && goal.Keys == contents.Keys
      requires forall k :: k in contents ==> goal[k] == Renamed(contents[k], nick, newNick)
      modifies this`contents, channels.Values
      ensures Linked() && contents == goal
      ensures Lists(touched, order, old(contents), {}, nick)
    {
      touched, order := [], [];
      ghost var was := contents;
      var keys := channels.Keys;
      while keys != {}
        invariant keys <= channels.Keys && Turning(was, goal, keys, touched, order, nick)
      {
        var k :| k in keys;
        touched, order := RenameNext(k, nick, newNick, keys, touched, order, was, goal);
        keys := keys - {k};
      }
      MidwayEnds(contents, was, goal);
    }

    // ----- NAMES -----

    method OnNames(m: Message, prefixes: seq<Prefix>)
      requires Valid()
      modifies this`contents, channels.Values
      ensures Valid() && View() == Handlers.OnNames(old(View()), m, prefixes)
    {
      if |m.params| < 4 {
        return;
      }
      var name := Lower(m.params[2]);
      if name in channels {
        ListNames(channels[name], prefixes, m.params[3]);
        contents := contents[name := channels[name].View()];
      }
    }

    method OnEndOfNames(m: Message)
      requires Valid()
      modifies this`contents, channels.Values
      ensures Valid() && View() == Handlers.OnEndOfNames(old(View()), m)
    {
      if |m.params| < 2 {
        return;
      }
      var name := Lower(m.params[1]);
      if name in channels {
        channels[name].synced := true;
        contents := contents[name := channels[name].View()];
      }
    }

    // ----- MODE -----

    method OnMode(m: Message, prefixes: seq<Prefix>)
      requires Valid()
      modifies this`contents, channels.Values
      ensures Valid() && View() == Handlers.OnMode(old(View()), m, prefixes)
    {
      if |m.params| < 2 {
        return;
      }
      var name := Lower(m.params[0]);
      if m.nick == name {
        return;
      }
      if name in channels {
        if m.params[1] == "" {
          return;
        }
        ChangeModes(channels[name], prefixes, m.params);
        contents := contents[name := channels[name].View()];
      }
    }

    method OnChannelModes(m: Message)
      requires Valid()
      modifies this`contents, channels.Values
      ensures Valid() && View() == Handlers.OnChannelModes(old(View()), m)
    {
      if |m.params| < 3 {
        return;
      }
      var name := Lower(m.params[1]);
      if name in channels && m.params[2] != "" {
        channels[name].mode := m.params[2][1..];
        contents := contents[name := channels[name].View()];
      }
    }

    // ----- refusals, and a new attempt -----

    /** endNickRequest, on a registered connection. */
    method EndNickRequest(m: Message)
      modifies this`requestedNick
      ensures View() == OnRefusal(old(View()), m, true)
    {
      if |m.params| >= 3 && requestedNick != "" && EqualFold(m.params[1], requestedNick) {
        requestedNick := "";
      }
    }

    /** connect's part: a new attempt has no request. */
    method ForgetRequest()
      modifies this`requestedNick
      ensures View() == Step(old(View()), Connect)
    {
      requestedNick := "";
    }
  }

  /** onNames' part for the channel: a NAMES list that had ended starts afresh. */
  method ListNames(channel: IRCChannel, prefixes: seq<Prefix>, text: string)
    modifies channel
    ensures channel.View() == WithNames(old(channel.View()), prefixes, text)
  {
    if channel.synced {
      channel.synced := false;
      channel.nicks := map[];
    }
    ghost var was := channel.View();
    var nicks := Split(text, ' ');
    for i := 0 to |nicks|
      invariant channel.View() == was.(nicks := AddEntries(prefixes, was.nicks, nicks[..i]))
    {
      assert nicks[..i + 1][..i] == nicks[..i];
      var nick := nicks[i];
      if |nick| > 0 {
        var mode := ModeOf(prefixes, nick[0]);
        if mode.Some? {
          channel.nicks := channel.nicks[nick[1..] := [mode.value]];
        } else {
          channel.nicks := channel.nicks[nick := ""];
        }
      }
    }
    assert nicks[..|nicks|] == nicks;
  }

  /** onMode's part for the channel. */
  method ChangeModes(channel: IRCChannel, prefixes: seq<Prefix>, params: seq<string>)
    requires |params| >= 2 && params[1] != ""
    modifies channel
    ensures channel.View() == WithModes(old(channel.View()), prefixes, params[1][0], params[1][1..], params)
  {
    ghost var was := channel.View();
    var action, modes := params[1][0], params[1][1..];
    for i := 0 to |modes|
      invariant channel.View() == WithModes(was, prefixes, action, modes[..i], params)
    {
      assert modes[..i + 1][..i] == modes[..i];
      if IsNickMode(prefixes, modes[i]) {
        if |params| > 2 {
          channel.SetNickMode(action, modes[i], params[2]);
        }
      } else if |params| == 2 {
        channel.SetMode(action, modes[i]);
      }
    }
    assert modes[..|modes|] == modes;
  }

  predicate IsOurs(m: Message, me: string) {
    |m.params| >= 1 && m.nick == me
  }

  function JoinChanges(c: Client, target: string): seq<Change> {
    if HasEntry(c.config.channels, Lower(target)) then [] else [ChannelsChange(c.config.channels + [target])]
  }

  lemma JoinChangesAre(c: Client, m: Message, me: string)
    requires |m.params| >= 1
    ensures Changes(c, Handle(Join, m, me, true, [])) == if m.nick == me then JoinChanges(c, m.params[0]) else []
  {}

  lemma NickChanges(c: Client, m: Message, me: string)
    requires |m.params| >= 1
    ensures Changes(c, Handle(Nick, m, me, true, [])) == if TakesRequest(c, m, me) then [NickChange(m.params[0])] else []
  {}

  lemma StaysKeyed(was: map<string, Chan>, now: map<string, Chan>)
    requires Keyed(was) && now.Keys == was.Keys && (forall k :: k in was ==> now[k].name == was[k].name)
    ensures Keyed(now)
  {}

  lemma PutKeyed(was: map<string, Chan>, ch: Chan)
    requires Keyed(was)
    ensures Keyed(was[Lower(ch.name) := ch])
  {}

  /** The channels but for keys have become what they should. */
  ghost predicate Midway(now: map<string, Chan>, was: map<string, Chan>, goal: map<string, Chan>, keys: set<string>) {
    now.Keys == was.Keys == goal.Keys && keys <= was.Keys
    && forall k :: k in was ==> now[k] == if k in keys then was[k] else goal[k]
  }

  lemma MidwayOne(now: map<string, Chan>, was: map<string, Chan>, goal: map<string, Chan>, keys: set<string>, k: string)
    requires Midway(now, was, goal, keys) && k in keys
    ensures now[k] == was[k] && Midway(now[k := goal[k]], was, goal, keys - {k})
  {}

  lemma MidwayEnds(now: map<string, Chan>, was: map<string, Chan>, goal: map<string, Chan>)
    requires Midway(now, was, goal, {})
    ensures now == goal
  {}

  /** touched holds the names of the channels at the keys in order, each once: those, but for the ones
      in keys, that nick was in. */
  ghost predicate Lists(touched: seq<string>, order: seq<string>, was: map<string, Chan>, keys: set<string>, nick: string) {
    && |touched| == |order|
    && Distinct(order)
    && (forall i :: 0 <= i < |order| ==> order[i] in was && touched[i] == was[order[i]].name)
    && (forall k :: k in order <==> k in was && k !in keys && nick in was[k].nicks)
  }

  lemma ListsOne(touched: seq<string>, order: seq<string>, was: map<string, Chan>, keys: set<string>, nick: string, k: string)
    requires Lists(touched, order, was, keys, nick) && k in keys && k in was
    ensures if nick in was[k].nicks then Lists(touched + [was[k].name], order + [k], was, keys - {k}, nick)
            else Lists(touched, order, was, keys - {k}, nick)
  {
    assert k !in order;
    assert forall j :: j in order + [k] <==> j in order || j == k;
  }

  lemma ListsAll(touched: seq<string>, order: seq<string>, was: map<string, Chan>, nick: string)
    requires Lists(touched, order, was, {}, nick) && Keyed(was)
    ensures Distinct(touched)
    ensures (set n | n in touched) == set k | k in was && nick in was[k].nicks :: was[k].name
  {
    forall i, j | 0 <= i < j < |touched| ensures touched[i] != touched[j] {
      assert Lower(touched[i]) == order[i] != order[j] == Lower(touched[j]);
    }
    forall k | k in was && nick in was[k].nicks ensures was[k].name in touched {
      var i :| 0 <= i < |order| && order[i] == k;
      assert touched[i] == was[k].name;
    }
  }
}
