/** The nested channel and nick maps against a plain relation, replayed from what the server said. */
module Replay {
  import opened Options
  import opened Text
  import opened Channels
  import opened Handlers

  /** Who is where: the channels we are in, those whose NAMES list has ended, and who is in which. */
  datatype Presence = Presence(tracked: set<string>, complete: set<string>, members: set<(string, string)>)

  function Members(channels: map<string, Chan>): set<(string, string)> {
    set k, n | k in channels && n in channels[k].nicks :: (k, n)
  }

  /** What the client's maps say of who is where. */
  function PresenceOf(c: Client): Presence {
    Presence(c.channels.Keys, (set k | k in c.channels && c.channels[k].synced), Members(c.channels))
  }

  // ----- the replay -----

  function Listed(prefixes: seq<Prefix>, entries: seq<string>): set<string> {
    set i | 0 <= i < |entries| && entries[i] != "" :: EntryNick(prefixes, entries[i])
  }

  /** Nick comes to the channel, if it is one of ours. */
  function Comes(p: Presence, k: string, n: string): Presence {
    if k in p.tracked then p.(members := p.members + {(k, n)}) else p
  }

  function Enter(p: Presence, k: string): Presence {
    Presence(p.tracked + {k}, p.complete - {k}, set x | x in p.members && x.0 != k)
  }

  function Exit(p: Presence, k: string): Presence {
    Presence(p.tracked - {k}, p.complete - {k}, set x | x in p.members && x.0 != k)
  }

  function Goes(p: Presence, k: string, n: string, me: string): Presence {
    if n == me then Exit(p, k) else p.(members := p.members - {(k, n)})
  }

  function Rename(p: Presence, n: string, newNick: string): Presence {
    p.(members := (set x | x in p.members :: (x.0, if x.1 == n then newNick else x.1)))
  }

  /** A NAMES reply: a list that had ended starts afresh. */
  function Lists(p: Presence, k: string, nicks: set<string>): Presence {
    if k !in p.tracked then p
    else
      var kept := set x | x in p.members && (k in p.complete ==> x.0 != k);
      p.(complete := p.complete - {k}, members := kept + (set n | n in nicks :: (k, n)))
  }

  function ReplayStep(p: Presence, e: Event): Presence {
    if !e.Handle? then p
    else
      var ps := e.m.params;
      match e.kind
      case Names => if |ps| < 4 then p else Lists(p, Lower(ps[2]), Listed(e.prefixes, Split(ps[3], ' ')))
      case EndOfNames =>
        if |ps| < 2 || Lower(ps[1]) !in p.tracked then p else p.(complete := p.complete + {Lower(ps[1])})
      case Join =>
        if |ps| < 1 then p
        else Comes(if e.m.nick == e.me then Enter(p, Lower(ps[0])) else p, Lower(ps[0]), e.m.nick)
      case Kick => if |ps| < 2 then p else Goes(p, Lower(ps[0]), ps[1], e.me)
      case Part => if |ps| < 1 then p else Goes(p, Lower(ps[0]), e.m.nick, e.me)
      case Quit => p.(members := set x | x in p.members && x.1 != e.m.nick)
      case Nick => if |ps| < 1 then p else Rename(p, e.m.nick, ps[0])
      case _ => p
  }

  function ReplayAll(p: Presence, events: seq<Event>): Presence {
    if events == [] then p
    else
      var n := |events| - 1;
      ReplayStep(ReplayAll(p, events[..n]), events[n])
  }

  // ----- the maps refine it -----

  lemma MembersOf(channels: map<string, Chan>, k: string, n: string)
    ensures (k, n) in Members(channels) <==> k in channels && n in channels[k].nicks
  {}

  lemma {:induction false} AddEntriesKeys(prefixes: seq<Prefix>, nicks: map<string, string>, entries: seq<string>)
    ensures AddEntries(prefixes, nicks, entries).Keys == nicks.Keys + Listed(prefixes, entries)
  {
    if entries != [] {
      var n := |entries| - 1;
      AddEntriesKeys(prefixes, nicks, entries[..n]);
      var e := entries[n];
      assert Listed(prefixes, entries) ==
        Listed(prefixes, entries[..n]) + (if e != "" then {EntryNick(prefixes, e)} else {}) by {
        forall x | x in Listed(prefixes, entries)
          ensures x in Listed(prefixes, entries[..n]) || (e != "" && x == EntryNick(prefixes, e))
        {
          var i :| 0 <= i < |entries| && entries[i] != "" && EntryNick(prefixes, entries[i]) == x;
          if i < n { assert entries[..n][i] == entries[i]; }
        }
        forall x | x in Listed(prefixes, entries[..n]) ensures x in Listed(prefixes, entries) {
          var i :| 0 <= i < n && entries[..n][i] != "" && EntryNick(prefixes, entries[..n][i]) == x;
          assert entries[i] == entries[..n][i];
        }
      }
    }
  }

  lemma NamesRefines(c: Client, m: Message, prefixes: seq<Prefix>)
    requires |m.params| >= 4
    ensures PresenceOf(OnNames(c, m, prefixes)) ==
            Lists(PresenceOf(c), Lower(m.params[2]), Listed(prefixes, Split(m.params[3], ' ')))
  {
    var k := Lower(m.params[2]);
    if k in c.channels {
      var ch := c.channels[k];
      var entries := Split(m.params[3], ' ');
      AddEntriesKeys(prefixes, if ch.synced then map[] else ch.nicks, entries);
      var p, t := PresenceOf(c), OnNames(c, m, prefixes);
      var want := Lists(p, k, Listed(prefixes, entries));
      forall x: (string, string) ensures x in Members(t.channels) <==> x in want.members {
        MembersOf(t.channels, x.0, x.1);
        MembersOf(c.channels, x.0, x.1);
      }
    }
  }

  lemma JoinRefines(c: Client, m: Message, me: string)
    ensures PresenceOf(OnJoin(c, m, me)) == ReplayStep(PresenceOf(c), Handle(Join, m, me, true, []))
  {
    if |m.params| >= 1 {
      var k := Lower(m.params[0]);
      var t := OnJoin(c, m, me);
      var want := ReplayStep(PresenceOf(c), Handle(Join, m, me, true, []));
      forall x: (string, string) ensures x in Members(t.channels) <==> x in want.members {
        MembersOf(t.channels, x.0, x.1);
        MembersOf(c.channels, x.0, x.1);
      }
    }
  }

  lemma LeavesRefines(c: Client, name: string, nick: string, me: string)
    ensures PresenceOf(Leaves(c, name, nick, me)) == Goes(PresenceOf(c), Lower(name), nick, me)
  {
    var t := Leaves(c, name, nick, me);
    var want := Goes(PresenceOf(c), Lower(name), nick, me);
    forall x: (string, string) ensures x in Members(t.channels) <==> x in want.members {
      MembersOf(t.channels, x.0, x.1);
      MembersOf(c.channels, x.0, x.1);
    }
    assert PresenceOf(t).complete == want.complete;
  }

  lemma QuitRefines(c: Client, m: Message)
    ensures PresenceOf(OnQuit(c, m)) == PresenceOf(c).(members := set x | x in Members(c.channels) && x.1 != m.nick)
  {
    var t := OnQuit(c, m);
    forall x: (string, string) ensures x in Members(t.channels) <==> x in Members(c.channels) && x.1 != m.nick {
      MembersOf(t.channels, x.0, x.1);
      MembersOf(c.channels, x.0, x.1);
    }
  }

  lemma ModesKeepNicks(c: Client, m: Message, prefixes: seq<Prefix>)
    ensures PresenceOf(OnMode(c, m, prefixes)) == PresenceOf(c)
  {
    var t := OnMode(c, m, prefixes);
    forall x: (string, string) ensures x in Members(t.channels) <==> x in Members(c.channels) {
      MembersOf(t.channels, x.0, x.1);
      MembersOf(c.channels, x.0, x.1);
    }
  }

  lemma ChannelModesKeepNicks(c: Client, m: Message)
    ensures PresenceOf(OnChannelModes(c, m)) == PresenceOf(c)
  {
    var t := OnChannelModes(c, m);
    forall x: (string, string) ensures x in Members(t.channels) <==> x in Members(c.channels) {
      MembersOf(t.channels, x.0, x.1);
      MembersOf(c.channels, x.0, x.1);
    }
  }

  /** Nobody is in any channel under this nick. */
  predicate Absent(c: Client, nick: string) {
    forall k :: k in c.channels ==> nick !in c.channels[k].nicks
  }

  /** A NICK to another nick renames the nick wherever it is. */
  lemma NickRefines(c: Client, m: Message, me: string)
    requires |m.params| >= 1 && (m.nick != m.params[0] || Absent(c, m.nick))
    ensures PresenceOf(OnNick(c, m, me)) == Rename(PresenceOf(c), m.nick, m.params[0])
  {
    var n, newNick := m.nick, m.params[0];
    var t := OnNick(c, m, me);
    var want := Rename(PresenceOf(c), n, newNick);
    forall x: (string, string) ensures x in Members(t.channels) <==> x in want.members {
      MembersOf(t.channels, x.0, x.1);
      MembersOf(c.channels, x.0, x.1);
      if x in Members(t.channels) {
        var y := (x.0, if x.1 == newNick && n in c.channels[x.0].nicks then n else x.1);
        MembersOf(c.channels, y.0, y.1);
        assert y in Members(c.channels) && x == (y.0, if y.1 == n then newNick else y.1);
      }
      if x in want.members {
        var y :| y in Members(c.channels) && x == (y.0, if y.1 == n then newNick else y.1);
        MembersOf(c.channels, y.0, y.1);
      }
    }
  }

  /** A NICK to the same nick instead deletes it: the handler sets the new nick, then deletes the old
      one. So the maps follow a NICK exactly when the nicks differ or nobody has the nick. */
  lemma NickRefinesExactly(c: Client, m: Message, me: string)
    requires |m.params| >= 1
    ensures PresenceOf(OnNick(c, m, me)) == Rename(PresenceOf(c), m.nick, m.params[0])
       <==> m.nick != m.params[0] || Absent(c, m.nick)
  {
    if m.nick != m.params[0] || Absent(c, m.nick) {
      NickRefines(c, m, me);
    } else {
      var k :| k in c.channels && m.nick in c.channels[k].nicks;
      MembersOf(c.channels, k, m.nick);
      MembersOf(OnNick(c, m, me).channels, k, m.nick);
      assert (k, m.nick) == (k, if m.nick == m.nick then m.params[0] else m.nick);
      assert (k, m.nick) in Rename(PresenceOf(c), m.nick, m.params[0]).members;
    }
  }

  lemma SameNickIsLost()
    ensures exists c: Client, m: Message, me: string ::
      |m.params| >= 1 && m.nick == m.params[0] && "#a" in c.channels
      && m.nick in c.channels["#a"].nicks && "#a" in OnNick(c, m, me).channels
      && m.nick !in OnNick(c, m, me).channels["#a"].nicks
  {
    var c := Client(map["#a" := Chan("#a", map["me" := ""], "", true)], Config("me", ["#a"]), "");
    var m := Message("me", ["me"]);
    assert m.nick !in OnNick(c, m, "me").channels["#a"].nicks;
  }

  lemma EndOfNamesRefines(c: Client, m: Message)
    requires |m.params| >= 2
    ensures var k := Lower(m.params[1]);
            PresenceOf(OnEndOfNames(c, m)) ==
              if k in c.channels then PresenceOf(c).(complete := PresenceOf(c).complete + {k}) else PresenceOf(c)
  {
    var t := OnEndOfNames(c, m);
    forall x: (string, string) ensures x in Members(t.channels) <==> x in Members(c.channels) {
      MembersOf(t.channels, x.0, x.1);
      MembersOf(c.channels, x.0, x.1);
    }
  }

  /** A NICK, if it is one, changes the nick. */
  predicate Renames(e: Event) {
    e.Handle? && e.kind == Nick && |e.m.params| >= 1 ==> e.m.nick != e.m.params[0]
  }

  lemma StepRefines(c: Client, e: Event)
    requires Renames(e)
    ensures PresenceOf(Step(c, e)) == ReplayStep(PresenceOf(c), e)
  {
    if e.Handle? {
      var m := e.m;
      match e.kind
      case Names => if |m.params| >= 4 { NamesRefines(c, m, e.prefixes); }
      case EndOfNames => if |m.params| >= 2 { EndOfNamesRefines(c, m); }
      case Mode => ModesKeepNicks(c, m, e.prefixes);
      case ChannelModes => ChannelModesKeepNicks(c, m);
      case Join => JoinRefines(c, m, e.me);
      case Kick => if |m.params| >= 2 { LeavesRefines(c, m.params[0], m.params[1], e.me); }
      case Part => if |m.params| >= 1 { LeavesRefines(c, m.params[0], m.nick, e.me); }
      case Quit => QuitRefines(c, m);
      case Nick => if |m.params| >= 1 { NickRefines(c, m, e.me); }
      case _ =>
    }
  }

  /** After any history, the maps hold exactly who the replay says is where. */
  lemma {:induction false} MapsFollowTheHistory(c: Client, events: seq<Event>)
    requires forall i :: 0 <= i < |events| ==> Renames(events[i])
    ensures PresenceOf(After(c, events)) == ReplayAll(PresenceOf(c), events)
  {
    if events != [] {
      var n := |events| - 1;
      MapsFollowTheHistory(c, events[..n]);
      StepRefines(After(c, events[..n]), events[n]);
    }
  }

  // ----- what a QUIT or NICK is published to -----

  /** Every key is its channel's name lowercased, after any event. */
  lemma StepKeyed(c: Client, e: Event)
    requires Keyed(c.channels)
    ensures Keyed(Step(c, e).channels)
  {
    if e.Handle? {
      match e.kind
      case Join => JoinKeyed(c, e.m, e.me);
      case Mode => ModeKeyed(c, e.m, e.prefixes);
      case _ =>
    }
  }

  lemma JoinKeyed(c: Client, m: Message, me: string)
    requires Keyed(c.channels)
    ensures Keyed(OnJoin(c, m, me).channels)
  {
    if |m.params| >= 1 {
      LowerTwice(m.params[0]);
    }
  }

  lemma ModeKeyed(c: Client, m: Message, prefixes: seq<Prefix>)
    requires Keyed(c.channels)
    ensures Keyed(OnMode(c, m, prefixes).channels)
  {}

  lemma {:induction false} HistoryKeyed(c: Client, events: seq<Event>)
    requires Keyed(c.channels)
    ensures Keyed(After(c, events).channels)
  {
    if events != [] {
      var n := |events| - 1;
      HistoryKeyed(c, events[..n]);
      StepKeyed(After(c, events[..n]), events[n]);
    }
  }

  /** A QUIT or NICK is published to exactly the channels that the history had the nick in. */
  lemma PublishedWhereTheNickWas(c: Client, events: seq<Event>, nick: string)
    requires Keyed(c.channels) && (forall i :: 0 <= i < |events| ==> Renames(events[i]))
    ensures (set n | n in ChannelsOf(After(c, events), nick) :: Lower(n))
         == (set x | x in ReplayAll(PresenceOf(c), events).members && x.1 == nick :: x.0)
  {
    var t := After(c, events);
    HistoryKeyed(c, events);
    MapsFollowTheHistory(c, events);
    var lowered := set n | n in ChannelsOf(t, nick) :: Lower(n);
    var replayed := set x | x in Members(t.channels) && x.1 == nick :: x.0;
    forall k | k in lowered ensures k in replayed {
      var n :| n in ChannelsOf(t, nick) && Lower(n) == k;
      var j :| j in t.channels && nick in t.channels[j].nicks && t.channels[j].name == n;
      MembersOf(t.channels, j, nick);
      assert (j, nick) in Members(t.channels);
    }
    forall k | k in replayed ensures k in lowered {
      MembersOf(t.channels, k, nick);
      assert t.channels[k].name in ChannelsOf(t, nick);
    }
  }

  // ----- modes -----

  /** No nick's mode list holds a mode twice. */
  predicate ListsOnce(nicks: map<string, string>) {
    forall n :: n in nicks ==> Distinct(nicks[n])
  }

  predicate NickModesOnce(c: Client) {
    forall k :: k in c.channels ==> ListsOnce(c.channels[k].nicks)
  }

  /** No channel's own mode list does. */
  predicate ChannelModesOnce(c: Client) {
    forall k :: k in c.channels ==> Distinct(c.channels[k].mode)
  }

  lemma {:induction false} EntriesModesOnce(prefixes: seq<Prefix>, nicks: map<string, string>, entries: seq<string>)
    requires ListsOnce(nicks)
    ensures ListsOnce(AddEntries(prefixes, nicks, entries))
  {
    if entries != [] {
      var n := |entries| - 1;
      EntriesModesOnce(prefixes, nicks, entries[..n]);
      if entries[n] != "" {
        var modes := EntryModes(prefixes, entries[n]);
        assert |modes| <= 1;
      }
    }
  }

  lemma {:induction false} ChangedModesOnce(ch: Chan, prefixes: seq<Prefix>, action: char, modes: string, params: seq<string>)
    ensures var t := WithModes(ch, prefixes, action, modes, params);
            (ListsOnce(ch.nicks) ==> ListsOnce(t.nicks)) && (Distinct(ch.mode) ==> Distinct(t.mode))
  {
    if modes != "" {
      var n := |modes| - 1;
      ChangedModesOnce(ch, prefixes, action, modes[..n], params);
      ChangedModeOnce(WithModes(ch, prefixes, action, modes[..n], params), action, modes[n], params);
    }
  }

  lemma ChangedModeOnce(ch: Chan, action: char, mode: char, params: seq<string>)
    ensures Distinct(ch.mode) ==> Distinct(WithMode(ch, action, mode).mode)
    ensures |params| > 2 && ListsOnce(ch.nicks) ==> ListsOnce(WithNickMode(ch, action, mode, params[2]).nicks)
  {
    if Distinct(ch.mode) {
      RemoveModeRemoves(ch.mode, mode);
    }
    if |params| > 2 && ListsOnce(ch.nicks) && params[2] in ch.nicks {
      RemoveModeRemoves(ch.nicks[params[2]], mode);
    }
  }

  lemma NamesModesOnce(c: Client, m: Message, prefixes: seq<Prefix>)
    requires NickModesOnce(c)
    ensures NickModesOnce(OnNames(c, m, prefixes))
  {
    if |m.params| >= 4 && Lower(m.params[2]) in c.channels {
      var ch := c.channels[Lower(m.params[2])];
      EntriesModesOnce(prefixes, if ch.synced then map[] else ch.nicks, Split(m.params[3], ' '));
    }
  }

  lemma ModeModesOnce(c: Client, m: Message, prefixes: seq<Prefix>)
    ensures NickModesOnce(c) ==> NickModesOnce(OnMode(c, m, prefixes))
    ensures ChannelModesOnce(c) ==> ChannelModesOnce(OnMode(c, m, prefixes))
  {
    if |m.params| >= 2 && m.params[1] != "" && Lower(m.params[0]) in c.channels {
      ChangedModesOnce(c.channels[Lower(m.params[0])], prefixes, m.params[1][0], m.params[1][1..], m.params);
    }
  }

  lemma StepNickModesOnce(c: Client, e: Event)
    requires NickModesOnce(c)
    ensures NickModesOnce(Step(c, e))
  {
    if e.Handle? && e.kind == Names {
      NamesModesOnce(c, e.m, e.prefixes);
    } else if e.Handle? && e.kind == Mode {
      ModeModesOnce(c, e.m, e.prefixes);
    }
  }

  /** After any history, no nick's mode list holds a mode twice. */
  lemma {:induction false} NoNickModeTwice(c: Client, events: seq<Event>)
    requires NickModesOnce(c)
    ensures NickModesOnce(After(c, events))
  {
    if events != [] {
      var n := |events| - 1;
      NoNickModeTwice(c, events[..n]);
      StepNickModesOnce(After(c, events[..n]), events[n]);
    }
  }

  /** A 324 for a channel of ours that names a letter twice after its first character. */
  predicate Repeats(c: Client, e: Event) {
    e.Handle? && e.kind == ChannelModes && |e.m.params| >= 3 && Lower(e.m.params[1]) in c.channels
    && e.m.params[2] != "" && !Distinct(e.m.params[2][1..])
  }

  /** Only such a 324 brings a repeated mode to a channel, and each one does. */
  lemma StepRepeatsExactly(c: Client, e: Event)
    requires ChannelModesOnce(c)
    ensures ChannelModesOnce(Step(c, e)) <==> !Repeats(c, e)
  {
    if e.Handle? && e.kind == Mode {
      ModeModesOnce(c, e.m, e.prefixes);
    }
    if Repeats(c, e) {
      assert !Distinct(Step(c, e).channels[Lower(e.m.params[1])].mode);
    }
  }

  ghost predicate AlwaysOnce(c: Client, events: seq<Event>) {
    forall i: nat :: i <= |events| ==> ChannelModesOnce(At(c, events, i))
  }

  ghost predicate NeverRepeats(c: Client, events: seq<Event>) {
    forall i: nat :: i < |events| ==> !Repeats(At(c, events, i), events[i])
  }

  /** So no channel's mode list ever holds a mode twice, over a whole history, if and only if no 324 in
      it says so. */
  lemma NoChannelModeTwiceExactly(c: Client, events: seq<Event>)
    requires ChannelModesOnce(c)
    ensures AlwaysOnce(c, events) <==> NeverRepeats(c, events)
  {
    if AlwaysOnce(c, events) {
      forall i: nat | i < |events| ensures !Repeats(At(c, events, i), events[i]) {
        assert ChannelModesOnce(At(c, events, i)) && ChannelModesOnce(At(c, events, i + 1));
        AtMore(c, events, i);
        StepRepeatsExactly(At(c, events, i), events[i]);
      }
    }
    if NeverRepeats(c, events) {
      forall i: nat | i <= |events| ensures ChannelModesOnce(At(c, events, i)) {
        PlainModes(c, events, i);
      }
    }
  }

  lemma {:induction false} PlainModes(c: Client, events: seq<Event>, i: nat)
    requires ChannelModesOnce(c) && i <= |events| && NeverRepeats(c, events)
    ensures ChannelModesOnce(At(c, events, i))
  {
    if i > 0 {
      PlainModes(c, events, i - 1);
      AtMore(c, events, i - 1);
      StepRepeatsExactly(At(c, events, i - 1), events[i - 1]);
    }
  }

  /** ":s 324 me #a +nn" gives #a the mode list "nn", of which a later "-n" takes one n away. */
  lemma RepeatedModeIsKept(c: Client)
    requires "#a" in c.channels
    ensures var e := Handle(ChannelModes, Message("s", ["me", "#a", "+nn"]), "me", true, []);
            Repeats(c, e) && Step(c, e).channels["#a"].mode == "nn" && RemoveMode("nn", 'n') == "n"
  {
    assert Lower("#a") == "#a" by {
      assert "#a"[1..] == "a" && "a"[1..] == "";
    }
    assert "+nn"[1..] == "nn";
    assert "nn"[0] == "nn"[1];
  }
}
