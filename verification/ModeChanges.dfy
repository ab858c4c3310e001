/** What one MODE makes of a channel's modes and its nicks', letter by letter. */
module ModeChanges {
  import opened Text
  import opened Channels
  import opened Handlers

  /** How often a mode is in its list after a MODE that names it so many times. */
  function CountAfter(was: nat, times: nat, action: char): nat {
    if times == 0 then was
    else if action == '+' then (if was == 0 then 1 else was)
    else if action == '-' then (if was < times then 0 else was - times)
    else was
  }

  /** The list after a MODE, of whose letters those for nicks, or those not for nicks, count. */
  ghost predicate Changed(was: string, now: string, action: char, prefixes: seq<Prefix>, modes: string, ofNicks: bool) {
    forall m :: multiset(now)[m] ==
      CountAfter(multiset(was)[m], if IsNickMode(prefixes, m) == ofNicks then multiset(modes)[m] else 0, action)
  }

  /** A list after one letter. */
  function Applied(modes: string, action: char, mode: char): string {
    if action == '+' then AddMode(modes, mode) else if action == '-' then RemoveMode(modes, mode) else modes
  }

  lemma AppliedCounts(modes: string, action: char, mode: char, m: char)
    ensures multiset(Applied(modes, action, mode))[m] ==
            if m == mode then CountAfter(multiset(modes)[m], 1, action) else multiset(modes)[m]
  {
    if action == '+' {
      assert mode in modes <==> multiset(modes)[mode] > 0;
      assert multiset(modes + [mode]) == multiset(modes) + multiset{mode};
    } else if action == '-' {
      RemoveModeTakesOne(modes, mode);
    }
  }

  lemma CountOnce(was: nat, times: nat, action: char)
    ensures CountAfter(CountAfter(was, times, action), 1, action) == CountAfter(was, times + 1, action)
  {}

  lemma ChangedMore(was: string, now: string, action: char, prefixes: seq<Prefix>, modes: string, ofNicks: bool)
    requires modes != "" && Changed(was, now, action, prefixes, modes[..|modes| - 1], ofNicks)
    ensures var mode := modes[|modes| - 1];
            Changed(was, if IsNickMode(prefixes, mode) == ofNicks then Applied(now, action, mode) else now,
                    action, prefixes, modes, ofNicks)
  {
    var fewer, mode := modes[..|modes| - 1], modes[|modes| - 1];
    var next := if IsNickMode(prefixes, mode) == ofNicks then Applied(now, action, mode) else now;
    forall m ensures multiset(next)[m] ==
      CountAfter(multiset(was)[m], if IsNickMode(prefixes, m) == ofNicks then multiset(modes)[m] else 0, action)
    {
      OneMore(modes, m);
      AppliedCounts(now, action, mode, m);
      CountOnce(multiset(was)[m], multiset(fewer)[m], action);
      assert multiset(now)[m] ==
        CountAfter(multiset(was)[m], if IsNickMode(prefixes, m) == ofNicks then multiset(fewer)[m] else 0, action);
    }
  }

  lemma OneMore(modes: string, m: char)
    requires modes != ""
    ensures multiset(modes)[m] == multiset(modes[..|modes| - 1])[m] + (if m == modes[|modes| - 1] then 1 else 0)
  {
    assert modes == modes[..|modes| - 1] + [modes[|modes| - 1]];
  }

  function WithList(ch: Chan, nick: string, modes: string): Chan {
    ch.(nicks := ch.nicks[nick := modes])
  }

  lemma NickModeIs(ch: Chan, action: char, mode: char, nick: string)
    requires nick in ch.nicks
    ensures WithNickMode(ch, action, mode, nick) == WithList(ch, nick, Applied(ch.nicks[nick], action, mode))
  {
    assert ch.nicks[nick := ch.nicks[nick]] == ch.nicks;
  }

  /** The nick's list after all the letters. */
  function NickList(was: string, prefixes: seq<Prefix>, action: char, modes: string): string {
    if modes == "" then was
    else
      var n := |modes| - 1;
      var before := NickList(was, prefixes, action, modes[..n]);
      if IsNickMode(prefixes, modes[n]) then Applied(before, action, modes[n]) else before
  }

  lemma {:induction false} NickListChanged(was: string, prefixes: seq<Prefix>, action: char, modes: string)
    ensures Changed(was, NickList(was, prefixes, action, modes), action, prefixes, modes, true)
  {
    if modes != "" {
      var n := |modes| - 1;
      NickListChanged(was, prefixes, action, modes[..n]);
      ChangedMore(was, NickList(was, prefixes, action, modes[..n]), action, prefixes, modes, true);
    }
  }

  lemma {:induction false} NickListIs(ch: Chan, prefixes: seq<Prefix>, action: char, modes: string, params: seq<string>)
    requires |params| > 2
    ensures WithModes(ch, prefixes, action, modes, params) ==
            if params[2] in ch.nicks then WithList(ch, params[2], NickList(ch.nicks[params[2]], prefixes, action, modes))
            else ch
  {
    if modes != "" {
      var n, nick := |modes| - 1, params[2];
      NickListIs(ch, prefixes, action, modes[..n], params);
      if nick in ch.nicks {
        NickModeIs(WithModes(ch, prefixes, action, modes[..n], params), action, modes[n], nick);
      }
    } else if params[2] in ch.nicks {
      assert ch.nicks[params[2] := ch.nicks[params[2]]] == ch.nicks;
    }
  }

  /** A MODE with a nick changes that nick's modes, by the letters for nicks; nothing else of the
      channel changes, and nothing at all if the nick is not there. */
  lemma NickModesChange(ch: Chan, prefixes: seq<Prefix>, action: char, modes: string, params: seq<string>)
    requires |params| > 2
    ensures var t, nick := WithModes(ch, prefixes, action, modes, params), params[2];
            && (nick !in ch.nicks ==> t == ch)
            && (nick in ch.nicks ==>
                  nick in t.nicks && t == WithList(ch, nick, t.nicks[nick])
                  && Changed(ch.nicks[nick], t.nicks[nick], action, prefixes, modes, true))
  {
    NickListIs(ch, prefixes, action, modes, params);
    if params[2] in ch.nicks {
      NickListChanged(ch.nicks[params[2]], prefixes, action, modes);
    }
  }

  /** A MODE without a nick changes the channel's modes, by the letters not for nicks; a nick's modes
      never change. A letter that the list holds more than once loses one for each "-" of it. */
  lemma {:induction false} ChannelModesChange(ch: Chan, prefixes: seq<Prefix>, action: char, modes: string, params: seq<string>)
    requires |params| == 2
    ensures var t := WithModes(ch, prefixes, action, modes, params);
            t == ch.(mode := t.mode) && Changed(ch.mode, t.mode, action, prefixes, modes, false)
  {
    if modes != "" {
      var n := |modes| - 1;
      ChannelModesChange(ch, prefixes, action, modes[..n], params);
      ChangedMore(ch.mode, WithModes(ch, prefixes, action, modes[..n], params).mode, action, prefixes, modes, false);
    }
  }

  /** A mode given to a nick that did not have it, and taken back by the next MODE, leaves the channel as
      it was. */
  lemma GivenAndTaken(ch: Chan, prefixes: seq<Prefix>, mode: char, params: seq<string>)
    requires |params| > 2 && IsNickMode(prefixes, mode) && params[2] in ch.nicks && mode !in ch.nicks[params[2]]
    ensures WithModes(WithModes(ch, prefixes, '+', [mode], params), prefixes, '-', [mode], params) == ch
  {
    AddThenRemove(ch.nicks[params[2]], mode);
    assert [mode][..0] == "";
    var given := ch.(nicks := ch.nicks[params[2] := AddMode(ch.nicks[params[2]], mode)]);
    assert WithModes(ch, prefixes, '+', [mode], params) == given;
    assert WithModes(given, prefixes, '-', [mode], params) == WithNickMode(given, '-', mode, params[2]);
    assert given.nicks[params[2] := ch.nicks[params[2]]] == ch.nicks;
  }

  // ----- the handler -----

  /** A MODE of someone, not of us by the server, for a channel of ours. */
  predicate ChangesModes(c: Client, m: Message) {
    |m.params| >= 2 && Lower(m.params[0]) in c.channels && m.nick != Lower(m.params[0]) && m.params[1] != ""
  }

  /** What a MODE event does: with a nick, the letters for nicks change that nick's modes in the channel, if it is
      there; without one, the others change the channel's own; all with the first letter's action. Every other
      channel, nick and field stays, and any other MODE changes nothing. */
  lemma ModeEventChanges(c: Client, m: Message, me: string, registered: bool, prefixes: seq<Prefix>)
    ensures var t := Step(c, Handle(Mode, m, me, registered, prefixes));
            if !ChangesModes(c, m) then t == c
            else
              var k, action, modes := Lower(m.params[0]), m.params[1][0], m.params[1][1..];
              k in t.channels
              && var was, now := c.channels[k], t.channels[k];
                 && t == c.(channels := c.channels[k := now])
                 && (|m.params| == 2 ==> now == was.(mode := now.mode) && Changed(was.mode, now.mode, action, prefixes, modes, false))
                 && (|m.params| > 2 && m.params[2] !in was.nicks ==> now == was)
                 && (|m.params| > 2 && m.params[2] in was.nicks ==>
                       var nick := m.params[2];
                       nick in now.nicks && now == WithList(was, nick, now.nicks[nick])
                       && Changed(was.nicks[nick], now.nicks[nick], action, prefixes, modes, true))
  {
    if ChangesModes(c, m) {
      var was := c.channels[Lower(m.params[0])];
      if |m.params| == 2 {
        ChannelModesChange(was, prefixes, m.params[1][0], m.params[1][1..], m.params);
      } else {
        NickModesChange(was, prefixes, m.params[1][0], m.params[1][1..], m.params);
      }
    }
  }

  /** MODE target +letter nick, or with - */
  function ModeEvent(from: string, target: string, action: char, mode: char, nick: string, prefixes: seq<Prefix>): Event {
    Handle(Mode, Message(from, [target, [action, mode], nick]), "", true, prefixes)
  }

  /** A mode given to a nick that did not have it is in its list, and the MODE that takes it back leaves the client
      as it was. */
  lemma GivenAndTakenBack(c: Client, from: string, target: string, mode: char, nick: string, prefixes: seq<Prefix>)
    requires IsNickMode(prefixes, mode) && from != Lower(target) && Lower(target) in c.channels
    requires nick in c.channels[Lower(target)].nicks && mode !in c.channels[Lower(target)].nicks[nick]
    ensures var given := Step(c, ModeEvent(from, target, '+', mode, nick, prefixes));
            && Lower(target) in given.channels && nick in given.channels[Lower(target)].nicks
            && given.channels[Lower(target)].nicks[nick] == c.channels[Lower(target)].nicks[nick] + [mode]
            && Step(given, ModeEvent(from, target, '-', mode, nick, prefixes)) == c
  {
    var k, ch := Lower(target), c.channels[Lower(target)];
    var given := Step(c, ModeEvent(from, target, '+', mode, nick, prefixes));
    OneLetter(ch, prefixes, '+', mode, [target, ['+', mode], nick]);
    OneLetter(given.channels[k], prefixes, '-', mode, [target, ['-', mode], nick]);
    AddThenRemove(ch.nicks[nick], mode);
    assert given.channels[k].nicks[nick := ch.nicks[nick]] == ch.nicks;
    assert given.channels[k := ch] == c.channels;
  }

  lemma OneLetter(ch: Chan, prefixes: seq<Prefix>, action: char, mode: char, params: seq<string>)
    requires |params| > 2 && IsNickMode(prefixes, mode) && params[1] == [action, mode]
    ensures WithModes(ch, prefixes, params[1][0], params[1][1..], params) == WithNickMode(ch, action, mode, params[2])
  {
    assert params[1][1..] == [mode] && [mode][..0] == "";
  }
}
