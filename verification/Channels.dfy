/** A channel's modes and nicks, as channel.go keeps them. */
module Channels {
  import opened Text

  predicate Distinct<T(==)>(s: seq<T>) {
    forall i, j :: 0 <= i < j < |s| ==> s[i] != s[j]
  }

  function AddMode(modes: string, mode: char): (r: string)
    ensures forall m :: m in r <==> m in modes || m == mode
    ensures Distinct(modes) ==> Distinct(r)
  {
    if mode in modes then modes else modes + [mode]
  }

  /** modes without its first `mode`. */
  function RemoveMode(modes: string, mode: char): string {
    var i := IndexOf(modes, mode);
    if i == |modes| then modes else modes[..i] + modes[i + 1..]
  }

  /** On a list without repeats, removing a mode removes it and nothing else. */
  lemma RemoveModeRemoves(modes: string, mode: char)
    requires Distinct(modes)
    ensures Distinct(RemoveMode(modes, mode))
    ensures forall m :: m in RemoveMode(modes, mode) <==> m in modes && m != mode
  {
    var i := IndexOf(modes, mode);
    if i < |modes| {
      var r := RemoveMode(modes, mode);
      forall m | m in modes && m != mode ensures m in r {
        var j :| 0 <= j < |modes| && modes[j] == m;
        assert m == r[if j < i then j else j - 1];
      }
    }
  }

  /** On any list, it takes the mode away once. */
  lemma RemoveModeTakesOne(modes: string, mode: char)
    ensures multiset(RemoveMode(modes, mode)) == multiset(modes) - multiset{mode}
  {
    var i := IndexOf(modes, mode);
    if i < |modes| {
      assert modes == modes[..i] + [mode] + modes[i + 1..];
    } else {
      assert mode !in modes;
    }
  }

  /** Taking a mode back restores the list it was given to. */
  lemma AddThenRemove(modes: string, mode: char)
    requires mode !in modes
    ensures RemoveMode(AddMode(modes, mode), mode) == modes
  {
    var added := AddMode(modes, mode);
    assert IndexOf(added, mode) == |modes| by {
      assert added[IndexOf(added, mode)] == mode;
    }
  }

  /** What a channel is: its name as spelled by the server, its nicks' modes, its own, and whether its
      NAMES list is complete. */
  datatype Chan = Chan(name: string, nicks: map<string, string>, mode: string, synced: bool)

  function WithMode(ch: Chan, action: char, mode: char): Chan {
    if action == '+' then ch.(mode := AddMode(ch.mode, mode))
    else if action == '-' then ch.(mode := RemoveMode(ch.mode, mode))
    else ch
  }

  function WithNickMode(ch: Chan, action: char, mode: char, nick: string): Chan {
    if nick !in ch.nicks then ch
    else if action == '+' then ch.(nicks := ch.nicks[nick := AddMode(ch.nicks[nick], mode)])
    else if action == '-' then ch.(nicks := ch.nicks[nick := RemoveMode(ch.nicks[nick], mode)])
    else ch
  }

  class IRCChannel {
    var name: string
    var nicks: map<string, string>
    var mode: string
    var synced: bool

    function View(): Chan
      reads this
    {
      Chan(name, nicks, mode, synced)
    }

    /** A channel we have just joined. */
    constructor (name: string)
      ensures View() == Chan(name, map[], "", false)
    {
      this.name, nicks, mode, synced := name, map[], "", false;
    }

    method SetMode(action: char, m: char)
      modifies this
      ensures View() == WithMode(old(View()), action, m)
    {
      if action == '+' {
        mode := AddMode(mode, m);
      } else if action == '-' {
        mode := RemoveMode(mode, m);
      }
    }

    method SetNickMode(action: char, m: char, nick: string)
      modifies this
      ensures View() == WithNickMode(old(View()), action, m, nick)
    {
      if nick in nicks {
        if action == '+' {
          nicks := nicks[nick := AddMode(nicks[nick], m)];
        } else if action == '-' {
          nicks := nicks[nick := RemoveMode(nicks[nick], m)];
        }
      }
    }
  }
}
