/** What each event does to the modes of one nick in one channel, and to the channel itself. */
module MemberModes {
  import opened Options
  import opened Text
  import opened Channels
  import opened Handlers
  import opened ModeChanges

  /** The modes of a nick in a channel, if it is there. */
  function ModesAt(c: Client, k: string, n: string): Option<string> {
    if k in c.channels && n in c.channels[k].nicks then Some(c.channels[k].nicks[n]) else None
  }

  /** The modes that the last of the entries naming the nick gives it. */
  function LastListed(prefixes: seq<Prefix>, entries: seq<string>, n: string): Option<string> {
    if entries == [] then None
    else
      var e := entries[|entries| - 1];
      if e != "" && EntryNick(prefixes, e) == n then Some(EntryModes(prefixes, e))
      else LastListed(prefixes, entries[..|entries| - 1], n)
  }

  lemma {:induction false} EntriesList(prefixes: seq<Prefix>, nicks: map<string, string>, entries: seq<string>, n: string)
    ensures var t, last := AddEntries(prefixes, nicks, entries), LastListed(prefixes, entries, n);
            (n in t <==> last.Some? || n in nicks)
            && (n in t ==> t[n] == if last.Some? then last.value else nicks[n])
  {
    if entries != [] {
      EntriesList(prefixes, nicks, entries[..|entries| - 1], n);
    }
  }

  /** An event that concerns the channel at k, by its first parameter. */
  predicate About(e: Event, k: string) {
    e.Handle? && |e.m.params| >= 1 && Lower(e.m.params[0]) == k
  }

  /** Whether our own JOIN or leaving of the channel at k empties it. */
  predicate Afresh(e: Event, k: string) {
    (OwnJoin(e) || OwnLeave(e)) && About(e, k)
  }

  /** The nick n leaves the channel at k. */
  predicate Leaves(e: Event, k: string, n: string) {
    e.Handle?
    && ((e.kind == Quit && e.m.nick == n)
        || (e.kind == Part && About(e, k) && e.m.nick == n)
        || (e.kind == Kick && About(e, k) && |e.m.params| >= 2 && e.m.params[1] == n))
  }

  predicate IsNick(e: Event) {
    e.Handle? && e.kind == Nick && |e.m.params| >= 1
  }

  predicate ListsAt(c: Client, e: Event, k: string) {
    e.Handle? && e.kind == Names && |e.m.params| >= 4 && Lower(e.m.params[2]) == k && k in c.channels
  }

  /** The modes of n in the channel at k after any event but a MODE: those of its last entry in a list of the channel;
      none after a JOIN; after a NICK those of the old nick; and else what they were. A nick that leaves, or has
      another nick now, is not there, and our own JOIN and leaving leave nobody else. */
  function ModesNext(c: Client, e: Event, k: string, n: string): Option<string> {
    if ListsAt(c, e, k) then
      var listed := LastListed(e.prefixes, Split(e.m.params[3], ' '), n);
      if listed.Some? then listed else if c.channels[k].synced then None else ModesAt(c, k, n)
    else if e.Handle? && e.kind == Join && About(e, k) && e.m.nick == n && (OwnJoin(e) || k in c.channels) then Some("")
    else if Afresh(e, k) || Leaves(e, k, n) then None
    else if IsNick(e) && ModesAt(c, k, e.m.nick).Some? then
      (if n == e.m.nick then None else if n == e.m.params[0] then ModesAt(c, k, e.m.nick) else ModesAt(c, k, n))
    else ModesAt(c, k, n)
  }

  lemma NamesFollow(c: Client, e: Event, k: string, n: string)
    requires e.Handle? && e.kind == Names
    ensures ModesAt(Step(c, e), k, n) == ModesNext(c, e, k, n)
  {
    if ListsAt(c, e, k) {
      var ch := c.channels[k];
      EntriesList(e.prefixes, if ch.synced then map[] else ch.nicks, Split(e.m.params[3], ' '), n);
    }
  }

  lemma JoinFollows(c: Client, e: Event, k: string, n: string)
    requires e.Handle? && e.kind == Join
    ensures ModesAt(Step(c, e), k, n) == ModesNext(c, e, k, n)
  {}

  lemma LeavingFollows(c: Client, e: Event, k: string, n: string)
    requires e.Handle? && (e.kind == Kick || e.kind == Part)
    ensures ModesAt(Step(c, e), k, n) == ModesNext(c, e, k, n)
  {
    if OwnLeave(e) {
      LowerTwice(e.m.params[0]);
    }
  }

  lemma QuitFollows(c: Client, e: Event, k: string, n: string)
    requires e.Handle? && e.kind == Quit
    ensures ModesAt(Step(c, e), k, n) == ModesNext(c, e, k, n)
  {}

  lemma NickFollows(c: Client, e: Event, k: string, n: string)
    requires e.Handle? && e.kind == Nick
    ensures ModesAt(Step(c, e), k, n) == ModesNext(c, e, k, n)
  {}

  /** So it is after every event but a MODE. */
  lemma ModesFollowTheEvent(c: Client, e: Event, k: string, n: string)
    requires e.Handle? ==> e.kind != Mode
    ensures ModesAt(Step(c, e), k, n) == ModesNext(c, e, k, n)
  {
    if e.Handle? {
      match e.kind
      case Names => NamesFollow(c, e, k, n);
      case Join => JoinFollows(c, e, k, n);
      case Kick => LeavingFollows(c, e, k, n);
      case Part => LeavingFollows(c, e, k, n);
      case Quit => QuitFollows(c, e, k, n);
      case Nick => NickFollows(c, e, k, n);
      case _ =>
    }
  }

  predicate SetsModes(e: Event, k: string) {
    e.Handle? && e.kind == ChannelModes && |e.m.params| >= 3 && Lower(e.m.params[1]) == k && e.m.params[2] != ""
  }

  predicate Completes(e: Event, k: string) {
    e.Handle? && e.kind == EndOfNames && |e.m.params| >= 2 && Lower(e.m.params[1]) == k
  }

  /** What the channel at k is after any event but a MODE: our own JOIN makes it afresh, with the name as spelled; a
      324 sets its modes, a 366 completes its list and a 353 opens it again; and else it stays as it was. */
  ghost predicate ChannelNext(c: Client, e: Event, t: map<string, Chan>, k: string) {
    var own := OwnJoin(e) && About(e, k);
    && (k in t <==> own || (k in c.channels && !Afresh(e, k)))
    && (k in t && own ==> t[k].name == e.m.params[0] && t[k].mode == "" && !t[k].synced)
    && (k in t && !own ==>
          var was := c.channels[k];
          && t[k].name == was.name
          && t[k].mode == (if SetsModes(e, k) then e.m.params[2][1..] else was.mode)
          && t[k].synced == (if ListsAt(c, e, k) then false else was.synced || Completes(e, k)))
  }

  lemma JoinMakesChannel(c: Client, e: Event, k: string)
    requires e.Handle? && e.kind == Join
    ensures ChannelNext(c, e, Step(c, e).channels, k)
  {}

  lemma LeavingDropsChannel(c: Client, e: Event, k: string)
    requires e.Handle? && (e.kind == Kick || e.kind == Part)
    ensures ChannelNext(c, e, Step(c, e).channels, k)
  {
    if OwnLeave(e) {
      LowerTwice(e.m.params[0]);
    }
  }

  lemma ChannelFollowsTheEvent(c: Client, e: Event, k: string)
    requires e.Handle? ==> e.kind != Mode
    ensures ChannelNext(c, e, Step(c, e).channels, k)
  {
    if e.Handle? && e.kind == Join {
      JoinMakesChannel(c, e, k);
    } else if e.Handle? && (e.kind == Kick || e.kind == Part) {
      LeavingDropsChannel(c, e, k);
    }
  }

  function NickEvent(from: string, to: string, me: string): Event {
    Handle(Nick, Message(from, [to]), me, true, [])
  }

  /** A NICK and the NICK back leave every channel as it was, with every mode, if nobody had the other nick. */
  lemma RenamedAndBack(c: Client, from: string, to: string, me: string)
    requires from != to && forall k :: k in c.channels ==> to !in c.channels[k].nicks
    ensures Step(Step(c, NickEvent(from, to, me)), NickEvent(to, from, me)).channels == c.channels
  {
    var there := Step(c, NickEvent(from, to, me)).channels;
    var back := Step(Step(c, NickEvent(from, to, me)), NickEvent(to, from, me)).channels;
    forall k | k in c.channels ensures back[k] == c.channels[k] {
      assert there[k] == Renamed(c.channels[k], from, to) && back[k] == Renamed(there[k], to, from);
      assert back[k].nicks == c.channels[k].nicks;
    }
  }

  // ----- the case of a channel's name -----

  /** Which parameter names the channel. */
  function NameIndex(kind: Kind): nat {
    match kind
    case Names => 2
    case EndOfNames => 1
    case ChannelModes => 1
    case _ => 0
  }

  predicate NamesAChannel(kind: Kind) {
    kind == Names || kind == EndOfNames || kind == ChannelModes || kind == Mode || kind == Join || kind == Kick || kind == Part
  }

  function Respelled(e: Event, name: string): Event
    requires e.Handle? && NameIndex(e.kind) < |e.m.params|
  {
    e.(m := e.m.(params := e.m.params[NameIndex(e.kind) := name]))
  }

  lemma {:induction false} ModesIgnoreTheName(ch: Chan, prefixes: seq<Prefix>, action: char, modes: string, ps: seq<string>, qs: seq<string>)
    requires |ps| == |qs| && (|ps| > 2 ==> ps[2] == qs[2])
    ensures WithModes(ch, prefixes, action, modes, ps) == WithModes(ch, prefixes, action, modes, qs)
  {
    if modes != "" {
      ModesIgnoreTheName(ch, prefixes, action, modes[..|modes| - 1], ps, qs);
    }
  }

  /** A message is about the same channel however the name is capitalized: it has the same effect, but that our own
      JOIN keeps the spelling. */
  lemma CaseOfTheNameIsIgnored(c: Client, e: Event, name: string)
    requires e.Handle? && NamesAChannel(e.kind) && NameIndex(e.kind) < |e.m.params|
    requires SameLetters(name, e.m.params[NameIndex(e.kind)])
    ensures var s, t := Step(c, e), Step(c, Respelled(e, name));
            && (!OwnJoin(e) ==> t == s)
            && (OwnJoin(e) ==> t.channels.Keys == s.channels.Keys
                               && forall k, n :: ModesAt(t, k, n) == ModesAt(s, k, n))
  {
    var ps := e.m.params;
    FoldsExactly(name, ps[NameIndex(e.kind)]);
    if e.kind == Mode && ChangesModes(c, e.m) {
      ModesIgnoreTheName(c.channels[Lower(ps[0])], e.prefixes, ps[1][0], ps[1][1..], ps, Respelled(e, name).m.params);
    }
    if OwnJoin(e) {
      forall k, n ensures ModesAt(Step(c, Respelled(e, name)), k, n) == ModesAt(Step(c, e), k, n) {
        ModesFollowTheEvent(c, e, k, n);
        ModesFollowTheEvent(c, Respelled(e, name), k, n);
      }
    }
  }
}
