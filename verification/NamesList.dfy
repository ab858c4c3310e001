/** A server's NAMES list, read by the handlers and printed back for the status. */
module NamesList {
  import opened Options
  import opened Text
  import opened Channels
  import opened Handlers
  import opened Isupport
  import opened ModeChanges

  /** One entry of a NAMES list: a nick, and the prefix it is shown with, if any. */
  datatype Entry = Entry(prefix: Option<Prefix>, nick: string)

  function Print(e: Entry): string {
    (if e.prefix.Some? then [e.prefix.value.symbol] else "") + e.nick
  }

  function Printed(entries: seq<Entry>): seq<string> {
    seq(|entries|, i requires 0 <= i < |entries| => Print(entries[i]))
  }

  function ModesOf(e: Entry): string {
    if e.prefix.Some? then [e.prefix.value.mode] else ""
  }

  // ----- the prefixes, and the entries a server can send with them -----

  ghost predicate DistinctPrefixes(prefixes: seq<Prefix>) {
    forall i, j :: 0 <= i < j < |prefixes| ==>
      prefixes[i].symbol != prefixes[j].symbol && prefixes[i].mode != prefixes[j].mode
  }

  ghost predicate IsSymbol(prefixes: seq<Prefix>, c: char) {
    exists i :: 0 <= i < |prefixes| && prefixes[i].symbol == c
  }

  /** The nick is not empty and does not start with a symbol; the prefix is one of the server's. */
  ghost predicate Sendable(prefixes: seq<Prefix>, e: Entry) {
    e.nick != "" && !IsSymbol(prefixes, e.nick[0]) && (e.prefix.Some? ==> e.prefix.value in prefixes)
  }

  lemma {:induction false} ModeOfSymbol(prefixes: seq<Prefix>, i: nat)
    requires DistinctPrefixes(prefixes) && i < |prefixes|
    ensures ModeOf(prefixes, prefixes[i].symbol) == Some(prefixes[i].mode)
  {
    if i > 0 {
      ModeOfSymbol(prefixes[1..], i - 1);
    }
  }

  lemma {:induction false} ModeOfOther(prefixes: seq<Prefix>, c: char)
    requires !IsSymbol(prefixes, c)
    ensures ModeOf(prefixes, c) == None
  {
    if prefixes != [] {
      assert prefixes[0].symbol != c;
      forall i | 0 <= i < |prefixes[1..]| ensures prefixes[1..][i].symbol != c { assert prefixes[i + 1].symbol != c; }
      ModeOfOther(prefixes[1..], c);
    }
  }

  lemma ReadsEntry(prefixes: seq<Prefix>, e: Entry)
    requires DistinctPrefixes(prefixes) && Sendable(prefixes, e)
    ensures Print(e) != "" && EntryNick(prefixes, Print(e)) == e.nick && EntryModes(prefixes, Print(e)) == ModesOf(e)
  {
    if e.prefix.Some? {
      var i :| 0 <= i < |prefixes| && prefixes[i] == e.prefix.value;
      ModeOfSymbol(prefixes, i);
      assert Print(e)[1..] == e.nick;
    } else {
      assert Print(e) == e.nick;
      ModeOfOther(prefixes, e.nick[0]);
    }
  }

  // ----- reading -----

  function Recorded(nicks: map<string, string>, entries: seq<Entry>): map<string, string> {
    if entries == [] then nicks
    else
      var n := |entries| - 1;
      Recorded(nicks, entries[..n])[entries[n].nick := ModesOf(entries[n])]
  }

  lemma {:induction false} ReadsEntries(prefixes: seq<Prefix>, nicks: map<string, string>, entries: seq<Entry>)
    requires DistinctPrefixes(prefixes) && (forall e :: e in entries ==> Sendable(prefixes, e))
    ensures AddEntries(prefixes, nicks, Printed(entries)) == Recorded(nicks, entries)
  {
    if entries != [] {
      var n := |entries| - 1;
      ReadsEntries(prefixes, nicks, entries[..n]);
      assert Printed(entries)[..n] == Printed(entries[..n]);
      ReadsEntry(prefixes, entries[n]);
    }
  }

  function NonEmpty(pieces: seq<string>): seq<string> {
    if pieces == [] then []
    else
      var n := |pieces| - 1;
      if pieces[n] != "" then NonEmpty(pieces[..n]) + [pieces[n]] else NonEmpty(pieces[..n])
  }

  lemma {:induction false} EmptyPiecesDoNothing(prefixes: seq<Prefix>, nicks: map<string, string>, pieces: seq<string>)
    ensures AddEntries(prefixes, nicks, pieces) == AddEntries(prefixes, nicks, NonEmpty(pieces))
  {
    if pieces != [] {
      var n := |pieces| - 1;
      EmptyPiecesDoNothing(prefixes, nicks, pieces[..n]);
      if pieces[n] != "" {
        assert NonEmpty(pieces)[..|NonEmpty(pieces)| - 1] == NonEmpty(pieces[..n]);
      }
    }
  }

  /** The line of a 353: its text, with one or more spaces between the entries, and any around them. */
  datatype Line = Line(text: string, entries: seq<Entry>)

  predicate Spells(line: Line) {
    NonEmpty(Split(line.text, ' ')) == Printed(line.entries)
  }

  /** A text with single spaces is one. */
  lemma JoinSpells(entries: seq<Entry>)
    requires forall e :: e in entries ==> Print(e) != "" && ' ' !in Print(e)
    ensures Spells(Line(Text.Join(Printed(entries), ' '), entries))
  {
    if entries == [] {
      assert Split("", ' ') == [""] && NonEmpty([""][..0]) == [];
    } else {
      forall p | p in Printed(entries) ensures p != "" && ' ' !in p {
        var i :| 0 <= i < |entries| && Printed(entries)[i] == p;
        assert entries[i] in entries;
      }
      SplitJoin(Printed(entries), ' ');
      AllNonEmpty(Printed(entries));
    }
  }

  lemma {:induction false} AllNonEmpty(pieces: seq<string>)
    requires "" !in pieces
    ensures NonEmpty(pieces) == pieces
  {
    if pieces != [] {
      var n := |pieces| - 1;
      AllNonEmpty(pieces[..n]);
      assert pieces == pieces[..n] + [pieces[n]];
    }
  }

  lemma ReadsText(prefixes: seq<Prefix>, nicks: map<string, string>, line: Line)
    requires DistinctPrefixes(prefixes) && Spells(line) && (forall e :: e in line.entries ==> Sendable(prefixes, e))
    ensures AddEntries(prefixes, nicks, Split(line.text, ' ')) == Recorded(nicks, line.entries)
  {
    EmptyPiecesDoNothing(prefixes, nicks, Split(line.text, ' '));
    ReadsEntries(prefixes, nicks, line.entries);
  }

  // ----- a whole list: one or more 353s, then a 366 -----

  function Flatten(lines: seq<Line>): seq<Entry> {
    if lines == [] then []
    else
      var n := |lines| - 1;
      Flatten(lines[..n]) + lines[n].entries
  }

  lemma {:induction false} RecordedMore(nicks: map<string, string>, a: seq<Entry>, b: seq<Entry>)
    ensures Recorded(nicks, a + b) == Recorded(Recorded(nicks, a), b)
  {
    if b == [] {
      assert a + b == a;
    } else {
      var n := |b| - 1;
      assert (a + b)[..|a + b| - 1] == a + b[..n];
      RecordedMore(nicks, a, b[..n]);
    }
  }

  /** The 353 with this line, for the channel that the target names. */
  function Reply(target: string, prefixes: seq<Prefix>, line: Line): Event {
    Handle(Names, Message("", ["", "=", target, line.text]), "", true, prefixes)
  }

  function NamesReplies(target: string, prefixes: seq<Prefix>, lines: seq<Line>): seq<Event> {
    seq(|lines|, i requires 0 <= i < |lines| => Reply(target, prefixes, lines[i]))
  }

  function EndReply(target: string): Event {
    Handle(EndOfNames, Message("", ["", target, ""]), "", true, [])
  }

  ghost predicate AllSendable(prefixes: seq<Prefix>, lines: seq<Line>) {
    (forall i :: 0 <= i < |lines| ==> Spells(lines[i]))
    && forall i, e :: 0 <= i < |lines| && e in lines[i].entries ==> Sendable(prefixes, e)
  }

  /** The client with this list of nicks for the channel. */
  function Listed(c: Client, k: string, synced: bool, nicks: map<string, string>): Client
    requires k in c.channels
  {
    c.(channels := c.channels[k := c.channels[k].(synced := synced, nicks := nicks)])
  }

  lemma ReadsReply(c: Client, target: string, prefixes: seq<Prefix>, line: Line)
    requires DistinctPrefixes(prefixes) && Spells(line) && (forall e :: e in line.entries ==> Sendable(prefixes, e))
    requires Lower(target) in c.channels
    ensures var ch := c.channels[Lower(target)];
            Step(c, Reply(target, prefixes, line)) ==
            Listed(c, Lower(target), false, Recorded(if ch.synced then map[] else ch.nicks, line.entries))
  {
    var ch := c.channels[Lower(target)];
    ReadsText(prefixes, if ch.synced then map[] else ch.nicks, line);
  }

  lemma AfterOneMore(c: Client, target: string, prefixes: seq<Prefix>, lines: seq<Line>)
    requires lines != []
    ensures var n := |lines| - 1;
            After(c, NamesReplies(target, prefixes, lines)) ==
            Step(After(c, NamesReplies(target, prefixes, lines[..n])), Reply(target, prefixes, lines[n]))
  {
    var n := |lines| - 1;
    assert NamesReplies(target, prefixes, lines)[..n] == NamesReplies(target, prefixes, lines[..n]);
  }

  lemma FirstReply(c: Client, target: string, prefixes: seq<Prefix>, lines: seq<Line>)
    requires DistinctPrefixes(prefixes) && AllSendable(prefixes, lines) && |lines| == 1
    requires Lower(target) in c.channels && c.channels[Lower(target)].synced
    ensures After(c, NamesReplies(target, prefixes, lines)) ==
            Listed(c, Lower(target), false, Recorded(map[], lines[0].entries))
  {
    AfterOneMore(c, target, prefixes, lines);
    ReadsReply(c, target, prefixes, lines[0]);
  }

  lemma NextReply(c: Client, target: string, prefixes: seq<Prefix>, lines: seq<Line>, nicks: map<string, string>)
    requires DistinctPrefixes(prefixes) && AllSendable(prefixes, lines) && lines != [] && Lower(target) in c.channels
    requires var n := |lines| - 1;
             After(c, NamesReplies(target, prefixes, lines[..n])) == Listed(c, Lower(target), false, nicks)
    ensures After(c, NamesReplies(target, prefixes, lines)) ==
            Listed(c, Lower(target), false, Recorded(nicks, lines[|lines| - 1].entries))
  {
    AfterOneMore(c, target, prefixes, lines);
    ReadsReply(Listed(c, Lower(target), false, nicks), target, prefixes, lines[|lines| - 1]);
  }

  lemma {:induction false} RepliesRecord(c: Client, target: string, prefixes: seq<Prefix>, lines: seq<Line>)
    requires DistinctPrefixes(prefixes) && AllSendable(prefixes, lines)
    requires Lower(target) in c.channels && c.channels[Lower(target)].synced && lines != []
    ensures After(c, NamesReplies(target, prefixes, lines)) ==
            Listed(c, Lower(target), false, Recorded(map[], Flatten(lines)))
  {
    var n := |lines| - 1;
    if n == 0 {
      FirstReply(c, target, prefixes, lines);
      assert Flatten(lines) == lines[0].entries;
    } else {
      RepliesRecord(c, target, prefixes, lines[..n]);
      NextReply(c, target, prefixes, lines, Recorded(map[], Flatten(lines[..n])));
      RecordedMore(map[], Flatten(lines[..n]), lines[n].entries);
    }
  }

  /** From a synced channel, any such list leaves exactly the listed nicks, with their modes, whatever
      was there before, and nothing else changed. */
  lemma ListIsWhatTheServerSent(c: Client, target: string, prefixes: seq<Prefix>, lines: seq<Line>)
    requires DistinctPrefixes(prefixes) && AllSendable(prefixes, lines)
    requires Lower(target) in c.channels && c.channels[Lower(target)].synced && lines != []
    ensures After(c, NamesReplies(target, prefixes, lines) + [EndReply(target)]) ==
            Listed(c, Lower(target), true, Recorded(map[], Flatten(lines)))
  {
    RepliesRecord(c, target, prefixes, lines);
    EndsList(c, NamesReplies(target, prefixes, lines), target, Recorded(map[], Flatten(lines)));
  }

  lemma EndsList(c: Client, replies: seq<Event>, target: string, nicks: map<string, string>)
    requires Lower(target) in c.channels && After(c, replies) == Listed(c, Lower(target), false, nicks)
    ensures After(c, replies + [EndReply(target)]) == Listed(c, Lower(target), true, nicks)
  {
    assert (replies + [EndReply(target)])[..|replies|] == replies;
  }

  // ----- printing it back -----

  /** The symbol of the first prefix that the modes have, or "". */
  function NickPrefix(prefixes: seq<Prefix>, modes: string): string {
    if prefixes == [] then ""
    else if prefixes[0].mode in modes then [prefixes[0].symbol]
    else NickPrefix(prefixes[1..], modes)
  }

  lemma {:induction false} PrefixOfMode(prefixes: seq<Prefix>, i: nat)
    requires DistinctPrefixes(prefixes) && i < |prefixes|
    ensures NickPrefix(prefixes, [prefixes[i].mode]) == [prefixes[i].symbol]
  {
    if i > 0 {
      PrefixOfMode(prefixes[1..], i - 1);
    }
  }

  lemma {:induction false} NoPrefixOfNone(prefixes: seq<Prefix>)
    ensures NickPrefix(prefixes, "") == ""
  {
    if prefixes != [] {
      NoPrefixOfNone(prefixes[1..]);
    }
  }

  lemma PrintsEntry(prefixes: seq<Prefix>, e: Entry)
    requires DistinctPrefixes(prefixes) && Sendable(prefixes, e)
    ensures NickPrefix(prefixes, ModesOf(e)) + e.nick == Print(e)
  {
    if e.prefix.Some? {
      var i :| 0 <= i < |prefixes| && prefixes[i] == e.prefix.value;
      PrefixOfMode(prefixes, i);
    } else {
      NoPrefixOfNone(prefixes);
    }
  }

  /** The i-th prefix is the first, and so the highest, whose mode is among the modes. */
  ghost predicate IsHighest(prefixes: seq<Prefix>, modes: string, i: nat) {
    i < |prefixes| && prefixes[i].mode in modes && forall j: nat :: j < i ==> prefixes[j].mode !in modes
  }

  lemma {:induction false} HighestIsPrinted(prefixes: seq<Prefix>, modes: string)
    ensures forall i: nat :: IsHighest(prefixes, modes, i) ==> NickPrefix(prefixes, modes) == [prefixes[i].symbol]
    ensures NickPrefix(prefixes, modes) == "" <==> forall i :: 0 <= i < |prefixes| ==> prefixes[i].mode !in modes
  {
    if prefixes != [] {
      var rest := prefixes[1..];
      HighestIsPrinted(rest, modes);
      forall i: nat | IsHighest(prefixes, modes, i) ensures NickPrefix(prefixes, modes) == [prefixes[i].symbol] {
        if i > 0 {
          forall j: nat | j < i - 1 ensures rest[j].mode !in modes { assert prefixes[j + 1].mode !in modes; }
          assert prefixes[0].mode !in modes && IsHighest(rest, modes, i - 1);
        }
      }
      assert forall i :: 0 < i < |prefixes| ==> prefixes[i] == rest[i - 1];
    }
  }

  /** After a MODE that gives a nick the i-th prefix's mode, the nick is printed with the higher of that prefix and
      the one it had, if any. */
  lemma GivenPrefixIsPrinted(c: Client, from: string, target: string, nick: string, prefixes: seq<Prefix>, i: nat)
    requires DistinctPrefixes(prefixes) && i < |prefixes| && from != Lower(target) && Lower(target) in c.channels
    requires nick in c.channels[Lower(target)].nicks && prefixes[i].mode !in c.channels[Lower(target)].nicks[nick]
    ensures var was := c.channels[Lower(target)].nicks[nick];
            var t := Step(c, ModeEvent(from, target, '+', prefixes[i].mode, nick, prefixes));
            Lower(target) in t.channels && nick in t.channels[Lower(target)].nicks
            && var now := t.channels[Lower(target)].nicks[nick];
               && (NickPrefix(prefixes, was) == "" ==> NickPrefix(prefixes, now) == [prefixes[i].symbol])
               && (forall h: nat :: IsHighest(prefixes, was, h) ==>
                     NickPrefix(prefixes, now) == [prefixes[if h < i then h else i].symbol])
  {
    var was := c.channels[Lower(target)].nicks[nick];
    GivenAndTakenBack(c, from, target, prefixes[i].mode, nick, prefixes);
    var now := was + [prefixes[i].mode];
    HighestIsPrinted(prefixes, was);
    HighestIsPrinted(prefixes, now);
    if NickPrefix(prefixes, was) == "" {
      assert IsHighest(prefixes, now, i);
    }
    forall h: nat | IsHighest(prefixes, was, h)
      ensures NickPrefix(prefixes, now) == [prefixes[if h < i then h else i].symbol]
    {
      assert IsHighest(prefixes, now, if h < i then h else i);
    }
  }

  /** NicksWithPrefix, in whatever order the map gives the nicks: one name for each. */
  method NicksWithPrefix(prefixes: seq<Prefix>, nicks: map<string, string>) returns (names: seq<string>)
    ensures |names| == |nicks|
    ensures multiset(names) == PrintedBack(prefixes, nicks, nicks.Keys)
  {
    names := [];
    var keys := nicks.Keys;
    while keys != {}
      invariant keys <= nicks.Keys && |names| + |keys| == |nicks.Keys|
      invariant multiset(names) + PrintedBack(prefixes, nicks, keys) == PrintedBack(prefixes, nicks, nicks.Keys)
    {
      var k :| k in keys;
      PrintedBackOne(prefixes, nicks, keys, k);
      keys := keys - {k};
      names := names + [NickPrefix(prefixes, nicks[k]) + k];
    }
  }

  /** The printed names of the keys, one for each. */
  ghost function PrintedBack(prefixes: seq<Prefix>, nicks: map<string, string>, keys: set<string>): multiset<string>
    requires keys <= nicks.Keys
  {
    if keys == {} then multiset{}
    else
      var k :| k in keys;
      multiset{NickPrefix(prefixes, nicks[k]) + k} + PrintedBack(prefixes, nicks, keys - {k})
  }

  lemma {:induction false} PrintedBackOne(prefixes: seq<Prefix>, nicks: map<string, string>, keys: set<string>, k: string)
    requires keys <= nicks.Keys && k in keys
    ensures PrintedBack(prefixes, nicks, keys) ==
            multiset{NickPrefix(prefixes, nicks[k]) + k} + PrintedBack(prefixes, nicks, keys - {k})
    decreases keys
  {
    var j :| j in keys && PrintedBack(prefixes, nicks, keys) ==
      multiset{NickPrefix(prefixes, nicks[j]) + j} + PrintedBack(prefixes, nicks, keys - {j});
    if j != k {
      PrintedBackOne(prefixes, nicks, keys - {j}, k);
      PrintedBackOne(prefixes, nicks, keys - {k}, j);
      assert keys - {j} - {k} == keys - {k} - {j};
    }
  }

  ghost predicate NicksOnce(entries: seq<Entry>) {
    forall i, j :: 0 <= i < j < |entries| ==> entries[i].nick != entries[j].nick
  }

  lemma {:induction false} RecordedKeys(nicks: map<string, string>, entries: seq<Entry>)
    ensures Recorded(nicks, entries).Keys == nicks.Keys + (set e | e in entries :: e.nick)
  {
    if entries != [] {
      var n := |entries| - 1;
      RecordedKeys(nicks, entries[..n]);
      assert entries == entries[..n] + [entries[n]];
    }
  }

  lemma {:induction false} PrintedBackKeeps(prefixes: seq<Prefix>, a: map<string, string>, b: map<string, string>, keys: set<string>)
    requires keys <= a.Keys && keys <= b.Keys && (forall k :: k in keys ==> a[k] == b[k])
    ensures PrintedBack(prefixes, a, keys) == PrintedBack(prefixes, b, keys)
    decreases keys
  {
    if keys != {} {
      var k :| k in keys;
      PrintedBackOne(prefixes, a, keys, k);
      PrintedBackOne(prefixes, b, keys, k);
      PrintedBackKeeps(prefixes, a, b, keys - {k});
    }
  }

  lemma PrintsOneMore(prefixes: seq<Prefix>, before: map<string, string>, e: Entry)
    requires DistinctPrefixes(prefixes) && Sendable(prefixes, e) && e.nick !in before
    ensures var nicks := before[e.nick := ModesOf(e)];
            PrintedBack(prefixes, nicks, nicks.Keys) == multiset{Print(e)} + PrintedBack(prefixes, before, before.Keys)
  {
    var nicks := before[e.nick := ModesOf(e)];
    assert nicks.Keys - {e.nick} == before.Keys;
    PrintedBackOne(prefixes, nicks, nicks.Keys, e.nick);
    PrintedBackKeeps(prefixes, nicks, before, before.Keys);
    PrintsEntry(prefixes, e);
  }

  lemma LastIsNew(entries: seq<Entry>, e: Entry)
    requires NicksOnce(entries + [e])
    ensures e.nick !in Recorded(map[], entries) && NicksOnce(entries)
  {
    RecordedKeys(map[], entries);
    var all := entries + [e];
    forall i | 0 <= i < |entries| ensures entries[i].nick != e.nick {
      assert all[i].nick != all[|entries|].nick;
    }
    forall i, j | 0 <= i < j < |entries| ensures entries[i].nick != entries[j].nick {
      assert all[i].nick != all[j].nick;
    }
  }

  lemma PrintedMore(entries: seq<Entry>, e: Entry)
    ensures multiset(Printed(entries + [e])) == multiset{Print(e)} + multiset(Printed(entries))
  {
    assert Printed(entries + [e]) == Printed(entries) + [Print(e)];
  }

  /** Printing what was read gives back exactly the server's entries, each once. */
  lemma {:induction false} PrintsBackTheList(prefixes: seq<Prefix>, entries: seq<Entry>)
    requires DistinctPrefixes(prefixes) && (forall e :: e in entries ==> Sendable(prefixes, e)) && NicksOnce(entries)
    ensures var nicks := Recorded(map[], entries);
            PrintedBack(prefixes, nicks, nicks.Keys) == multiset(Printed(entries))
  {
    if entries != [] {
      var n := |entries| - 1;
      var fewer := entries[..n];
      assert entries == fewer + [entries[n]];
      PrintsBackTheList(prefixes, fewer);
      LastIsNew(fewer, entries[n]);
      PrintsOneMore(prefixes, Recorded(map[], fewer), entries[n]);
      PrintedMore(fewer, entries[n]);
    }
  }

  /** The whole round trip, with the prefixes that the server's ISUPPORT gives: the list the server
      sent, read and printed. */
  lemma NamesRoundTrip(c: Client, target: string, isupport: map<string, string>, lines: seq<Line>)
    requires var prefixes := PrefixesFrom(isupport);
             DistinctPrefixes(prefixes) && AllSendable(prefixes, lines) && NicksOnce(Flatten(lines))
    requires Lower(target) in c.channels && c.channels[Lower(target)].synced && lines != []
    ensures var prefixes := PrefixesFrom(isupport);
            var t := After(c, NamesReplies(target, prefixes, lines) + [EndReply(target)]);
            Lower(target) in t.channels
            && var nicks := t.channels[Lower(target)].nicks;
               nicks.Keys == (set e | e in Flatten(lines) :: e.nick)
               && PrintedBack(prefixes, nicks, nicks.Keys) == multiset(Printed(Flatten(lines)))
  {
    var prefixes := PrefixesFrom(isupport);
    ListIsWhatTheServerSent(c, target, prefixes, lines);
    FlattenSendable(prefixes, lines);
    RecordedKeys(map[], Flatten(lines));
    PrintsBackTheList(prefixes, Flatten(lines));
  }

  /** The lines of a server that puts single spaces between the entries. */
  function Joined(lists: seq<seq<Entry>>): seq<Line> {
    seq(|lists|, i requires 0 <= i < |lists| => Line(Text.Join(Printed(lists[i]), ' '), lists[i]))
  }

  ghost predicate SendableLists(prefixes: seq<Prefix>, lists: seq<seq<Entry>>) {
    forall i, e :: 0 <= i < |lists| && e in lists[i] ==> Sendable(prefixes, e) && ' ' !in Print(e)
  }

  lemma JoinedSendable(prefixes: seq<Prefix>, lists: seq<seq<Entry>>)
    requires SendableLists(prefixes, lists)
    ensures AllSendable(prefixes, Joined(lists))
  {
    forall i | 0 <= i < |lists| ensures Spells(Joined(lists)[i]) {
      JoinSpells(lists[i]);
    }
  }

  /** So with such lines, for entries without spaces. */
  lemma JoinedNamesRoundTrip(c: Client, target: string, isupport: map<string, string>, lists: seq<seq<Entry>>)
    requires DistinctPrefixes(PrefixesFrom(isupport)) && SendableLists(PrefixesFrom(isupport), lists)
    requires NicksOnce(Flatten(Joined(lists)))
    requires Lower(target) in c.channels && c.channels[Lower(target)].synced && lists != []
    ensures var prefixes, lines := PrefixesFrom(isupport), Joined(lists);
            var t := After(c, NamesReplies(target, prefixes, lines) + [EndReply(target)]);
            Lower(target) in t.channels
            && var nicks := t.channels[Lower(target)].nicks;
               PrintedBack(prefixes, nicks, nicks.Keys) == multiset(Printed(Flatten(lines)))
  {
    JoinedSendable(PrefixesFrom(isupport), lists);
    NamesRoundTrip(c, target, isupport, Joined(lists));
  }

  lemma {:induction false} FlattenSendable(prefixes: seq<Prefix>, lines: seq<Line>)
    requires AllSendable(prefixes, lines)
    ensures forall e :: e in Flatten(lines) ==> Sendable(prefixes, e)
  {
    if lines != [] {
      FlattenSendable(prefixes, lines[..|lines| - 1]);
    }
  }
}
