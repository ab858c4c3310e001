/** The config that the handlers change, and the changes that they want published, over whole histories. */
module ConfigHistory {
  import opened Options
  import opened Text
  import opened Channels
  import opened Handlers
  import opened Replay

  // ----- removing a channel's entries -----

  /** idx picks, in order, the entries that do not name the channel. */
  ghost predicate Picks(idx: seq<nat>, entries: seq<string>, name: string, kept: seq<string>) {
    && |idx| == |kept|
    && (forall i, j :: 0 <= i < j < |idx| ==> idx[i] < idx[j])
    && (forall i :: 0 <= i < |idx| ==> idx[i] < |entries| && kept[i] == entries[idx[i]])
    && (forall j: nat :: j < |entries| && ChannelName(entries[j]) != name ==> j in idx)
    && (forall i :: 0 <= i < |kept| ==> ChannelName(kept[i]) != name)
  }

  lemma PicksMore(idx: seq<nat>, entries: seq<string>, name: string, kept: seq<string>)
    requires |entries| > 0 && Picks(idx, entries[..|entries| - 1], name, kept)
    ensures var n := |entries| - 1;
            if ChannelName(entries[n]) != name then Picks(idx + [n], entries, name, kept + [entries[n]])
            else Picks(idx, entries, name, kept)
  {
    var n := |entries| - 1;
    var more, all := idx, kept;
    if ChannelName(entries[n]) != name {
      more, all := idx + [n], kept + [entries[n]];
    }
    forall j: nat | j < |entries| && ChannelName(entries[j]) != name ensures j in more {
      if j < n {
        assert entries[..n][j] == entries[j];
        assert j in idx;
      } else {
        assert more[|idx|] == n;
      }
    }
    forall i | 0 <= i < |more| ensures more[i] < |entries| && all[i] == entries[more[i]] && ChannelName(all[i]) != name {
      if i < |idx| {
        assert more[i] == idx[i] && all[i] == kept[i] == entries[..n][idx[i]];
      }
    }
  }

  /** Where the entries that are kept are. */
  function KeptAt(entries: seq<string>, name: string): seq<nat> {
    if entries == [] then []
    else
      var n := |entries| - 1;
      KeptAt(entries[..n], name) + (if ChannelName(entries[n]) != name then [n] else [])
  }

  /** Removal leaves no entry for the channel, and keeps every other one, its key included, in order. */
  lemma {:induction false} WithoutKeepsTheRest(entries: seq<string>, name: string)
    ensures Picks(KeptAt(entries, name), entries, name, Without(entries, name))
    ensures !HasEntry(Without(entries, name), name)
  {
    if entries != [] {
      var n := |entries| - 1;
      WithoutKeepsTheRest(entries[..n], name);
      PicksMore(KeptAt(entries[..n], name), entries, name, Without(entries[..n], name));
      if ChannelName(entries[n]) == name {
        assert KeptAt(entries, name) == KeptAt(entries[..n], name);
        assert Without(entries, name) == Without(entries[..n], name);
      }
    }
  }

  lemma {:induction false} WithoutNothing(entries: seq<string>, name: string)
    ensures |Without(entries, name)| <= |entries|
    ensures |Without(entries, name)| == |entries| ==> Without(entries, name) == entries
  {
    if entries != [] {
      WithoutNothing(entries[..|entries| - 1], name);
    }
  }

  lemma {:induction false} WithoutKeepsOthers(entries: seq<string>, name: string, other: string)
    requires other != name
    ensures HasEntry(Without(entries, name), other) <==> HasEntry(entries, other)
  {
    if entries != [] {
      var n := |entries| - 1;
      WithoutKeepsOthers(entries[..n], name, other);
      var kept := Without(entries, name);
      if HasEntry(entries, other) {
        var i :| 0 <= i < |entries| && ChannelName(entries[i]) == other;
        if i < n {
          assert entries[..n][i] == entries[i];
          var j :| 0 <= j < |Without(entries[..n], name)| && ChannelName(Without(entries[..n], name)[j]) == other;
          assert kept[j] == Without(entries[..n], name)[j];
        } else {
          assert kept[|kept| - 1] == entries[n];
        }
      }
      if HasEntry(kept, other) {
        var j :| 0 <= j < |kept| && ChannelName(kept[j]) == other;
        if j < |Without(entries[..n], name)| {
          assert HasEntry(entries[..n], other);
          var i :| 0 <= i < n && ChannelName(entries[..n][i]) == other;
          assert entries[i] == entries[..n][i];
        }
      }
    }
  }

  // ----- the changes -----

  /** The logger's merge: the change's field replaces the saved one. */
  function Merge(config: Config, change: Change): Config {
    match change
    case ChannelsChange(channels) => config.(channels := channels)
    case NickChange(nick) => config.(nick := nick)
  }

  function MergeAll(config: Config, changes: seq<Change>): Config {
    if changes == [] then config
    else
      var n := |changes| - 1;
      Merge(MergeAll(config, changes[..n]), changes[n])
  }

  /** All the changes that a history makes, in order. */
  function Made(c: Client, events: seq<Event>): seq<Change> {
    if events == [] then []
    else
      var n := |events| - 1;
      Made(c, events[..n]) + Changes(After(c, events[..n]), events[n])
  }

  lemma {:induction false} MergeMore(config: Config, a: seq<Change>, b: seq<Change>)
    ensures MergeAll(config, a + b) == MergeAll(MergeAll(config, a), b)
  {
    if b == [] {
      assert a + b == a;
    } else {
      var n := |b| - 1;
      assert (a + b)[..|a + b| - 1] == a + b[..n];
      MergeMore(config, a, b[..n]);
    }
  }

  /** What an event makes of the config. */
  function NextConfig(c: Client, e: Event): Config {
    if OwnJoin(e) then WithEntry(c.config, e.m.params[0])
    else if OwnLeave(e) then c.config.(channels := Without(c.config.channels, Lower(e.m.params[0])))
    else if e.Handle? && e.kind == Nick && TakesRequest(c, e.m, e.me) then c.config.(nick := e.m.params[0])
    else c.config
  }

  lemma StepConfig(c: Client, e: Event)
    ensures Step(c, e).config == NextConfig(c, e)
  {
    if OwnLeave(e) {
      LowerTwice(e.m.params[0]);
    }
  }

  lemma MergesOne(config: Config, change: Change)
    ensures MergeAll(config, [change]) == Merge(config, change)
  {
    assert [change][..0] == [];
  }

  lemma StepMakes(c: Client, e: Event)
    ensures MergeAll(c.config, Changes(c, e)) == Step(c, e).config
  {
    var config := Step(c, e).config;
    StepConfig(c, e);
    MergesOne(c.config, ChannelsChange(config.channels));
    MergesOne(c.config, NickChange(config.nick));
    if OwnLeave(e) {
      WithoutNothing(c.config.channels, Lower(e.m.params[0]));
    }
  }

  /** Merging every change, in the order they were made, into the config the client started with gives the
      config it has now. */
  lemma {:induction false} ChangesRebuildTheConfig(c: Client, events: seq<Event>)
    ensures MergeAll(c.config, Made(c, events)) == After(c, events).config
  {
    if events != [] {
      var n := |events| - 1;
      ChangesRebuildTheConfig(c, events[..n]);
      StepMakes(After(c, events[..n]), events[n]);
      MergeMore(c.config, Made(c, events[..n]), Changes(After(c, events[..n]), events[n]));
    }
  }

  /** Each change merged once or more before the next, as when the logger's merge is retried. */
  function Repeated(changes: seq<Change>, extra: seq<nat>): seq<Change>
    requires |extra| == |changes|
  {
    if changes == [] then []
    else
      var n := |changes| - 1;
      Repeated(changes[..n], extra[..n]) + seq(extra[n] + 1, _ => changes[n])
  }

  lemma {:induction false} MergedAgain(config: Config, change: Change, times: nat)
    ensures MergeAll(config, seq(times + 1, _ => change)) == Merge(config, change)
  {
    var all := seq(times + 1, _ => change);
    assert all[..times] == seq(times, _ => change);
    if times > 0 {
      MergedAgain(config, change, times - 1);
    }
  }

  /** Merging a change again changes nothing, so retries save the same config. */
  lemma {:induction false} RetriesAreHarmless(config: Config, changes: seq<Change>, extra: seq<nat>)
    requires |extra| == |changes|
    ensures MergeAll(config, Repeated(changes, extra)) == MergeAll(config, changes)
  {
    if changes != [] {
      var n := |changes| - 1;
      RetriesAreHarmless(config, changes[..n], extra[..n]);
      MergeMore(config, Repeated(changes[..n], extra[..n]), seq(extra[n] + 1, _ => changes[n]));
      MergedAgain(MergeAll(config, changes[..n]), changes[n], extra[n]);
    }
  }

  // ----- with changes dropped -----

  /** What is saved when only the accepted events' changes get through. */
  function Saved(c: Client, events: seq<Event>, accepted: seq<bool>): Config
    requires |accepted| == |events|
  {
    if events == [] then c.config
    else
      var n := |events| - 1;
      var before := Saved(c, events[..n], accepted[..n]);
      if accepted[n] then MergeAll(before, Changes(After(c, events[..n]), events[n])) else before
  }

  /** How many events there had been when the last change of the field got through, or 0. */
  function LastSaved(c: Client, events: seq<Event>, accepted: seq<bool>, ofNick: bool): nat
    requires |accepted| == |events|
  {
    if events == [] then 0
    else
      var n := |events| - 1;
      var changes := Changes(After(c, events[..n]), events[n]);
      if accepted[n] && changes != [] && changes[0].NickChange? == ofNick then n + 1
      else LastSaved(c, events[..n], accepted[..n], ofNick)
  }

  /** An event makes at most one change: of the field as it then is. */
  lemma MergesAtMostOne(saved: Config, c: Client, e: Event)
    ensures var changes, t := Changes(c, e), Step(c, e);
            |changes| <= 1
            && MergeAll(saved, changes) ==
               if changes == [] then saved
               else if changes[0].NickChange? then saved.(nick := t.config.nick)
               else saved.(channels := t.config.channels)
  {
    var changes := Changes(c, e);
    if changes != [] {
      assert changes == [changes[0]] && changes[..0] == [];
    }
  }

  predicate SameField(a: Config, b: Config, ofNick: bool) {
    if ofNick then a.nick == b.nick else a.channels == b.channels
  }

  lemma SavedOneMore(c: Client, events: seq<Event>, accepted: seq<bool>, ofNick: bool)
    requires |accepted| == |events| > 0
    ensures var n := |events| - 1;
            if LastSaved(c, events, accepted, ofNick) == n + 1
            then SameField(Saved(c, events, accepted), After(c, events).config, ofNick)
            else LastSaved(c, events, accepted, ofNick) == LastSaved(c, events[..n], accepted[..n], ofNick)
                 && SameField(Saved(c, events, accepted), Saved(c, events[..n], accepted[..n]), ofNick)
    ensures LastSaved(c, events[..|events| - 1], accepted[..|events| - 1], ofNick) < |events|
  {
    var n := |events| - 1;
    LastSavedInside(c, events[..n], accepted[..n], ofNick);
    MergesAtMostOne(Saved(c, events[..n], accepted[..n]), After(c, events[..n]), events[n]);
  }

  lemma {:induction false} LastSavedInside(c: Client, events: seq<Event>, accepted: seq<bool>, ofNick: bool)
    requires |accepted| == |events|
    ensures LastSaved(c, events, accepted, ofNick) <= |events|
  {
    if events != [] {
      LastSavedInside(c, events[..|events| - 1], accepted[..|events| - 1], ofNick);
    }
  }

  /** A saved field is the live one as it was when its last change got through, whatever was dropped. */
  lemma {:induction false} SavedIsTheLastAccepted(c: Client, events: seq<Event>, accepted: seq<bool>, ofNick: bool)
    requires |accepted| == |events|
    ensures var i := LastSaved(c, events, accepted, ofNick);
            i <= |events| && SameField(Saved(c, events, accepted), After(c, events[..i]).config, ofNick)
  {
    if events != [] {
      var n := |events| - 1;
      SavedIsTheLastAccepted(c, events[..n], accepted[..n], ofNick);
      SavedOneMore(c, events, accepted, ofNick);
      var i := LastSaved(c, events[..n], accepted[..n], ofNick);
      assert events[..n][..i] == events[..i];
      assert events[..n + 1] == events;
    }
  }

  // ----- every tracked channel is rejoined -----

  /** Each tracked channel has an entry in the config. */
  predicate Covered(c: Client) {
    forall k :: k in c.channels ==> HasEntry(c.config.channels, k)
  }

  /** A new entry is read back as its own name exactly when it holds no blank. */
  lemma ReadBackExactly(name: string)
    ensures ChannelName(name) == Lower(name) <==> BlankFree(name)
  {
    LowerLength(name);
    LowerLength(FirstField(name));
    FirstFieldLength(name);
    if BlankFree(name) {
      OneField(name);
    }
  }

  /** An own JOIN leaves its channel covered exactly when the config had the channel, or the name holds
      no blank. */
  lemma JoinCoversExactly(config: Config, name: string)
    ensures HasEntry(WithEntry(config, name).channels, Lower(name)) <==>
            HasEntry(config.channels, Lower(name)) || BlankFree(name)
  {
    var entries := config.channels;
    ReadBackExactly(name);
    if !HasEntry(entries, Lower(name)) {
      assert forall i :: 0 <= i < |entries| ==> (entries + [name])[i] == entries[i];
      assert (entries + [name])[|entries|] == name;
    }
  }

  /** Names that leave a channel without an entry: with a space, and with an ideographic one, which a
      server does not take for the end of the name. */
  lemma BlankNameIsNotCovered(name: string)
    requires name == "#a b" || name == "#a\U{3000}b"
    ensures !Covered(OnJoin(Client(map[], Config("me", []), ""), Message("me", [name]), "me"))
  {
    var c := OnJoin(Client(map[], Config("me", []), ""), Message("me", [name]), "me");
    assert IsBlank(name[2]);
    JoinCoversExactly(Config("me", []), name);
    assert Lower(name) in c.channels;
  }

  lemma MoreEntries(entries: seq<string>, name: string, k: string)
    requires HasEntry(entries, k)
    ensures HasEntry(entries + [name], k)
  {
    var i :| 0 <= i < |entries| && ChannelName(entries[i]) == k;
    assert (entries + [name])[i] == entries[i];
  }

  /** An own JOIN, if the event is one, that leaves its channel covered. */
  predicate JoinsPlainly(c: Client, e: Event) {
    OwnJoin(e) ==> HasEntry(c.config.channels, Lower(e.m.params[0])) || BlankFree(e.m.params[0])
  }

  lemma JoinKeepsCovered(c: Client, e: Event, k: string)
    requires Covered(c) && OwnJoin(e) && k in c.channels
    ensures HasEntry(Step(c, e).config.channels, k)
  {
    var name := e.m.params[0];
    if !HasEntry(c.config.channels, Lower(name)) {
      MoreEntries(c.config.channels, name, k);
    }
  }

  lemma LeaveKeepsCovered(c: Client, e: Event)
    requires Covered(c) && OwnLeave(e)
    ensures Covered(Step(c, e))
  {
    var name := Lower(e.m.params[0]);
    LowerTwice(e.m.params[0]);
    forall k | k in Step(c, e).channels ensures HasEntry(Step(c, e).config.channels, k) {
      WithoutKeepsOthers(c.config.channels, name, k);
    }
  }

  /** Every tracked channel keeps an entry, over any event, exactly then. */
  lemma StepCoversExactly(c: Client, e: Event)
    requires Covered(c)
    ensures Covered(Step(c, e)) <==> JoinsPlainly(c, e)
  {
    if OwnJoin(e) {
      var name := e.m.params[0];
      JoinCoversExactly(c.config, name);
      assert Step(c, e).channels.Keys == c.channels.Keys + {Lower(name)};
      forall k | k in c.channels ensures HasEntry(Step(c, e).config.channels, k) {
        JoinKeepsCovered(c, e, k);
      }
    } else if OwnLeave(e) {
      LeaveKeepsCovered(c, e);
    } else {
      StepConfig(c, e);
    }
  }

  ghost predicate AlwaysCovered(c: Client, events: seq<Event>) {
    forall i: nat :: i <= |events| ==> Covered(At(c, events, i))
  }

  ghost predicate AllJoinPlainly(c: Client, events: seq<Event>) {
    forall i: nat :: i < |events| ==> JoinsPlainly(At(c, events, i), events[i])
  }

  /** And over a whole history exactly when every own JOIN in it is such a one. */
  lemma HistoryCoversExactly(c: Client, events: seq<Event>)
    requires Covered(c)
    ensures AlwaysCovered(c, events) <==> AllJoinPlainly(c, events)
  {
    if AlwaysCovered(c, events) {
      forall i: nat | i < |events| ensures JoinsPlainly(At(c, events, i), events[i]) {
        assert Covered(At(c, events, i)) && Covered(At(c, events, i + 1));
        AtMore(c, events, i);
        StepCoversExactly(At(c, events, i), events[i]);
      }
    }
    if AllJoinPlainly(c, events) {
      forall i: nat | i <= |events| ensures Covered(At(c, events, i)) {
        PlainlyCovered(c, events, i);
      }
    }
  }

  lemma {:induction false} PlainlyCovered(c: Client, events: seq<Event>, i: nat)
    requires Covered(c) && i <= |events| && AllJoinPlainly(c, events)
    ensures Covered(At(c, events, i))
  {
    if i > 0 {
      PlainlyCovered(c, events, i - 1);
      AtMore(c, events, i - 1);
      StepCoversExactly(At(c, events, i - 1), events[i - 1]);
    }
  }

  // ----- a channel is in the config from our JOIN to our leaving it -----

  predicate JoinsIt(e: Event, k: string) {
    OwnJoin(e) && Lower(e.m.params[0]) == k
  }

  predicate LeavesIt(e: Event, k: string) {
    OwnLeave(e) && Lower(e.m.params[0]) == k
  }

  /** Whether we are in the channel at k after the events: what the last of our JOINs of it and leavings says, or
      as it was when there is none. */
  function InIt(events: seq<Event>, k: string, was: bool): bool {
    if events == [] then was
    else
      var n := |events| - 1;
      if JoinsIt(events[n], k) then true else if LeavesIt(events[n], k) then false else InIt(events[..n], k, was)
  }

  lemma StepEntry(c: Client, e: Event, k: string)
    requires JoinsPlainly(c, e)
    ensures HasEntry(Step(c, e).config.channels, k) <==>
            JoinsIt(e, k) || (!LeavesIt(e, k) && HasEntry(c.config.channels, k))
  {
    StepConfig(c, e);
    var entries := c.config.channels;
    if OwnJoin(e) {
      JoinEntry(c.config, e.m.params[0], k);
    } else if OwnLeave(e) {
      var name := Lower(e.m.params[0]);
      WithoutKeepsTheRest(entries, name);
      if name != k { WithoutKeepsOthers(entries, name, k); }
    }
  }

  lemma JoinEntry(config: Config, name: string, k: string)
    requires HasEntry(config.channels, Lower(name)) || BlankFree(name)
    ensures HasEntry(WithEntry(config, name).channels, k) <==> Lower(name) == k || HasEntry(config.channels, k)
  {
    var entries := config.channels;
    JoinCoversExactly(config, name);
    if !HasEntry(entries, Lower(name)) {
      ReadBackExactly(name);
      if HasEntry(entries, k) { MoreEntries(entries, name, k); }
      assert forall i :: 0 <= i < |entries| ==> (entries + [name])[i] == entries[i];
    }
  }

  /** Over any history whose own JOINs are such, the config has an entry for a channel exactly if we are in it by
      the last JOIN or leaving of ours, or had one and there is neither; and the channel is tracked likewise. */
  lemma {:induction false} EntryFollowsOurJoins(c: Client, events: seq<Event>, k: string)
    requires AllJoinPlainly(c, events)
    ensures HasEntry(After(c, events).config.channels, k) <==> InIt(events, k, HasEntry(c.config.channels, k))
    ensures k in After(c, events).channels <==> InIt(events, k, k in c.channels)
  {
    if events != [] {
      var n := |events| - 1;
      assert JoinsPlainly(At(c, events, n), events[n]);
      EarlierJoinPlainly(c, events);
      EntryFollowsOurJoins(c, events[..n], k);
      StepEntry(After(c, events[..n]), events[n], k);
      StepTracks(After(c, events[..n]), events[n], k);
    }
  }

  lemma EarlierJoinPlainly(c: Client, events: seq<Event>)
    requires AllJoinPlainly(c, events) && events != []
    ensures AllJoinPlainly(c, events[..|events| - 1])
  {
    var n := |events| - 1;
    forall i: nat | i < n ensures JoinsPlainly(At(c, events[..n], i), events[..n][i]) {
      assert events[..n][..i] == events[..i] && JoinsPlainly(At(c, events, i), events[i]);
    }
  }

  lemma StepTracks(c: Client, e: Event, k: string)
    ensures k in Step(c, e).channels <==> JoinsIt(e, k) || (!LeavesIt(e, k) && k in c.channels)
  {
    if OwnLeave(e) {
      LowerTwice(e.m.params[0]);
    }
  }

  // ----- entries with keys -----

  /** An entry is read as its channel's name, up to the blank before the key. */
  lemma KeyedEntry(name: string, blank: char, key: string)
    requires name != "" && BlankFree(name) && IsBlank(blank)
    ensures ChannelName(name + [blank] + key) == Lower(name)
  {
    FirstFieldIs(name, blank, key);
  }

  /** So a JOIN of a channel that was saved with its key adds no entry, and our PART of it removes the one. */
  lemma KeyIsKept(c: Client, name: string, key: string, me: string)
    requires name != "" && BlankFree(name) && c.config.channels == [name + " " + key]
    ensures var e := Handle(Join, Message(me, [name]), me, true, []);
            Step(c, e).config == c.config && Changes(c, e) == []
    ensures var e := Handle(Part, Message(me, [name]), me, true, []);
            Step(c, e).config.channels == [] && Changes(c, e) == [ChannelsChange([])]
  {
    var entry := name + " " + key;
    KeyedEntry(name, ' ', key);
    assert c.config.channels[0] == entry && HasEntry(c.config.channels, Lower(name));
    StepConfig(c, Handle(Part, Message(me, [name]), me, true, []));
    assert [entry][..0] == [];
    assert Without([entry], Lower(name)) == [];
  }

  /** The lines that Join sends, for the entries that are not empty. */
  function JoinLines(entries: seq<string>): seq<string> {
    if entries == [] then []
    else
      var n := |entries| - 1;
      JoinLines(entries[..n]) + (if entries[n] != "" then ["JOIN " + entries[n]] else [])
  }

  method Rejoin(entries: seq<string>) returns (lines: seq<string>)
    ensures lines == JoinLines(entries)
  {
    lines := [];
    for i := 0 to |entries|
      invariant lines == JoinLines(entries[..i])
    {
      assert entries[..i + 1][..i] == entries[..i];
      if entries[i] != "" {
        lines := lines + ["JOIN " + entries[i]];
      }
    }
    assert entries[..|entries|] == entries;
  }

  lemma {:induction false} JoinsEachEntry(entries: seq<string>, i: nat)
    requires i < |entries| && entries[i] != ""
    ensures "JOIN " + entries[i] in JoinLines(entries)
  {
    var n := |entries| - 1;
    if i < n {
      JoinsEachEntry(entries[..n], i);
    }
  }

  /** Exactly those, in order: without empty entries one line for each, and an empty entry makes no difference. */
  lemma {:induction false} JoinsInOrder(entries: seq<string>)
    requires "" !in entries
    ensures |JoinLines(entries)| == |entries|
    ensures forall i :: 0 <= i < |entries| ==> JoinLines(entries)[i] == "JOIN " + entries[i]
  {
    if entries != [] {
      var n := |entries| - 1;
      JoinsInOrder(entries[..n]);
    }
  }

  lemma {:induction false} EmptyJoinsNothing(a: seq<string>, b: seq<string>)
    ensures JoinLines(a + [""] + b) == JoinLines(a + b)
  {
    if b == [] {
      assert (a + [""] + b)[..|a|] == a + b == a;
    } else {
      var n := |b| - 1;
      EmptyJoinsNothing(a, b[..n]);
      assert (a + [""] + b)[..|a| + 1 + n] == a + [""] + b[..n] && (a + b)[..|a| + n] == a + b[..n];
    }
  }

  /** So after a reconnect every channel tracked before is asked for, with its key if it had one. */
  lemma RejoinsEveryTrackedChannel(c: Client, events: seq<Event>, k: string)
    requires Covered(c) && AllJoinPlainly(c, events)
    requires k in After(c, events).channels && k != ""
    ensures exists entry :: entry in After(c, events).config.channels && ChannelName(entry) == k
                            && "JOIN " + entry in JoinLines(After(c, events).config.channels)
  {
    PlainlyCovered(c, events, |events|);
    AtEnd(c, events);
    var entries := After(c, events).config.channels;
    assert HasEntry(entries, k);
    var i :| 0 <= i < |entries| && ChannelName(entries[i]) == k;
    JoinsEachEntry(entries, i);
  }
}
