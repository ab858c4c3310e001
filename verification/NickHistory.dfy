/** When a nick is saved to the config: only one we asked for, as the server spells it, once. */
module NickHistory {
  import opened Text
  import opened Channels
  import opened Handlers

  /** A refusal, after registration, of the nick q. */
  predicate Refuses(e: Event, q: string) {
    e.Handle? && (e.kind == NickRefused || e.kind == NickChangeRefused) && e.registered
    && |e.m.params| >= 3 && EqualFold(e.m.params[1], q)
  }

  /** Our own NICK to another nick, which is q but for case. */
  predicate Takes(e: Event, q: string) {
    e.Handle? && e.kind == Nick && |e.m.params| >= 1 && e.m.nick != e.m.params[0] && e.m.params[0] == e.me
    && EqualFold(e.m.params[0], q)
  }

  /** What ends a request for q: a new attempt, another request, its refusal, or its nick taken. */
  predicate Ends(e: Event, q: string) {
    e.Connect? || e.RequestNick? || Refuses(e, q) || Takes(e, q)
  }

  /** Event j is a request that is still open after the first i events. */
  ghost predicate Open(events: seq<Event>, i: nat, j: nat) {
    && j < i <= |events|
    && events[j].RequestNick? && events[j].nick != ""
    && forall l: nat :: j < l < i ==> !Ends(events[l], events[j].nick)
  }

  lemma OpenGrows(events: seq<Event>, i: nat, j: nat)
    requires i < |events|
    ensures Open(events, i + 1, j) <==>
      (j == i && events[i].RequestNick? && events[i].nick != "")
      || (Open(events, i, j) && !Ends(events[i], events[j].nick))
  {}

  /** The client's requested nick is that of the open request, and "" when there is none. */
  lemma {:induction false} RequestIsTheOpenOne(c: Client, events: seq<Event>, i: nat)
    requires c.requestedNick == "" && i <= |events|
    ensures var r := After(c, events[..i]).requestedNick;
            && (forall j: nat :: Open(events, i, j) ==> events[j].nick == r)
            && (r != "" ==> exists j: nat :: Open(events, i, j))
  {
    if i > 0 {
      var n := i - 1;
      assert events[..i][..n] == events[..n];
      RequestIsTheOpenOne(c, events, n);
      var before := After(c, events[..n]);
      var r := Step(before, events[n]).requestedNick;
      forall j: nat | Open(events, i, j) ensures events[j].nick == r { OpenGrows(events, n, j); }
      if r != "" {
        if events[n].RequestNick? {
          OpenGrows(events, n, n);
        } else {
          var j: nat :| Open(events, n, j);
          OpenGrows(events, n, j);
        }
      }
    }
  }

  /** Event i saves a nick. */
  predicate Saves(c: Client, events: seq<Event>, i: nat)
    requires i < |events|
  {
    var e := events[i];
    e.Handle? && e.kind == Nick && TakesRequest(After(c, events[..i]), e.m, e.me)
  }

  /** An event saves a nick exactly when it is our own NICK to the nick of a request still open. */
  lemma SavedExactlyWhenAskedFor(c: Client, events: seq<Event>, i: nat)
    requires c.requestedNick == "" && i < |events|
    ensures Saves(c, events, i) <==> exists j: nat :: Open(events, i, j) && Takes(events[i], events[j].nick)
  {
    RequestIsTheOpenOne(c, events, i);
    if Saves(c, events, i) {
      var j: nat :| Open(events, i, j);
      assert Takes(events[i], events[j].nick);
    }
  }

  /** The config's nick changes only then, and to the server's spelling. */
  lemma NickChangesOnlyBySaving(c: Client, events: seq<Event>, i: nat)
    requires i < |events|
    ensures After(c, events[..i + 1]).config.nick ==
      if Saves(c, events, i) then events[i].m.params[0] else After(c, events[..i]).config.nick
  {
    assert events[..i + 1][..i] == events[..i];
  }

  /** Each request is saved at most once: two saves come from two requests, the later made after the
      earlier save. So a rename by the server, after a save or a refusal, is not saved. */
  lemma EachRequestSavedOnce(c: Client, events: seq<Event>, i: nat, i': nat, j: nat, j': nat)
    requires c.requestedNick == "" && i < i' < |events|
    requires Open(events, i, j) && Takes(events[i], events[j].nick)
    requires Open(events, i', j') && Takes(events[i'], events[j'].nick)
    ensures j < i < j'
  {
    RequestIsTheOpenOne(c, events, i);
    assert j' < i ==> Open(events, i, j');
    assert Ends(events[i], events[j].nick);
  }
}
