/** The config changes between the handler that makes them and their publication. A handler's changes are
    published after the client is unlocked. One connection's handlers run one after the other, each with
    its publications; those of two connections may overlap, when the first is still to publish while the
    next one's handlers run. */
module PublishOrder {
  import opened Text
  import opened Channels
  import opened Handlers
  import opened ConfigHistory

  // ----- changes published out of order -----

  predicate SameKind(a: Change, b: Change) {
    a.NickChange? == b.NickChange?
  }

  function Minus<T>(f: seq<T>, i: nat): seq<T>
    requires i < |f|
  {
    f[..i] + f[i + 1..]
  }

  lemma {:induction false} MovesToFront(config: Config, f: seq<Change>, x: Change)
    requires forall j :: 0 <= j < |f| && SameKind(f[j], x) ==> f[j] == x
    ensures MergeAll(Merge(config, x), f) == Merge(MergeAll(config, f), x)
  {
    if f != [] {
      var n := |f| - 1;
      MovesToFront(config, f[..n], x);
    }
  }

  /** A change published before those that are waiting with it does no harm if no older one of its field
      is waiting, or only the same. */
  lemma {:induction false} PublishKeeps(config: Config, f: seq<Change>, i: nat)
    requires i < |f| && forall j :: 0 <= j < i && SameKind(f[j], f[i]) ==> f[j] == f[i]
    ensures MergeAll(Merge(config, f[i]), Minus(f, i)) == MergeAll(config, f)
  {
    var n := |f| - 1;
    if i == n {
      assert Minus(f, i) == f[..n];
      MovesToFront(config, f[..n], f[n]);
    } else {
      PublishKeeps(config, f[..n], i);
      MinusMore(f, i);
    }
  }

  lemma MinusMore(f: seq<Change>, i: nat)
    requires i < |f| - 1
    ensures var n, m := |f| - 1, Minus(f, i);
            m[..|m| - 1] == Minus(f[..n], i) && m[|m| - 1] == f[n] && f[..n][i] == f[i]
  {}

  /** An order in which all the changes waiting are published: each time, which of those left. */
  predicate Empties(f: seq<Change>, picks: seq<nat>)
    decreases |picks|
  {
    if picks == [] then f == [] else picks[0] < |f| && Empties(Minus(f, picks[0]), picks[1..])
  }

  function Drained(config: Config, f: seq<Change>, picks: seq<nat>): Config
    requires Empties(f, picks)
    decreases |picks|
  {
    if picks == [] then config else Drained(Merge(config, f[picks[0]]), Minus(f, picks[0]), picks[1..])
  }

  /** No two different changes of one field are waiting. */
  predicate Agrees(f: seq<Change>) {
    forall i, j :: 0 <= i < j < |f| && SameKind(f[i], f[j]) ==> f[i] == f[j]
  }

  lemma MinusAgrees(f: seq<Change>, i: nat)
    requires i < |f| && Agrees(f)
    ensures Agrees(Minus(f, i))
  {
    forall a, b | 0 <= a < b < |Minus(f, i)| && SameKind(Minus(f, i)[a], Minus(f, i)[b])
      ensures Minus(f, i)[a] == Minus(f, i)[b]
    {
      assert Minus(f, i)[a] == f[if a < i then a else a + 1] && Minus(f, i)[b] == f[if b < i then b else b + 1];
    }
  }

  lemma {:induction false} AnyOrderWill(config: Config, f: seq<Change>, picks: seq<nat>)
    requires Agrees(f) && Empties(f, picks)
    ensures Drained(config, f, picks) == MergeAll(config, f)
    decreases |picks|
  {
    if picks != [] {
      var i := picks[0];
      MinusAgrees(f, i);
      AnyOrderWill(Merge(config, f[i]), Minus(f, i), picks[1..]);
      PublishKeeps(config, f, i);
    }
  }

  /** An order with the x-th change last. */
  lemma {:induction false} PickLast(config: Config, f: seq<Change>, x: nat) returns (picks: seq<nat>)
    requires x < |f|
    ensures Empties(f, picks) && Merge(Drained(config, f, picks), f[x]) == Drained(config, f, picks)
    decreases |f|
  {
    if |f| == 1 {
      assert Minus(f, 0) == [];
      picks := [0];
    } else {
      var i := if x == 0 then 1 else 0;
      var rest := PickLast(Merge(config, f[i]), Minus(f, i), if x == 0 then 0 else x - 1);
      picks := [i] + rest;
      assert picks[1..] == rest;
    }
  }

  /** In whatever order what waits is published, the saved config becomes the goal. */
  ghost predicate AnyOrder(config: Config, f: seq<Change>, goal: Config) {
    forall picks :: Empties(f, picks) ==> Drained(config, f, picks) == goal
  }

  /** What is saved once everything waiting is published is what the handlers made of the config, in
      whatever order that happens, if and only if no two different changes of one field are waiting. */
  lemma AnyOrderExactly(config: Config, f: seq<Change>)
    ensures AnyOrder(config, f, MergeAll(config, f)) <==> Agrees(f)
  {
    if Agrees(f) {
      forall picks | Empties(f, picks) ensures Drained(config, f, picks) == MergeAll(config, f) {
        AnyOrderWill(config, f, picks);
      }
      assert AnyOrder(config, f, MergeAll(config, f));
    }
    if AnyOrder(config, f, MergeAll(config, f)) {
      forall i, j | 0 <= i < j < |f| && SameKind(f[i], f[j]) ensures f[i] == f[j] {
        var a := PickLast(config, f, i);
        var b := PickLast(config, f, j);
        assert Merge(MergeAll(config, f), f[i]) == Merge(MergeAll(config, f), f[j]);
      }
    }
  }

  // ----- runs -----

  /** A change that waits to be published by a handler of a connection. */
  datatype Waiting = Waiting(conn: nat, change: Change)

  /** The client, its connection, what waits, oldest first, and what has been published. */
  datatype State = State(c: Client, conn: nat, waiting: seq<Waiting>, published: seq<Change>)

  datatype Happening = Handles(e: Event) | Publishes(i: nat)

  function Begin(c: Client): State {
    State(c, 0, [], [])
  }

  predicate IsWaiting(s: State, conn: nat) {
    exists i :: 0 <= i < |s.waiting| && s.waiting[i].conn == conn
  }

  /** A handler that takes effect is one of the current connection, and that connection's earlier ones
      have published. */
  predicate CanHappen(s: State, h: Happening) {
    match h
    case Handles(e) => e.Handle? ==> !IsWaiting(s, s.conn)
    case Publishes(i) => i < |s.waiting|
  }

  function Happen(s: State, h: Happening): State
    requires CanHappen(s, h)
  {
    match h
    case Handles(e) =>
      var changes := Changes(s.c, e);
      s.(c := Step(s.c, e),
         conn := if e.Connect? then s.conn + 1 else s.conn,
         waiting := s.waiting + seq(|changes|, i requires 0 <= i < |changes| => Waiting(s.conn, changes[i])))
    case Publishes(i) => s.(waiting := Minus(s.waiting, i), published := s.published + [s.waiting[i].change])
  }

  predicate CanAll(s: State, hs: seq<Happening>)
    decreases |hs|
  {
    hs == [] || (CanHappen(s, hs[0]) && CanAll(Happen(s, hs[0]), hs[1..]))
  }

  function All(s: State, hs: seq<Happening>): State
    requires CanAll(s, hs)
    decreases |hs|
  {
    if hs == [] then s else All(Happen(s, hs[0]), hs[1..])
  }

  function ChangesOf(waiting: seq<Waiting>): seq<Change> {
    seq(|waiting|, i requires 0 <= i < |waiting| => waiting[i].change)
  }

  /** What the logger has saved, beginning with the config that the client was created with. */
  function Saved(config: Config, s: State): Config {
    MergeAll(config, s.published)
  }

  /** The saved config with what waits is the client's. */
  predicate UpToDate(config: Config, s: State) {
    MergeAll(Saved(config, s), ChangesOf(s.waiting)) == s.c.config
  }

  lemma HandlingKeeps(config: Config, s: State, e: Event)
    requires UpToDate(config, s) && CanHappen(s, Handles(e))
    ensures UpToDate(config, Happen(s, Handles(e)))
  {
    var changes := Changes(s.c, e);
    assert ChangesOf(Happen(s, Handles(e)).waiting) == ChangesOf(s.waiting) + changes;
    MergeMore(Saved(config, s), ChangesOf(s.waiting), changes);
    StepMakes(s.c, e);
  }

  /** No older change of the field waits, or only the same. */
  predicate IsNext(s: State, i: nat)
    requires i < |s.waiting|
  {
    forall j :: 0 <= j < i && SameKind(s.waiting[j].change, s.waiting[i].change) ==> s.waiting[j].change == s.waiting[i].change
  }

  lemma PublishingKeeps(config: Config, s: State, i: nat)
    requires UpToDate(config, s) && i < |s.waiting| && IsNext(s, i)
    ensures UpToDate(config, Happen(s, Publishes(i)))
  {
    var t := Happen(s, Publishes(i));
    MergeMore(config, s.published, [s.waiting[i].change]);
    MergesOne(Saved(config, s), s.waiting[i].change);
    assert ChangesOf(t.waiting) == Minus(ChangesOf(s.waiting), i);
    PublishKeeps(Saved(config, s), ChangesOf(s.waiting), i);
  }

  /** Every publication in the run is of a change with none of its field older. */
  predicate InOrder(s: State, hs: seq<Happening>)
    requires CanAll(s, hs)
    decreases |hs|
  {
    hs == [] || ((hs[0].Publishes? ==> IsNext(s, hs[0].i)) && InOrder(Happen(s, hs[0]), hs[1..]))
  }

  /** However handling and publishing interleave: if each field's changes are published in the order they
      were made, then at every point the saved config with what waits is the client's; so with nothing
      waiting the saved config is. */
  lemma {:induction false} InOrderRunsRebuild(config: Config, s: State, hs: seq<Happening>)
    requires UpToDate(config, s) && CanAll(s, hs) && InOrder(s, hs)
    ensures UpToDate(config, All(s, hs))
    ensures All(s, hs).waiting == [] ==> Saved(config, All(s, hs)) == All(s, hs).c.config
    decreases |hs|
  {
    if hs != [] {
      match hs[0] {
        case Handles(e) => HandlingKeeps(config, s, e);
        case Publishes(i) => PublishingKeeps(config, s, i);
      }
      InOrderRunsRebuild(config, Happen(s, hs[0]), hs[1..]);
    }
  }

  // ----- one connection -----

  lemma OneChange(c: Client, e: Event)
    ensures |Changes(c, e)| <= 1 && (!e.Handle? ==> Changes(c, e) == [])
  {}

  /** At most one change waits for the current connection, and none for a later one. */
  predicate OneEach(s: State) {
    && (forall i :: 0 <= i < |s.waiting| ==> s.waiting[i].conn <= s.conn)
    && (forall i, j :: 0 <= i < j < |s.waiting| ==> s.waiting[i].conn < s.waiting[j].conn)
  }

  lemma HappenKeepsOneEach(s: State, h: Happening)
    requires OneEach(s) && CanHappen(s, h)
    ensures OneEach(Happen(s, h))
  {
    match h
    case Handles(e) =>
      OneChange(s.c, e);
    case Publishes(i) =>
      var t := Minus(s.waiting, i);
      assert forall j :: 0 <= j < |t| ==> t[j] == s.waiting[if j < i then j else j + 1];
  }

  lemma FirstWaits(s: State)
    ensures s.waiting != [] && s.waiting[0].conn == s.conn ==> IsWaiting(s, s.conn)
  {
    if s.waiting != [] && s.waiting[0].conn == s.conn {
      assert s.waiting[0].conn == s.conn;
    }
  }

  predicate NoNewConnection(hs: seq<Happening>) {
    forall i :: 0 <= i < |hs| ==> hs[i] != Handles(Connect)
  }

  /** While there is one connection nothing overlaps, and every run is in order. */
  lemma {:induction false} OneConnectionIsInOrder(s: State, hs: seq<Happening>)
    requires OneEach(s) && |s.waiting| <= 1 && (forall i :: 0 <= i < |s.waiting| ==> s.waiting[i].conn == s.conn)
    requires CanAll(s, hs) && NoNewConnection(hs)
    ensures InOrder(s, hs)
    decreases |hs|
  {
    if hs != [] {
      var t := Happen(s, hs[0]);
      HappenKeepsOneEach(s, hs[0]);
      if hs[0].Handles? {
        OneChange(s.c, hs[0].e);
        FirstWaits(s);
      }
      OneConnectionIsInOrder(t, hs[1..]);
    }
  }

  // ----- connections that overlap -----

  /** From a state that is up to date, the saved config becomes the client's in whatever order what waits
      is published, if and only if no two different changes of one field wait. */
  lemma OverlapExactly(config: Config, s: State)
    requires UpToDate(config, s)
    ensures AnyOrder(Saved(config, s), ChangesOf(s.waiting), s.c.config) <==> Agrees(ChangesOf(s.waiting))
  {
    AnyOrderExactly(Saved(config, s), ChangesOf(s.waiting));
  }

  /** Whatever waits, at any point of the run, agrees. */
  predicate AlwaysAgrees(s: State, hs: seq<Happening>)
    requires CanAll(s, hs)
    decreases |hs|
  {
    Agrees(ChangesOf(s.waiting)) && (hs != [] ==> AlwaysAgrees(Happen(s, hs[0]), hs[1..]))
  }

  /** So a run in which no two different changes of one field ever wait at once rebuilds the config, in
      whatever order it publishes them. */
  lemma {:induction false} AgreeingRunsRebuild(config: Config, s: State, hs: seq<Happening>)
    requires UpToDate(config, s) && CanAll(s, hs) && AlwaysAgrees(s, hs)
    ensures InOrder(s, hs) && UpToDate(config, All(s, hs))
    ensures All(s, hs).waiting == [] ==> Saved(config, All(s, hs)) == All(s, hs).c.config
    decreases |hs|
  {
    if hs != [] {
      if hs[0].Publishes? {
        AgreeingIsNext(s, hs[0].i);
        PublishingKeeps(config, s, hs[0].i);
      } else {
        HandlingKeeps(config, s, hs[0].e);
      }
      AgreeingRunsRebuild(config, Happen(s, hs[0]), hs[1..]);
    }
  }

  lemma AgreeingIsNext(s: State, i: nat)
    requires Agrees(ChangesOf(s.waiting)) && i < |s.waiting|
    ensures IsNext(s, i)
  {
    forall j | 0 <= j < i && SameKind(s.waiting[j].change, s.waiting[i].change)
      ensures s.waiting[j].change == s.waiting[i].change
    {
      assert ChangesOf(s.waiting)[j] == ChangesOf(s.waiting)[i];
    }
  }

  function OwnJoinOf(name: string): Event {
    Handle(Join, Message("me", [name]), "me", true, [])
  }

  /** We join #a; before that is published the client reconnects, joins #b and publishes that; then the
      first connection's handler publishes. */
  function Overlapping(): seq<Happening> {
    [Handles(OwnJoinOf("#a")), Handles(Connect), Handles(OwnJoinOf("#b")), Publishes(1), Publishes(0)]
  }

  lemma JoinWaits(s: State, name: string)
    requires !HasEntry(s.c.config.channels, Lower(name)) && !IsWaiting(s, s.conn)
    ensures var t := Happen(s, Handles(OwnJoinOf(name)));
            && t.waiting == s.waiting + [Waiting(s.conn, ChannelsChange(s.c.config.channels + [name]))]
            && t.c.config.channels == s.c.config.channels + [name] && t.conn == s.conn && t.published == s.published
  {
    assert Changes(s.c, OwnJoinOf(name)) == [ChannelsChange(s.c.config.channels + [name])];
  }

  lemma AllFirst(s: State, h: Happening, hs: seq<Happening>)
    requires CanHappen(s, h) && CanAll(Happen(s, h), hs)
    ensures CanAll(s, [h] + hs) && All(s, [h] + hs) == All(Happen(s, h), hs)
  {
    assert ([h] + hs)[1..] == hs;
  }

  function Created(): Client {
    Client(map[], Config("me", []), "")
  }

  lemma NotYet()
    ensures !HasEntry(["#a"], Lower("#b"))
  {
    OneField("#a");
    assert "#a"[1..] == "a" && "#b"[1..] == "b";
  }

  lemma FirstJoin()
    ensures var s := Happen(Begin(Created()), Handles(OwnJoinOf("#a")));
            && s.waiting == [Waiting(0, ChannelsChange(["#a"]))] && s.c.config.channels == ["#a"]
            && s.conn == 0 && s.published == []
  {
    JoinWaits(Begin(Created()), "#a");
    var none: seq<string> := [];
    assert none + ["#a"] == ["#a"];
  }

  lemma SecondJoin(s: State)
    requires s.waiting == [Waiting(0, ChannelsChange(["#a"]))] && s.c.config.channels == ["#a"]
    requires s.conn == 0 && s.published == []
    ensures var hs := [Handles(Connect), Handles(OwnJoinOf("#b"))];
            CanAll(s, hs)
            && var t := All(s, hs);
               && t.waiting == [Waiting(0, ChannelsChange(["#a"])), Waiting(1, ChannelsChange(["#a", "#b"]))]
               && t.c.config.channels == ["#a", "#b"] && t.published == []
  {
    var t := Happen(s, Handles(Connect));
    NotYet();
    JoinWaits(t, "#b");
    assert ["#a"] + ["#b"] == ["#a", "#b"];
    AllFirst(t, Handles(OwnJoinOf("#b")), []);
    AllFirst(s, Handles(Connect), [Handles(OwnJoinOf("#b"))] + []);
    assert [Handles(Connect)] + ([Handles(OwnJoinOf("#b"))] + []) == [Handles(Connect), Handles(OwnJoinOf("#b"))];
  }

  lemma {:induction false} AllJoined(s: State, a: seq<Happening>, b: seq<Happening>)
    requires CanAll(s, a) && CanAll(All(s, a), b)
    ensures CanAll(s, a + b) && All(s, a + b) == All(All(s, a), b)
    decreases |a|
  {
    if a == [] {
      assert a + b == b;
    } else {
      AllJoined(Happen(s, a[0]), a[1..], b);
      AllFirst(s, a[0], a[1..] + b);
      assert [a[0]] + (a[1..] + b) == a + b;
    }
  }

  lemma PublishesBoth(s: State, a: Waiting, b: Waiting)
    requires s.waiting == [a, b] && s.published == []
    ensures var hs := [Publishes(1), Publishes(0)];
            CanAll(s, hs)
            && All(s, hs) == s.(waiting := [], published := [b.change, a.change])
  {
    var t := Happen(s, Publishes(1));
    assert t.waiting == [a] && t.published == [b.change];
    AllFirst(t, Publishes(0), []);
    AllFirst(s, Publishes(1), [Publishes(0)] + []);
    assert [Publishes(1)] + ([Publishes(0)] + []) == [Publishes(1), Publishes(0)];
  }

  /** The client's channels are then #a and #b, and the saved ones #a only. */
  lemma OverlapLosesAChannel()
    ensures CanAll(Begin(Created()), Overlapping())
            && var t := All(Begin(Created()), Overlapping());
               t.waiting == [] && t.c.config.channels == ["#a", "#b"] && Saved(Created().config, t).channels == ["#a"]
  {
    var s := Happen(Begin(Created()), Handles(OwnJoinOf("#a")));
    var joins, rest := [Handles(Connect), Handles(OwnJoinOf("#b"))], [Publishes(1), Publishes(0)];
    FirstJoin();
    SecondJoin(s);
    var t := All(s, joins);
    PublishesBoth(t, t.waiting[0], t.waiting[1]);
    AllJoined(s, joins, rest);
    AllFirst(Begin(Created()), Handles(OwnJoinOf("#a")), joins + rest);
    assert [Handles(OwnJoinOf("#a"))] + (joins + rest) == Overlapping();
    MergesLast(Created().config, ChannelsChange(["#a", "#b"]), ChannelsChange(["#a"]));
  }

  lemma MergesLast(config: Config, a: Change, b: Change)
    ensures MergeAll(config, [a, b]) == Merge(Merge(config, a), b)
  {
    assert [a, b][..1] == [a];
    MergesOne(config, a);
  }
}
