/** trackedConn: what the socket's wrapper knows of the bytes read and of the first error. */
module ReadTracking {
  import opened Options

  newtype Byte = x: int | 0 <= x < 256

  const NEWLINE: Byte := 10
  const IRC_MAX_LINE_LEN: nat := 512
  const READ_Q_LIMIT: nat := IRC_MAX_LINE_LEN + 8192

  /** ReadQ is irc-go's error for a line without an end; the others are the socket's own. */
  datatype Failure = ReadQ | Socket(code: nat)

  /** What the wrapper sees, in the order its mutex puts it: the bytes of one read, and the errors of
      reads and writes. A read that gives both bytes and an error is the two in turn. */
  datatype Event = Chunk(data: seq<Byte>) | Fails(code: nat)

  // ----- the whole stream -----

  function Stream(events: seq<Event>): seq<Byte> {
    if events == [] then []
    else
      var n := |events| - 1;
      if events[n].Chunk? then Stream(events[..n]) + events[n].data else Stream(events[..n])
  }

  /** The bytes after the last newline, counted one by one. */
  function SinceNewline(s: seq<Byte>): (n: nat)
    ensures n <= |s|
  {
    if s == [] || s[|s| - 1] == NEWLINE then 0 else 1 + SinceNewline(s[..|s| - 1])
  }

  /** The count is right: so many bytes without a newline, and a newline or nothing before them. */
  lemma {:induction false} SinceNewlineCounts(s: seq<Byte>)
    ensures var n := SinceNewline(s);
            NEWLINE !in s[|s| - n..] && (n < |s| ==> s[|s| - n - 1] == NEWLINE)
  {
    if s != [] && s[|s| - 1] != NEWLINE {
      var t := s[..|s| - 1];
      SinceNewlineCounts(t);
      assert s[|s| - SinceNewline(s)..] == t[|t| - SinceNewline(t)..] + [s[|s| - 1]];
    }
  }

  function LastIndexByte(s: seq<Byte>, c: Byte): (i: int)
    ensures -1 <= i < |s|
    ensures i == -1 ==> c !in s
    ensures i != -1 ==> s[i] == c && c !in s[i + 1..]
  {
    if s == [] then -1
    else if s[|s| - 1] == c then |s| - 1
    else LastIndexByte(s[..|s| - 1], c)
  }

  /** The wrapper's own step: the bytes pending after a chunk. */
  function Pending(before: nat, data: seq<Byte>): nat {
    var i := LastIndexByte(data, NEWLINE);
    if i != -1 then |data| - i - 1 else before + |data|
  }

  lemma {:induction false} PendingIsSinceNewline(stream: seq<Byte>, data: seq<Byte>)
    ensures Pending(SinceNewline(stream), data) == SinceNewline(stream + data)
  {
    if data == [] {
      assert stream + data == stream;
    } else {
      var n := |data| - 1;
      assert (stream + data)[..|stream + data| - 1] == stream + data[..n];
      PendingIsSinceNewline(stream, data[..n]);
    }
  }

  // ----- the wrapper -----

  datatype Tracked = Tracked(pending: nat, first: Option<Failure>)

  function Record(t: Tracked, e: Failure): Tracked {
    if t.first.None? then t.(first := Some(e)) else t
  }

  function Step(t: Tracked, e: Event): Tracked {
    match e
    case Chunk(data) =>
      var u := t.(pending := Pending(t.pending, data));
      if u.pending >= READ_Q_LIMIT then Record(u, ReadQ) else u
    case Fails(code) => Record(t, Socket(code))
  }

  function After(events: seq<Event>): Tracked {
    if events == [] then Tracked(0, None) else Step(After(events[..|events| - 1]), events[|events| - 1])
  }

  class TrackedConn {
    var pending: nat
    var first: Option<Failure>
    ghost var seen: seq<Event>

    ghost predicate Valid()
      reads this
    {
      Tracked(pending, first) == After(seen)
    }

    constructor ()
      ensures Valid() && seen == []
    {
      pending, first, seen := 0, None, [];
    }

    method Record(e: Failure)
      modifies this`first
      ensures first == if old(first).None? then Some(e) else old(first)
    {
      if first == None {
        first := Some(e);
      }
    }

    /** A read that put n bytes into b, and perhaps failed. */
    method Read(b: array<Byte>, n: nat, err: Option<nat>)
      requires Valid() && n <= b.Length
      modifies this
      ensures Valid()
      ensures var read := old(seen) + [Chunk(b[..n])];
              seen == if err.Some? then read + [Fails(err.value)] else read
    {
      var data := b[..n];
      ghost var before := Tracked(pending, first);
      var i := LastIndexByte(data, NEWLINE);
      if i != -1 {
        pending := n - i - 1;
      } else {
        pending := pending + n;
      }
      if pending >= READ_Q_LIMIT {
        Record(ReadQ);
      }
      assert Tracked(pending, first) == Step(before, Chunk(data));
      AfterMore(seen, Chunk(data));
      seen := seen + [Chunk(data)];
      if err.Some? {
        Record(Socket(err.value));
        AfterMore(seen, Fails(err.value));
        seen := seen + [Fails(err.value)];
      }
    }

    method Write(err: Option<nat>)
      requires Valid()
      modifies this
      ensures Valid() && pending == old(pending)
      ensures seen == if err.Some? then old(seen) + [Fails(err.value)] else old(seen)
    {
      if err.Some? {
        Record(Socket(err.value));
        AfterMore(seen, Fails(err.value));
        seen := seen + [Fails(err.value)];
      }
    }
  }

  lemma AfterMore(events: seq<Event>, e: Event)
    ensures After(events + [e]) == Step(After(events), e)
  {
    assert (events + [e])[..|events|] == events;
  }

  // ----- what it knows -----

  /** However the stream is cut into reads, pending is the bytes after its last newline. */
  lemma {:induction false} PendingCountsTheStream(events: seq<Event>)
    ensures After(events).pending == SinceNewline(Stream(events))
  {
    if events != [] {
      var n := |events| - 1;
      PendingCountsTheStream(events[..n]);
      if events[n].Chunk? {
        PendingIsSinceNewline(Stream(events[..n]), events[n].data);
      }
    }
  }

  lemma CuttingDoesNotMatter(a: seq<Event>, b: seq<Event>)
    requires Stream(a) == Stream(b)
    ensures After(a).pending == After(b).pending
  {
    PendingCountsTheStream(a);
    PendingCountsTheStream(b);
  }

  /** The first error is written once. */
  lemma {:induction false} FirstIsWrittenOnce(events: seq<Event>, more: seq<Event>)
    requires After(events).first.Some?
    ensures After(events + more).first == After(events).first
  {
    if more == [] {
      assert events + more == events;
    } else {
      var n := |more| - 1;
      assert (events + more)[..|events + more| - 1] == events + more[..n];
      FirstIsWrittenOnce(events, more[..n]);
    }
  }

  /** A read that ends with the limit reached. */
  predicate ReachesLimit(events: seq<Event>, i: nat)
    requires i < |events|
  {
    events[i].Chunk? && SinceNewline(Stream(events[..i + 1])) >= 512 + 8192
  }

  predicate IsError(events: seq<Event>, i: nat)
    requires i < |events|
  {
    events[i].Fails? || ReachesLimit(events, i)
  }

  ghost predicate Quiet(events: seq<Event>, n: nat)
    requires n <= |events|
  {
    forall j: nat :: j < n ==> !IsError(events, j)
  }

  /** The event that the first error comes from. */
  ghost predicate IsFirst(events: seq<Event>, i: nat) {
    i < |events| && IsError(events, i) && Quiet(events, i)
  }

  function FailureOf(e: Event): Failure {
    if e.Fails? then Socket(e.code) else ReadQ
  }

  lemma LastEvent(events: seq<Event>, n: nat)
    requires n < |events|
    ensures var before := After(events[..n]).first;
            After(events[..n + 1]).first ==
              if before.Some? then before
              else if IsError(events, n) then Some(FailureOf(events[n]))
              else None
  {
    assert events[..n + 1][..n] == events[..n];
    PendingCountsTheStream(events[..n + 1]);
  }

  lemma {:induction false} NoErrorWhileQuiet(events: seq<Event>, n: nat)
    requires n <= |events| && Quiet(events, n)
    ensures After(events[..n]).first.None?
  {
    if n > 0 {
      NoErrorWhileQuiet(events, n - 1);
      LastEvent(events, n - 1);
    }
  }

  lemma {:induction false} SomeErrorIsFirst(events: seq<Event>, i: nat)
    requires i < |events| && IsError(events, i)
    ensures exists k: nat :: k <= i && IsFirst(events, k)
  {
    if j: nat :| j < i && IsError(events, j) {
      SomeErrorIsFirst(events, j);
    } else {
      assert IsFirst(events, i);
    }
  }

  /** The error is that of the first event with one... */
  lemma FirstIsTheFirst(events: seq<Event>, i: nat)
    requires IsFirst(events, i)
    ensures After(events).first == Some(FailureOf(events[i]))
  {
    NoErrorWhileQuiet(events, i);
    LastEvent(events, i);
    assert events[..i + 1] + events[i + 1..] == events;
    FirstIsWrittenOnce(events[..i + 1], events[i + 1..]);
  }

  /** ...and there is none only if no event had one. */
  lemma NoErrorExactly(events: seq<Event>)
    ensures After(events).first.None? <==> Quiet(events, |events|)
  {
    if Quiet(events, |events|) {
      NoErrorWhileQuiet(events, |events|);
      assert events[..|events|] == events;
    } else {
      var j: nat :| j < |events| && IsError(events, j);
      SomeErrorIsFirst(events, j);
      var k: nat :| IsFirst(events, k);
      FirstIsTheFirst(events, k);
    }
  }

  /** A read reached the limit, and no read or write had failed before. */
  ghost predicate LimitFirst(events: seq<Event>, i: nat) {
    i < |events| && ReachesLimit(events, i) && forall j: nat :: j < i ==> events[j].Chunk?
  }

  /** It is ErrReadQ exactly when a read reached the limit before any error. */
  lemma ReadQExactly(events: seq<Event>)
    ensures After(events).first == Some(ReadQ) <==> exists i: nat :: LimitFirst(events, i)
  {
    if After(events).first == Some(ReadQ) {
      NoErrorExactly(events);
      var j: nat :| j < |events| && IsError(events, j);
      SomeErrorIsFirst(events, j);
      var k: nat :| IsFirst(events, k);
      FirstIsTheFirst(events, k);
      forall j: nat | j < k ensures events[j].Chunk? { assert !IsError(events, j); }
      assert LimitFirst(events, k);
    }
    if i: nat :| LimitFirst(events, i) {
      SomeErrorIsFirst(events, i);
      var k: nat :| k <= i && IsFirst(events, k);
      FirstIsTheFirst(events, k);
      assert events[k].Chunk?;
    }
  }

  /** A line within the limit is never taken for one that is too long, however it is cut. */
  lemma ShortLinesAreNoError(events: seq<Event>)
    requires forall k: nat :: k <= |Stream(events)| ==> SinceNewline(Stream(events)[..k]) < 512 + 8192
    ensures After(events).first != Some(ReadQ)
  {
    ReadQExactly(events);
    forall i: nat ensures !LimitFirst(events, i) {
      if i < |events| {
        StreamGrows(events, i + 1);
        assert Stream(events)[..|Stream(events[..i + 1])|] == Stream(events[..i + 1]);
      }
    }
  }

  lemma {:induction false} StreamGrows(events: seq<Event>, k: nat)
    requires k <= |events|
    ensures Stream(events[..k]) <= Stream(events)
  {
    if k < |events| {
      var n := |events| - 1;
      StreamGrows(events[..n], k);
      assert events[..n][..k] == events[..k];
    } else {
      assert events[..k] == events;
    }
  }
}
