/** A Send on a connection that is up gets as far as its sender's mutex: the stored sender is never a stopped
    one. */
module LifecycleSends {
  import opened Options
  import opened Lifecycle
  import opened LifecycleInvariant
  import opened LifecycleCore
  import opened LifecycleSteps
  import opened LifecycleEffects
  import opened LifecycleSetup
  import opened LifecycleLocks

  /** Attempt k's sender has been taken from the slot, for good. */
  ghost predicate Retired(s: State, k: nat) {
    Dialed(s, k) && s.sender != Some(k)
  }

  predicate IsStop(b: Busy) {
    b.Stops? || b.Reports? || b.Logs?
  }

  /** Only such senders are stopped. */
  ghost predicate StopsRetired(w: Whole) {
    && (forall k :: k in w.once ==> Retired(w.base, k))
    && (forall who :: who in w.busy && IsStop(w.busy[who]) ==> Retired(w.base, w.busy[who].k))
  }

  lemma GoRetired(s: State, t: State, i: nat, k: nat)
    requires IsThread(s, i) && Local(s, i) && Effects(s, t, i) && Retired(s, k)
    ensures Retired(t, k)
  {}

  lemma StepRetired(s: State, step: Lifecycle.Step, k: nat)
    requires Core(s) && Enabled(s, step) && Retired(s, k)
    ensures Retired(Apply(s, step), k)
  {
    if step.Run? {
      assert Local(s, step.i);
      GoEffects(s, step.i);
      GoRetired(s, Apply(s, step), step.i, k);
    }
  }

  /** What a thread then stops is the sender it has just taken away. */
  lemma StopsTheTaken(s: State, i: nat, calls: seq<SinkCall>)
    requires Core(s) && IsThread(s, i) && CanGo(s, i) && KnowsAttempt(s, s.threads[i])
    requires After(s, i, calls).Some? && IsStop(After(s, i, calls).value)
    ensures Retired(Go(s, i), After(s, i, calls).value.k)
  {
    assert Local(s, i);
  }

  lemma StepStopsRetired(w: Whole, step: Lifecycle.Step, calls: seq<SinkCall>)
    requires StopsRetired(w) && Core(w.base) && Possible(w, Step(step, calls))
    ensures StopsRetired(Stepped(w, step, calls))
  {
    var t := Stepped(w, step, calls);
    forall k | k in t.once ensures Retired(t.base, k) { StepRetired(w.base, step, k); }
    forall who | who in t.busy && IsStop(t.busy[who]) ensures Retired(t.base, t.busy[who].k) {
      if who in w.busy && w.busy[who] == t.busy[who] {
        StepRetired(w.base, step, w.busy[who].k);
      } else {
        StopsTheTaken(w.base, step.i, calls);
      }
    }
  }

  lemma AdvanceStopsRetired(w: Whole, who: Who)
    requires StopsRetired(w) && who in w.busy && CanAdvance(w, who)
    ensures StopsRetired(Advance(w, who))
  {}

  lemma MoveStopsRetired(w: Whole, m: Move)
    requires StopsRetired(w) && Inv(w.base) && Possible(w, m)
    ensures StopsRetired(Make(w, m))
  {
    match m
    case Step(step, calls) => StepStopsRetired(w, step, calls);
    case Send(_) =>
    case Call =>
    case Next(who) => AdvanceStopsRetired(w, who);
  }

  lemma {:induction false} MovesStopRetired(w: Whole, ms: seq<Move>)
    requires WholeInv(w) && Inv(w.base) && StopsRetired(w) && ValidMoves(w, ms)
    ensures StopsRetired(MakeAll(w, ms))
    decreases |ms|
  {
    if ms != [] {
      MoveStopsRetired(w, ms[0]);
      MoveKeeps(w, ms[0]);
      MovesStopRetired(Make(w, ms[0]), ms[1..]);
    }
  }

  /** The stored sender is never one that is stopped or being stopped. */
  lemma StoredIsRunning(w: Whole)
    requires ReachableWhole(w) && w.base.sender.Some?
    ensures w.base.sender.value !in w.once
    ensures forall who :: who in w.busy && IsStop(w.busy[who]) ==> w.busy[who].k != w.base.sender.value
  {
    var ms :| ValidMoves(LifecycleLocks.Start(), ms) && MakeAll(LifecycleLocks.Start(), ms) == w;
    InitInv();
    MovesStopRetired(LifecycleLocks.Start(), ms);
  }

  /** So while connection k is attached, its sender stored and no end of it reported, a Send of anyone goes on
      to k's queue. */
  lemma SendsReachTheConnection(w: Whole, k: nat)
    requires ReachableWhole(w) && w.base.c.socket == Some(k)
    ensures IsAttempt(w.base, k) && IsThread(w.base, w.base.attempts[k].runner)
    ensures !w.base.threads[w.base.attempts[k].runner].HookStore? && NoReport(w.base.threads, k) ==>
      Make(w, Call) == w.(busy := w.busy[Caller(w.callers) := Sends(k)], callers := w.callers + 1)
  {
    ReachableRight(w);
    AttachedIsUp(w.base, k);
    if w.base.sender.Some? { StoredIsRunning(w); }
  }

  /** Thread i's next n steps of its own in between. */
  function Nexts(i: nat, n: nat): seq<Move> {
    if n == 0 then [] else [Next(Thread(i))] + Nexts(i, n - 1)
  }

  lemma {:induction false} TellsAll(w: Whole, i: nat, calls: seq<SinkCall>)
    requires Thread(i) in w.busy && w.busy[Thread(i)] == Tells(calls) && calls != []
    ensures ValidMoves(w, Nexts(i, |calls|)) && MakeAll(w, Nexts(i, |calls|)) == w.(busy := w.busy - {Thread(i)})
    decreases |calls|
  {
    var t := Make(w, Next(Thread(i)));
    assert Nexts(i, |calls|)[1..] == Nexts(i, |calls| - 1);
    if |calls| > 1 {
      TellsAll(t, i, calls[1..]);
      assert t.busy - {Thread(i)} == w.busy - {Thread(i)};
    }
  }

  lemma HandlerGoes(s: State, i: nat)
    requires Core(s) && IsThread(s, i) && s.threads[i].HandlerCs? && s.threads[i].entered
    ensures CanGo(s, i) && KnowsAttempt(s, s.threads[i]) && Go(s, i).lock == None
  {
    assert Local(s, i);
  }

  lemma HandlerLeaves(w: Whole, i: nat, calls: seq<SinkCall>)
    requires Core(w.base) && IsThread(w.base, i) && Thread(i) !in w.busy && calls != []
    requires w.base.threads[i].HandlerCs? && w.base.threads[i].entered
    ensures Possible(w, Step(Run(i), calls))
    ensures var t := Make(w, Step(Run(i), calls));
            t.base.lock == None && t == w.(base := t.base, busy := w.busy[Thread(i) := Tells(calls)])
  {
    HandlerGoes(w.base, i);
  }

  /** A handler that leaves its section with calls of the sink to make is left to make them, and can, one after the
      other, whatever the locks: each takes one step of its own. */
  lemma HandlerTellsItsCalls(w: Whole, i: nat, calls: seq<SinkCall>)
    requires ReachableWhole(w) && IsThread(w.base, i) && Thread(i) !in w.busy && calls != []
    requires w.base.threads[i].HandlerCs? && w.base.threads[i].entered
    ensures Possible(w, Step(Run(i), calls))
    ensures var t := Make(w, Step(Run(i), calls));
            && Thread(i) in t.busy && t.busy[Thread(i)] == Tells(calls) && t.base.lock != Some(i)
            && ValidMoves(t, Nexts(i, |calls|)) && MakeAll(t, Nexts(i, |calls|)) == w.(base := t.base)
  {
    CoreOfWhole(w);
    HandlerLeaves(w, i, calls);
    var t := Make(w, Step(Run(i), calls));
    TellsAll(t, i, calls);
    assert t.busy - {Thread(i)} == w.busy;
  }

  lemma CoreOfWhole(w: Whole)
    requires ReachableWhole(w)
    ensures Core(w.base)
  {
    ReachableRight(w);
    ReachableInv(w.base);
  }
}
