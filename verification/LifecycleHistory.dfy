/** What the client's fields say of the run so far: when the connection was welcomed, why it was ended, and
    what follows for its status and its backoff. */
module LifecycleHistory {
  import opened Options
  import opened Lifecycle
  import opened LifecycleInvariant
  import opened LifecycleCore
  import opened LifecycleSteps
  import opened LifecycleTheorems
  import opened LifecycleEffects

  // ----- a run's states -----

  ghost predicate IsRun(steps: seq<Step>) {
    ValidRun(Init(), steps)
  }

  lemma {:induction false} RunSplits(s: State, steps: seq<Step>, n: nat)
    requires ValidRun(s, steps) && n <= |steps|
    ensures ValidRun(s, steps[..n]) && ValidRun(Exec(s, steps[..n]), steps[n..])
    decreases n
  {
    if n > 0 {
      RunSplits(Apply(s, steps[0]), steps[1..], n - 1);
      assert steps[..n][1..] == steps[1..][..n - 1] && steps[1..][n - 1..] == steps[n..];
    }
  }

  lemma {:induction false} RunJoins(s: State, a: seq<Step>, step: Step)
    requires ValidRun(s, a) && Enabled(Exec(s, a), step)
    ensures ValidRun(s, a + [step]) && Exec(s, a + [step]) == Apply(Exec(s, a), step)
    decreases |a|
  {
    if a == [] {
      assert a + [step] == [step] && [step][1..] == [];
    } else {
      RunJoins(Apply(s, a[0]), a[1..], step);
      assert (a + [step])[1..] == a[1..] + [step];
    }
  }

  /** The state after the first n steps of a run. */
  ghost function At(steps: seq<Step>, n: nat): State
    requires IsRun(steps) && n <= |steps|
  {
    RunSplits(Init(), steps, n);
    Exec(Init(), steps[..n])
  }

  lemma AtNext(steps: seq<Step>, n: nat)
    requires IsRun(steps) && n < |steps|
    ensures Inv(At(steps, n)) && Enabled(At(steps, n), steps[n]) && At(steps, n + 1) == Apply(At(steps, n), steps[n])
  {
    RunSplits(Init(), steps, n);
    assert steps[n..][0] == steps[n];
    RunJoins(Init(), steps[..n], steps[n]);
    assert steps[..n] + [steps[n]] == steps[..n + 1];
    ReachableInv(At(steps, n));
  }

  lemma NextEffects(steps: seq<Step>, n: nat)
    requires IsRun(steps) && n < |steps| && steps[n].Run?
    ensures var s, i := At(steps, n), steps[n].i;
            IsThread(s, i) && Local(s, i) && Fields(s) && Effects(s, At(steps, n + 1), i)
  {
    AtNext(steps, n);
    assert Local(At(steps, n), steps[n].i);
    GoEffects(At(steps, n), steps[n].i);
  }

  lemma AtIsReachable(steps: seq<Step>, n: nat)
    requires IsRun(steps) && n <= |steps|
    ensures Reachable(At(steps, n)) && Inv(At(steps, n))
  {
    RunSplits(Init(), steps, n);
    ReachableInv(At(steps, n));
  }

  // ----- the last 001, and the last reason for an end -----

  /** What a handler is told: that the server has welcomed us, or why the attempt or the client ends. */
  datatype Word = AWelcome | AGiveUp | AStop

  predicate Speaks(h: Handler, w: Word) {
    match w
    case AWelcome => h.Welcome?
    case AGiveUp => h.GiveUp?
    case AStop => h.Stop?
  }

  /** The step is a handler that says so, run for the newest attempt, which is live. */
  ghost predicate Heeds(s: State, step: Step, w: Word) {
    && step.Run? && IsThread(s, step.i) && s.threads[step.i].HandlerCs? && s.threads[step.i].entered
    && s.threads[step.i].k + 1 == |s.attempts| && s.attempts[s.threads[step.i].k].stage.Live?
    && Speaks(s.threads[step.i].h, w)
  }

  /** Step j is the last such of the first n: for a 001 and for giving up, the last of the newest attempt. */
  ghost predicate IsLast(steps: seq<Step>, n: nat, j: nat, w: Word)
    requires IsRun(steps) && n <= |steps|
  {
    && j < n && Heeds(At(steps, j), steps[j], w)
    && (w == AStop || |At(steps, n).attempts| == |At(steps, j).attempts|)
    && Quiet(steps, j + 1, n, w)
  }

  /** None of the steps from the j-th up to the n-th is one. */
  ghost predicate Quiet(steps: seq<Step>, j: nat, n: nat, w: Word)
    requires IsRun(steps) && n <= |steps|
  {
    forall l: nat :: j <= l < n ==> !Heeds(At(steps, l), steps[l], w)
  }

  lemma QuietGrows(steps: seq<Step>, j: nat, n: nat, w: Word)
    requires IsRun(steps) && j <= n < |steps|
    ensures Quiet(steps, j, n + 1, w) <==> Quiet(steps, j, n, w) && !Heeds(At(steps, n), steps[n], w)
  {
    if Quiet(steps, j, n, w) && !Heeds(At(steps, n), steps[n], w) {
      forall l: nat | j <= l < n + 1 ensures !Heeds(At(steps, l), steps[l], w) {
        if l == n { assert !Heeds(At(steps, n), steps[n], w); }
      }
    }
  }

  /** The field for it holds what it said. */
  ghost predicate Holds(c: Client, s: State, step: Step, w: Word)
    requires step.Run? && IsThread(s, step.i) && s.threads[step.i].HandlerCs? && Speaks(s.threads[step.i].h, w)
  {
    match w
    case AWelcome => c.welcomedAt == Some(s.now)
    case AGiveUp => c.gaveUp == s.threads[step.i].h.reason
    case AStop => c.stopped == s.threads[step.i].h.reason
  }

  ghost predicate Clear(c: Client, w: Word) {
    match w
    case AWelcome => c.welcomedAt == None
    case AGiveUp => c.gaveUp == ""
    case AStop => c.stopped == ""
  }

  ghost predicate Same(c: Client, d: Client, w: Word) {
    match w
    case AWelcome => c.welcomedAt == d.welcomedAt
    case AGiveUp => c.gaveUp == d.gaveUp
    case AStop => c.stopped == d.stopped
  }

  /** One step: the field is set by a handler that says so, cleared by a new attempt, and else kept. */
  ghost predicate WordFollows(s: State, t: State, step: Step, w: Word) {
    && |s.attempts| <= |t.attempts|
    && if Heeds(s, step, w) then Holds(t.c, s, step, w) && |t.attempts| == |s.attempts|
       else if w != AStop && |t.attempts| != |s.attempts| then Clear(t.c, w)
       else Same(t.c, s.c, w)
  }

  lemma GoFollowsWord(s: State, i: nat, w: Word)
    requires Core(s) && IsThread(s, i) && CanGo(s, i) && KnowsAttempt(s, s.threads[i])
    ensures WordFollows(s, Go(s, i), Run(i), w)
  {
    GoEffects(s, i);
    var pc, n := s.threads[i], |s.attempts|;
    FollowsOne(s.c, pc, n, |s.threads|, s.now, w);
  }

  lemma FollowsOne(c: Client, pc: Pc, n: nat, m: nat, now: nat, w: Word)
    ensures var t := ClientAfter(c, pc, n, m, now);
            if pc.HandlerCs? && pc.entered && c.conn == Some(pc.k) && Speaks(pc.h, w) then
              (match w case AWelcome => t.welcomedAt == Some(now) case AGiveUp => t.gaveUp == pc.h.reason case AStop => t.stopped == pc.h.reason)
            else if pc.ConnectCs? && pc.entered && !c.quitting && w != AStop then Clear(t, w)
            else Same(t, c, w)
  {
  }

  lemma StepFollowsWord(s: State, step: Step, w: Word)
    requires Core(s) && Enabled(s, step)
    ensures WordFollows(s, Apply(s, step), step, w)
  {
    if step.Run? { GoFollowsWord(s, step.i, w); }
  }

  lemma NextFollowsWord(steps: seq<Step>, n: nat, w: Word)
    requires IsRun(steps) && n < |steps|
    ensures WordFollows(At(steps, n), At(steps, n + 1), steps[n], w)
  {
    AtNext(steps, n);
    StepFollowsWord(At(steps, n), steps[n], w);
  }

  lemma LastHolds(steps: seq<Step>, n: nat, w: Word, j: nat)
    requires IsRun(steps) && n < |steps| && IsLast(steps, n + 1, j, w)
    requires IsLast(steps, n, j, w) ==> Holds(At(steps, n).c, At(steps, j), steps[j], w)
    ensures Holds(At(steps, n + 1).c, At(steps, j), steps[j], w)
  {
    NextFollowsWord(steps, n, w);
    LastGrowsAt(steps, n, w, j);
  }

  lemma SomeIsLast(steps: seq<Step>, n: nat, w: Word) returns (j: nat)
    requires IsRun(steps) && n < |steps| && !Clear(At(steps, n + 1).c, w)
    requires !Clear(At(steps, n).c, w) ==> exists j: nat :: IsLast(steps, n, j, w)
    ensures IsLast(steps, n + 1, j, w)
  {
    NextFollowsWord(steps, n, w);
    if Heeds(At(steps, n), steps[n], w) {
      j := n;
    } else {
      j :| IsLast(steps, n, j, w);
    }
    LastGrowsAt(steps, n, w, j);
  }

  /** A field of the client is what the last handler that speaks of it said, and there is none only if no
      handler did. */
  lemma {:induction false} FieldIsTheLastWord(steps: seq<Step>, n: nat, w: Word)
    requires IsRun(steps) && n <= |steps|
    ensures var c := At(steps, n).c;
            && (forall j: nat :: IsLast(steps, n, j, w) ==> Holds(c, At(steps, j), steps[j], w))
            && (!Clear(c, w) ==> exists j: nat :: IsLast(steps, n, j, w))
  {
    if n > 0 {
      FieldIsTheLastWord(steps, n - 1, w);
      forall j: nat | IsLast(steps, n, j, w) ensures Holds(At(steps, n).c, At(steps, j), steps[j], w) {
        LastHolds(steps, n - 1, w, j);
      }
      if !Clear(At(steps, n).c, w) {
        var _ := SomeIsLast(steps, n - 1, w);
      }
    }
  }

  lemma {:induction false} AttemptsGrow(steps: seq<Step>, j: nat, n: nat)
    requires IsRun(steps) && j <= n <= |steps|
    ensures |At(steps, j).attempts| <= |At(steps, n).attempts|
  {
    if j < n {
      AttemptsGrow(steps, j, n - 1);
      AtNext(steps, n - 1);
      NewAttemptOnly(At(steps, n - 1), steps[n - 1]);
    }
  }

  lemma LastGrowsAt(steps: seq<Step>, n: nat, w: Word, j: nat)
    requires IsRun(steps) && n < |steps|
    ensures var s, t := At(steps, n), At(steps, n + 1);
            IsLast(steps, n + 1, j, w) <==>
              (j == n && Heeds(s, steps[n], w) && (w == AStop || |t.attempts| == |s.attempts|))
              || (IsLast(steps, n, j, w) && !Heeds(s, steps[n], w) && (w == AStop || |t.attempts| == |s.attempts|))
  {
    AttemptsGrow(steps, n, n + 1);
    if j < n {
      AttemptsGrow(steps, j, n);
      QuietGrows(steps, j + 1, n, w);
    } else if j == n {
      assert Quiet(steps, j + 1, n + 1, w);
    }
  }
}
