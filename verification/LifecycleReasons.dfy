/** Where the text of an ended attempt's status comes from. */
module LifecycleReasons {
  import opened Options
  import opened Lifecycle
  import opened LifecycleInvariant
  import opened LifecycleCore
  import opened LifecycleSteps
  import opened LifecycleTheorems
  import opened LifecycleEffects
  import opened LifecycleHistory

  /** The attempt whose end a thread is telling of, and in what words. */
  function Carries(pc: Pc): Option<(nat, string)> {
    match pc
    case EndSwap(k, text) => Some((k, text))
    case DetachCs(k, text, _) => Some((k, text))
    case Shut(k, text, _) => Some((k, text))
    case FailMu(k, text) => Some((k, text))
    case FailCs(k, text, _) => Some((k, text))
    case Publish(status, p) => if p.Down? && status.msg.Failed? then Some((p.k, status.msg.text)) else None
    case _ => None
  }

  /** irc-go reports the end of attempt k with this text: its Connect's error, or its disconnect callback's. */
  ghost predicate Reports(s: State, step: Step, k: nat, text: string) {
    match step
    case Report(j, said) => j == k && said == text
    case DialFail(i, said) => IsThread(s, i) && s.threads[i] == Dialing(k) && said == text
    case ConnectErr(i, said) => IsThread(s, i) && s.threads[i] == Registering(k) && said == text
    case _ => false
  }

  /** A handler ends attempt k for this reason. */
  ghost predicate EndsFor(s: State, step: Step, k: nat, text: string) {
    k + 1 == |s.attempts| && (Heeds(s, step, AGiveUp) || Heeds(s, step, AStop)) && s.threads[step.i].h.reason == text
  }

  /** By step n, irc-go or a handler has said so of attempt k. */
  ghost predicate Given(steps: seq<Step>, n: nat, k: nat, text: string)
    requires IsRun(steps) && n <= |steps|
  {
    exists j: nat :: j < n && (Reports(At(steps, j), steps[j], k, text) || EndsFor(At(steps, j), steps[j], k, text))
  }

  ghost predicate AllGiven(steps: seq<Step>, n: nat)
    requires IsRun(steps) && n <= |steps|
  {
    && (forall i :: 0 <= i < |At(steps, n).threads| && Carries(At(steps, n).threads[i]).Some? ==>
          var x := Carries(At(steps, n).threads[i]).value; Given(steps, n, x.0, x.1))
    && (forall i :: 0 <= i < |At(steps, n).log| && Tells(At(steps, n).log[i]) ==>
          Given(steps, n, At(steps, n).log[i].attempt.value, At(steps, n).log[i].status.msg.text))
  }

  predicate Tells(e: Entry) {
    e.attempt.Some? && e.status.msg.Failed?
  }

  /** A step passes on what its thread carries, but for the reason the client has, which an end takes. */
  lemma CarriesOne(c: Client, pc: Pc, n: nat, now: nat)
    ensures var q := PcAfter(c, pc, n, now);
            Carries(q).Some? && Carries(q) != Carries(pc) ==>
              pc.DetachCs? && pc.entered && c.conn == Some(pc.k)
              && Carries(q).value == (pc.k, Reason(c)) && Reason(c) != ""
  {}

  /** The client's reason is one that a handler gave for the newest attempt. */
  lemma ReasonWasGiven(steps: seq<Step>, n: nat)
    requires IsRun(steps) && n <= |steps|
    requires var s := At(steps, n); Reason(s.c) != "" && s.c.conn.Some?
    ensures var s := At(steps, n); |s.attempts| > 0 && Given(steps, n, |s.attempts| - 1, Reason(s.c))
  {
    var s := At(steps, n);
    AtIsReachable(steps, n);
    var w := if s.c.stopped != "" then AStop else AGiveUp;
    FieldIsTheLastWord(steps, n, w);
    var j: nat :| IsLast(steps, n, j, w);
    if w == AStop { StopIsOfTheLast(steps, n, j); }
    assert EndsFor(At(steps, j), steps[j], |s.attempts| - 1, Reason(s.c));
  }

  /** No attempt begins after a stop. */
  lemma StopIsOfTheLast(steps: seq<Step>, n: nat, j: nat)
    requires IsRun(steps) && n <= |steps| && IsLast(steps, n, j, AStop)
    ensures |At(steps, n).attempts| == |At(steps, j).attempts|
  {
    var s := At(steps, j);
    AtNext(steps, j);
    StepFollowsWord(s, steps[j], AStop);
    assert Local(s, steps[j].i);
    StaysStopped(steps, j + 1, n);
  }

  lemma {:induction false} StaysStopped(steps: seq<Step>, j: nat, n: nat)
    requires IsRun(steps) && j <= n <= |steps| && At(steps, j).c.stopped != ""
    ensures Final(At(steps, n).c) && |At(steps, n).attempts| == |At(steps, j).attempts|
  {
    if j < n {
      StaysStopped(steps, j, n - 1);
      AtNext(steps, n - 1);
      FinalStartsNothing(At(steps, n - 1), steps[n - 1]);
      FinalStays(At(steps, n - 1), steps[n - 1]);
    }
  }

  lemma GivenStill(steps: seq<Step>, n: nat, k: nat, text: string)
    requires IsRun(steps) && n < |steps| && Given(steps, n, k, text)
    ensures Given(steps, n + 1, k, text)
  {}

  lemma GivenNow(steps: seq<Step>, n: nat, k: nat, text: string)
    requires IsRun(steps) && n < |steps| && Reports(At(steps, n), steps[n], k, text)
    ensures Given(steps, n + 1, k, text)
  {}

  lemma GoCarries(s: State, t: State, i: nat, j: nat)
    requires Fields(s) && IsThread(s, i) && ThreadsAfter(s, t, i) && IsThread(t, j) && Carries(t.threads[j]).Some?
    requires !(IsThread(s, j) && Carries(s.threads[j]) == Carries(t.threads[j]))
    ensures s.c.conn.Some? && Reason(s.c) != "" && Carries(t.threads[j]).value == (|s.attempts| - 1, Reason(s.c))
  {
    CarriesOne(s.c, s.threads[i], |s.attempts|, s.now);
  }

  lemma OutsideGives(steps: seq<Step>, n: nat, i: nat)
    requires IsRun(steps) && n < |steps| && !steps[n].Run?
    requires IsThread(At(steps, n + 1), i) && Carries(At(steps, n + 1).threads[i]).Some?
    requires !(IsThread(At(steps, n), i) && Carries(At(steps, n).threads[i]) == Carries(At(steps, n + 1).threads[i]))
    ensures var x := Carries(At(steps, n + 1).threads[i]).value; Given(steps, n + 1, x.0, x.1)
  {
    AtNext(steps, n);
    OutsideReports(At(steps, n), steps[n], i);
    var x := Carries(At(steps, n + 1).threads[i]).value;
    GivenNow(steps, n, x.0, x.1);
  }

  lemma OutsideSaysNothing(steps: seq<Step>, n: nat)
    requires IsRun(steps) && n < |steps| && !steps[n].Run?
    ensures At(steps, n + 1).log == At(steps, n).log
  {
    AtNext(steps, n);
  }

  /** What a thread carries after step n was given by then. */
  lemma CarriedWasGiven(steps: seq<Step>, n: nat, i: nat)
    requires IsRun(steps) && n < |steps| && AllGiven(steps, n)
    requires IsThread(At(steps, n + 1), i) && Carries(At(steps, n + 1).threads[i]).Some?
    ensures var x := Carries(At(steps, n + 1).threads[i]).value; Given(steps, n + 1, x.0, x.1)
  {
    var s, t, step := At(steps, n), At(steps, n + 1), steps[n];
    var x := Carries(t.threads[i]).value;
    if IsThread(s, i) && Carries(s.threads[i]) == Carries(t.threads[i]) {
      GivenStill(steps, n, x.0, x.1);
    } else if step.Run? {
      NextEffects(steps, n);
      GoCarries(s, t, step.i, i);
      ReasonWasGiven(steps, n);
      GivenStill(steps, n, x.0, x.1);
    } else {
      OutsideGives(steps, n, i);
    }
  }

  lemma OutsideReports(s: State, step: Step, i: nat)
    requires Enabled(s, step) && !step.Run? && IsThread(Apply(s, step), i)
    requires Carries(Apply(s, step).threads[i]).Some?
    requires !(IsThread(s, i) && Carries(s.threads[i]) == Carries(Apply(s, step).threads[i]))
    ensures var x := Carries(Apply(s, step).threads[i]).value; Reports(s, step, x.0, x.1)
  {}

  lemma ToldWasGiven(steps: seq<Step>, n: nat, i: nat)
    requires IsRun(steps) && n < |steps| && AllGiven(steps, n)
    requires i < |At(steps, n + 1).log| && Tells(At(steps, n + 1).log[i])
    ensures var e := At(steps, n + 1).log[i]; Given(steps, n + 1, e.attempt.value, e.status.msg.text)
  {
    var s, e := At(steps, n), At(steps, n + 1).log[i];
    if steps[n].Run? { NextEffects(steps, n); } else { OutsideSaysNothing(steps, n); }
    if i >= |s.log| {
      assert Carries(s.threads[steps[n].i]) == Some((e.attempt.value, e.status.msg.text));
    }
    GivenStill(steps, n, e.attempt.value, e.status.msg.text);
  }

  lemma {:induction false} RunGives(steps: seq<Step>, n: nat)
    requires IsRun(steps) && n <= |steps|
    ensures AllGiven(steps, n)
  {
    if n > 0 {
      RunGives(steps, n - 1);
      forall i | 0 <= i < |At(steps, n).threads| && Carries(At(steps, n).threads[i]).Some?
        ensures var x := Carries(At(steps, n).threads[i]).value; Given(steps, n, x.0, x.1)
      {
        CarriedWasGiven(steps, n - 1, i);
      }
      forall i | 0 <= i < |At(steps, n).log| && Tells(At(steps, n).log[i])
        ensures Given(steps, n, At(steps, n).log[i].attempt.value, At(steps, n).log[i].status.msg.text)
      {
        ToldWasGiven(steps, n - 1, i);
      }
    }
  }

  /** The text of each end told of attempt k is one that irc-go reported of k, or the reason for which a handler
      ended k. */
  lemma EndsAreTruthful(steps: seq<Step>, i: nat, k: nat, text: string)
    requires IsRun(steps) && i < |At(steps, |steps|).log|
    requires At(steps, |steps|).log[i].attempt == Some(k) && At(steps, |steps|).log[i].status.msg == Failed(text)
    ensures exists j: nat ::
      j < |steps| && (Reports(At(steps, j), steps[j], k, text) || EndsFor(At(steps, j), steps[j], k, text))
  {
    RunGives(steps, |steps|);
    assert Tells(At(steps, |steps|).log[i]);
  }
}
