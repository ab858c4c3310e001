/** The backoff in numbers: when it is reset, how long the timer is armed for, and what is published. */
module LifecycleBackoff {
  import opened Options
  import opened Lifecycle
  import opened LifecycleInvariant
  import opened LifecycleCore
  import opened LifecycleSteps
  import opened LifecycleTheorems
  import opened LifecycleEffects
  import opened LifecycleHistory

  /** The retries after an end, of a connection welcomed at `welcomed` or never. */
  function CountedRetries(retries: nat, welcomed: Option<nat>, now: nat): nat {
    if welcomed.Some? && now - welcomed.value >= 300 then 1 else retries + 1
  }

  function Seconds(retries: nat): nat {
    if retries <= 20 then 15 * retries else 300
  }

  /** The section that decides, for a client that goes on: a connection that lasted 300 s since its 001 counts
      as the first failure, any other as one more; the timer is armed for 15 s for each, at most 300, and that
      is what is to be published. Nothing else of the client changes. */
  lemma DecidesInNumbers(s: State, i: nat, k: nat)
    requires Reachable(s) && IsThread(s, i) && s.threads[i] == DecideCs(k, true) && !s.c.quitting && s.c.stopped == ""
    ensures CanGo(s, i) && KnowsAttempt(s, s.threads[i])
    ensures var t, m := Go(s, i), |s.threads|;
            var n := CountedRetries(s.c.retries, s.c.welcomedAt, s.now);
            && t.c == s.c.(retries := n, connected := false, msg := Reconnecting(Seconds(n)), timer := Some(m))
            && t.threads == s.threads[i := Publish(Status(false, Reconnecting(Seconds(n))), Retry(k))]
                            + [Armed(k, s.now + Seconds(n))]
            && t.cont == Some(m)
  {
    ReachableInv(s);
    AttemptIsKnown(s, i);
    assert Local(s, i);
  }

  /** In terms of the run: the retries start again exactly if the newest attempt's last 001 was handled at
      least 300 s ago. */
  lemma ResetsExactly(steps: seq<Step>, n: nat, i: nat, k: nat)
    requires IsRun(steps) && n <= |steps|
    requires var s := At(steps, n);
             IsThread(s, i) && s.threads[i] == DecideCs(k, true) && !s.c.quitting && s.c.stopped == ""
    ensures var s := At(steps, n);
            && CanGo(s, i) && KnowsAttempt(s, s.threads[i]) && k + 1 == |s.attempts|
            && Go(s, i).c.retries ==
               if exists j: nat :: IsLast(steps, n, j, AWelcome) && s.now - At(steps, j).now >= 300 then 1
               else s.c.retries + 1
  {
    var s := At(steps, n);
    AtIsReachable(steps, n);
    DecidesInNumbers(s, i, k);
    FieldIsTheLastWord(steps, n, AWelcome);
    assert Local(s, i);
    OnlyTheLast(s);
  }

  // ----- the timer is armed for no longer -----

  ghost predicate DueSoon(s: State, j: nat)
    requires IsThread(s, j)
  {
    s.threads[j].Armed? ==> s.threads[j].due <= s.now + Seconds(s.c.retries)
  }

  ghost predicate AllDueSoon(s: State) {
    forall j :: 0 <= j < |s.threads| ==> DueSoon(s, j)
  }

  lemma OneDueSoon(s: State, t: State, i: nat, j: nat)
    requires IsThread(s, i) && ThreadsAfter(s, t, i) && t.now == s.now && IsThread(t, j) && IsThread(s, j) && DueSoon(s, j)
    requires t.c.retries == s.c.retries
    ensures DueSoon(t, j)
  {
    PcNeverArmed(s.c, s.threads[i], |s.attempts|, s.now);
  }

  /** A step that arms the timer finds none armed. */
  lemma ArmsAlone(s: State, t: State, i: nat)
    requires Core(s) && IsThread(s, i) && Arms(s.c, s.threads[i]) && Effects(s, t, i)
    ensures AllDueSoon(t)
  {
    var pc := s.threads[i];
    NothingArmed(s, i, pc.k);
    PcNeverArmed(s.c, pc, |s.attempts|, s.now);
    forall j | 0 <= j < |t.threads| ensures DueSoon(t, j) {
      if j < |s.threads| { assert Local(s, j); }
    }
  }

  lemma GoDueSoon(s: State, i: nat)
    requires Core(s) && AllDueSoon(s) && IsThread(s, i) && CanGo(s, i) && KnowsAttempt(s, s.threads[i])
    ensures AllDueSoon(Go(s, i))
  {
    var t, pc := Go(s, i), s.threads[i];
    GoEffects(s, i);
    if Arms(s.c, pc) {
      ArmsAlone(s, t, i);
    } else {
      RetriesKept(s.c, pc, |s.attempts|, |s.threads|, s.now);
      forall j | 0 <= j < |t.threads| ensures DueSoon(t, j) { OneDueSoon(s, t, i, j); }
    }
  }

  lemma PcNeverArmed(c: Client, pc: Pc, n: nat, now: nat)
    ensures !PcAfter(c, pc, n, now).Armed?
  {}

  lemma RetriesKept(c: Client, pc: Pc, n: nat, m: nat, now: nat)
    ensures Arms(c, pc) || ClientAfter(c, pc, n, m, now).retries == c.retries
  {}

  lemma StepDueSoon(s: State, step: Step)
    requires Core(s) && AllDueSoon(s) && Enabled(s, step)
    ensures AllDueSoon(Apply(s, step))
  {
    var t := Apply(s, step);
    if step.Run? {
      GoDueSoon(s, step.i);
    } else {
      forall j | 0 <= j < |t.threads| ensures DueSoon(t, j) {
        if j < |s.threads| { assert DueSoon(s, j); }
      }
    }
  }

  lemma {:induction false} RunDueSoon(steps: seq<Step>, n: nat)
    requires IsRun(steps) && n <= |steps|
    ensures AllDueSoon(At(steps, n))
  {
    if n > 0 {
      RunDueSoon(steps, n - 1);
      AtNext(steps, n - 1);
      StepDueSoon(At(steps, n - 1), steps[n - 1]);
    }
  }

  /** In every reachable state a timer that is armed fires within 15 s for each retry counted, and within 300 s:
      so the next attempt is no further off than the backoff that was published. */
  lemma ArmedIsDueSoon(s: State, i: nat)
    requires Reachable(s) && IsThread(s, i) && s.threads[i].Armed?
    ensures s.threads[i].due <= s.now + Seconds(s.c.retries) && Seconds(s.c.retries) <= 300
    ensures s.c.timer == Some(i) && s.cont == Some(i)
  {
    var steps :| ValidRun(Init(), steps) && Exec(Init(), steps) == s;
    assert steps[..|steps|] == steps;
    RunDueSoon(steps, |steps|);
    assert DueSoon(s, i);
    ReachableInv(s);
    assert Local(s, i);
  }
}
