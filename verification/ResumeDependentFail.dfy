/**
 Resume under dependent_fail. The seed carries results and completed keys but not
 the failed keys, so a step that was waiting for a failed dependency when the call
 paused is not skipped by the resuming call: it runs. Exactly these steps break
 the rule that a step with a failed dependency never starts.
 */
module ResumeDependentFail {
  import opened Wrappers
  import opened Json
  import opened Conditions
  import opened Plans
  import opened PlanInvariants
  import opened Progress
  import opened HumanGate
  import opened Resume
  import opened Startable

  lemma {:induction false} CollectKeepsLaunched(c: Call, s: State, schedule: seq<seq<Key>>, f: State)
    requires Ends(c, s, schedule, f)
    ensures forall k :: k in s.launched ==> k in f.launched
    decreases |schedule|
  {
    if LoopOn(s) && Head(c, s).inflight != {} {
      var t := After(c, s, schedule[0]);
      CollectLaunchesNothing(c, Head(c, s), schedule[0]);
      if !PauseReached(t) {
        CollectKeepsLaunched(c, t, schedule[1..], f);
      }
    }
  }

  /** What the first round launches, the run launches. */
  lemma FirstRoundCounts(c: Call, schedule: seq<seq<Key>>, f: State, k: Key)
    requires Ends(c, Init(c), schedule, f) && c.steps != map[] && k in Head(c, Init(c)).launched
    ensures k in f.launched
  {
    var s := Init(c);
    assert s.pending != {};
    if Head(c, s).inflight != {} {
      var t := After(c, s, schedule[0]);
      CollectLaunchesNothing(c, Head(c, s), schedule[0]);
      if !PauseReached(t) {
        CollectKeepsLaunched(c, t, schedule[1..], f);
      }
    }
  }

  lemma FreshHead(e: Call)
    ensures Head(e, Init(e)).launched == multiset(set k | k in e.steps && IsReady(e, Init(e), e.steps[k]))
  {
    NothingDoomed(e, Init(e));
    assert ReadyKeys(e, Init(e)) == set k | k in e.steps && IsReady(e, Init(e), e.steps[k]);
  }

  /**
   Every run of the resuming call starts each step that was left pending with all
   its dependencies finished and its condition true, whether or not a dependency
   had failed, and whatever the policy.
   */
  lemma ResumeStartsWhatWasPending(
      c: Call, f1: State, r: Key, patched: Value, sched2: seq<seq<Key>>, f2: State, k: Key)
    requires ValidCall(c) && Inv(c, f1) && k in f1.pending && r in f1.results
    requires DependsOnlyOn(c.steps[k], f1.completed) && Holds(c.steps[k].condition, c.params, f1.results[r := patched])
    requires Ends(Resumed(c, f1, r, patched), Init(Resumed(c, f1, r, patched)), sched2, f2)
    ensures k in f2.launched
  {
    var e := Resumed(c, f1, r, patched);
    assert k in e.steps && e.steps[k] == c.steps[k] && IsReady(e, Init(e), e.steps[k]);
    StartsReady(e, sched2, f2, k);
  }

  /** A step that is ready at the start of a call is started by every run of it. */
  lemma StartsReady(e: Call, schedule: seq<seq<Key>>, f: State, k: Key)
    requires k in e.steps && IsReady(e, Init(e), e.steps[k]) && Ends(e, Init(e), schedule, f)
    ensures k in f.launched
  {
    FreshHead(e);
    var ready := set j | j in e.steps && IsReady(e, Init(e), e.steps[j]);
    assert k in ready;
    FirstRoundCounts(e, schedule, f, k);
  }

  /** Review `r`, failing step `a`, and `k` that waits for `a`. */
  ghost predicate LostFailure(c: Call, r: Key, a: Key, k: Key, pending: Value, text: string) {
    && ValidCall(c) && c.policy.DependentFail? && c.seedKeys == {}
    && r != a && r != k && a != k && c.steps.Keys == {r, a, k}
    && c.steps[r].dependsOn == [] && c.steps[a].dependsOn == [] && c.steps[k].dependsOn == [a]
    && (forall s :: s in c.steps ==> c.steps[s].condition == Always)
    && Pauses(c.steps[r], pending)
    && (forall seen :: c.exec(c.steps[r], seen) == Output(pending))
    && (forall seen :: c.exec(c.steps[a], seen) == FailedResult(text))
  }

  function FirstWait(c: Call, r: Key, a: Key, k: Key): State {
    State({k}, {r, a}, {}, {}, {}, c.seedResults, map[], false, None, multiset({r, a}))
  }

  lemma FirstWaitIsHead(c: Call, r: Key, a: Key, k: Key, pending: Value, text: string)
    requires LostFailure(c, r, a, k, pending, text)
    ensures Head(c, Init(c)) == FirstWait(c, r, a, k)
  {
    NothingDoomed(c, Init(c));
    assert a in c.steps[k].dependsOn;
    assert ReadyKeys(c, Init(c)) == {r, a};
    assert {r, a, k} - {r, a} == {k};
  }

  lemma PausesWithFailure(c: Call, r: Key, a: Key, k: Key, pending: Value, text: string) returns (f1: State)
    requires LostFailure(c, r, a, k, pending, text)
    ensures Ends(c, Init(c), [[a, r]], f1) && f1.paused == Some(r)
    ensures k in f1.pending && a in f1.failed && f1.completed == {a, r} && r in f1.results
  {
    FirstWaitIsHead(c, r, a, k, pending, text);
    var h := FirstWait(c, r, a, k);
    CollectTwo(c, h, a, r);
    f1 := Finish(c, Finish(c, h, a), r);
    EndsPaused(c, Init(c), [a, r]);
  }

  /**
   Under dependent_fail the rule "a step with a failed dependency never starts"
   does not survive a resume: for every call of this shape there is a paused run
   after which every resuming run starts `k`, although `a` had failed.
   */
  lemma ResumeForgetsFailures(c: Call, r: Key, a: Key, k: Key, pending: Value, text: string, patched: Value)
      returns (f1: State)
    requires LostFailure(c, r, a, k, pending, text)
    ensures Ends(c, Init(c), [[a, r]], f1) && f1.paused == Some(r)
    ensures a in f1.failed && a in c.steps[k].dependsOn
    ensures forall sched2, f2 ::
              Ends(Resumed(c, f1, r, patched), Init(Resumed(c, f1, r, patched)), sched2, f2) ==> k in f2.launched
  {
    f1 := PausesWithFailure(c, r, a, k, pending, text);
    assert Inv(c, f1) by {
      InvInit(c);
      InvEnds(c, Init(c), [[a, r]], f1);
    }
    forall sched2, f2 | Ends(Resumed(c, f1, r, patched), Init(Resumed(c, f1, r, patched)), sched2, f2)
      ensures k in f2.launched
    {
      ResumeStartsWhatWasPending(c, f1, r, patched, sched2, f2, k);
    }
  }

  // ---------------------------------------------------------------- exactly when the rule survives

  /** `k` starts in the resuming run although one of its dependencies failed, before the pause or after it. */
  ghost predicate StartsAfterFailure(c: Call, f1: State, f2: State, k: Key) {
    k in c.steps && k in f2.launched && DependsOnAny(c.steps[k], f1.failed + f2.failed)
  }

  /** Left pending by the paused call with a dependency that had failed. */
  predicate LeftWithFailure(c: Call, f1: State, k: Key) {
    k in f1.pending && k in c.steps && DependsOnAny(c.steps[k], f1.failed)
  }

  lemma PausedFacts(c: Call, sched1: seq<seq<Key>>, f1: State)
    requires ValidCall(c) && c.policy.DependentFail? && Ends(c, Init(c), sched1, f1)
    ensures Inv(c, f1) && c.steps.Keys - f1.completed == f1.pending
  {
    EndFacts(c, sched1, f1);
  }

  /**
   In every resuming run the steps that break the rule are the started ones among
   those the paused call left pending with a failed dependency: failures of the
   resuming call itself never start anything.
   */
  lemma StartsAfterFailureIff(
      c: Call, sched1: seq<seq<Key>>, f1: State, r: Key, patched: Value, sched2: seq<seq<Key>>, f2: State, k: Key)
    requires ValidCall(c) && c.policy.DependentFail? && Ends(c, Init(c), sched1, f1)
    requires Ends(Resumed(c, f1, r, patched), Init(Resumed(c, f1, r, patched)), sched2, f2)
    ensures StartsAfterFailure(c, f1, f2, k) <==> LeftWithFailure(c, f1, k) && k in f2.launched
  {
    var e := Resumed(c, f1, r, patched);
    PausedFacts(c, sched1, f1);
    ResumedIsValid(c, f1, r, patched);
    EndFacts(e, sched2, f2);
    if StartsAfterFailure(c, f1, f2, k) {
      assert k in e.steps && e.steps[k] == c.steps[k];
      assert !DependsOnAny(e.steps[k], f2.failed);
    }
  }

  /** The rule breaks in this run of the resuming call, with these executors. */
  ghost predicate RuleBreaks(
      c: Call, f1: State, r: Key, patched: Value, exec: Executor, sched2: seq<seq<Key>>, f2: State, k: Key)
  {
    Starts(Resumed(c, f1, r, patched), exec, sched2, f2, k) && StartsAfterFailure(c, f1, f2, k)
  }

  lemma StartedAfterFailure(
      c: Call, sched1: seq<seq<Key>>, f1: State, r: Key, patched: Value, exec: Executor,
      sched2: seq<seq<Key>>, f2: State, k: Key)
    requires ValidCall(c) && c.policy.DependentFail? && Ends(c, Init(c), sched1, f1)
    requires Starts(Resumed(c, f1, r, patched), exec, sched2, f2, k)
    ensures StartsAfterFailure(c, f1, f2, k) <==> LeftWithFailure(c, f1, k)
    ensures CanStart(Resumed(c, f1, r, patched), k)
  {
    var e, d := Resumed(c, f1, r, patched), Resumed(c, f1, r, patched).(exec := exec);
    PausedFacts(c, sched1, f1);
    ResumedIsValid(c, f1, r, patched);
    StartedCanStart(e, exec, sched2, f2, k);
    assert Init(d) == Init(e);
    EndFacts(d, sched2, f2);
    assert k in e.steps && e.steps[k] == c.steps[k];
    assert !DependsOnAny(e.steps[k], f2.failed);
  }

  /**
   The rule "a step with a failed dependency never starts" across a resume,
   exactly, for a call without conditions on every dependency graph: it breaks in
   some resuming run, for some executors, if and only if the paused call left a
   step pending that has a failed dependency and that the resuming call can start.
   */
  lemma RuleBreaksIff(c: Call, sched1: seq<seq<Key>>, f1: State, r: Key, patched: Value)
    requires ValidCall(c) && c.policy.DependentFail? && Unconditional(c) && Ends(c, Init(c), sched1, f1)
    ensures (exists exec: Executor, sched2, f2, k :: RuleBreaks(c, f1, r, patched, exec, sched2, f2, k))
            <==> exists k :: LeftWithFailure(c, f1, k) && CanStart(Resumed(c, f1, r, patched), k)
  {
    if exec: Executor, sched2, f2, k :| RuleBreaks(c, f1, r, patched, exec, sched2, f2, k) {
      StartedAfterFailure(c, sched1, f1, r, patched, exec, sched2, f2, k);
    }
    if k :| LeftWithFailure(c, f1, k) && CanStart(Resumed(c, f1, r, patched), k) {
      LeftoverBreaks(c, sched1, f1, r, patched, k);
    }
  }

  lemma LeftoverBreaks(c: Call, sched1: seq<seq<Key>>, f1: State, r: Key, patched: Value, k: Key)
    requires ValidCall(c) && c.policy.DependentFail? && Unconditional(c) && Ends(c, Init(c), sched1, f1)
    requires LeftWithFailure(c, f1, k) && CanStart(Resumed(c, f1, r, patched), k)
    ensures exists exec: Executor, sched2, f2 :: RuleBreaks(c, f1, r, patched, exec, sched2, f2, k)
  {
    var e := Resumed(c, f1, r, patched);
    ResumedIsValid(c, f1, r, patched);
    var failing :| CanFail(e, failing) && MayStart(e, failing, {}, k);
    var exec, sched2, f2 := CanStartInSomeRun(e, failing, k);
    StartedAfterFailure(c, sched1, f1, r, patched, exec, sched2, f2, k);
    assert RuleBreaks(c, f1, r, patched, exec, sched2, f2, k);
  }

  lemma ResumedIsAcyclic(c: Call, rank: map<Key, nat>, f1: State, r: Key, patched: Value)
    requires AcyclicBy(c, rank) && c.seedKeys <= f1.completed
    ensures AcyclicBy(Resumed(c, f1, r, patched), rank)
  {
  }

  /** In an acyclic plan any step left pending with a failed dependency will do. */
  lemma AcyclicRuleBreaksIff(c: Call, rank: map<Key, nat>, sched1: seq<seq<Key>>, f1: State, r: Key, patched: Value)
    requires ValidCall(c) && c.policy.DependentFail? && Unconditional(c) && AcyclicBy(c, rank)
    requires Ends(c, Init(c), sched1, f1)
    ensures (exists exec: Executor, sched2, f2, k :: RuleBreaks(c, f1, r, patched, exec, sched2, f2, k))
            <==> exists k :: LeftWithFailure(c, f1, k)
  {
    RuleBreaksIff(c, sched1, f1, r, patched);
    if k :| LeftWithFailure(c, f1, k) {
      PausedFacts(c, sched1, f1);
      ResumedIsValid(c, f1, r, patched);
      ResumedIsAcyclic(c, rank, f1, r, patched);
      AcyclicCanStart(Resumed(c, f1, r, patched), rank, k);
    }
  }
}
