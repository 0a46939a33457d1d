/**
 Resuming as the approval endpoint does it: the completed keys it passes are the
 keys of the stored results, which leave out the failed steps. So the promise that
 finished steps are not run again holds exactly when nothing failed before the
 pause. This is shown for every error policy, for executors and conditions that
 read what they like, and for executions that pause and resume any number of times.
 */
module ResumeFromResults {
  import opened Json
  import opened Conditions
  import opened Plans
  import opened PlanInvariants
  import opened HumanGate
  import opened Started
  import opened Resume
  import opened ResumeDependentFail

  /** The resuming call, seeded with the keys that have a result. */
  function Reseeded(c: Call, f: State, r: Key, patched: Value): Call {
    Call(StepsOutside(c.steps, f.results.Keys), c.policy, c.params, f.results.Keys, f.results[r := patched], c.exec)
  }

  /** What the endpoint starts from: nothing at first, and afterwards the results so far and their keys. */
  ghost predicate SeededByResults(c: Call) {
    ValidCall(c) && c.seedKeys == c.seedResults.Keys
  }

  lemma ReseededIsSeededByResults(c: Call, f: State, r: Key, patched: Value)
    requires ValidCall(c) && r in f.results
    ensures SeededByResults(Reseeded(c, f, r, patched))
  {
  }

  /** A call that left review `r` pending and the call that resumes it once `r` is approved. */
  ghost predicate PausedThenResumed(
      c: Call, r: Key, patched: Value, sched1: seq<seq<Key>>, f1: State, sched2: seq<seq<Key>>, f2: State)
  {
    && SeededByResults(c) && Ends(c, Init(c), sched1, f1) && AwaitsReview(c, f1, r)
    && Ends(Reseeded(c, f1, r, patched), Init(Reseeded(c, f1, r, patched)), sched2, f2)
  }

  // ---------------------------------------------------------------- how failures begin

  /** A failed step none of whose dependencies failed or was skipped. */
  predicate StartsFailing(c: Call, s: State, k: Key) {
    k in s.failed && k in c.steps && DependsOnlyOn(c.steps[k], s.completed - s.failed - s.skipped)
  }

  /** Failures begin with such a step, and nothing is skipped before one. */
  ghost predicate FailuresBegin(c: Call, s: State) {
    (s.failed != {} || s.skipped != {}) ==> exists k :: StartsFailing(c, s, k)
  }

  lemma HeadFailuresBegin(c: Call, s: State)
    requires Inv(c, s) && FailuresBegin(c, s) && !s.abort
    ensures FailuresBegin(c, Head(c, s))
  {
    if s.failed != {} || s.skipped != {} {
      var k :| StartsFailing(c, s, k);
      assert DoomedKeys(c, s) <= s.pending;
      assert StartsFailing(c, Head(c, s), k);
    } else {
      assert DoomedKeys(c, s) == {};
    }
  }

  lemma FinishFailuresBegin(c: Call, s: State, j: Key)
    requires ValidCall(c) && Inv(c, s) && GateInv(c, s) && FailuresBegin(c, s) && !s.abort && j in s.inflight
    ensures FailuresBegin(c, Finish(c, s, j))
  {
    var t := Finish(c, s, j);
    if s.failed != {} || s.skipped != {} {
      var k :| StartsFailing(c, s, k);
      assert StartsFailing(c, t, k);
    } else if j in t.failed {
      assert j in s.launched;
      assert StartsFailing(c, t, j);
    }
  }

  lemma {:induction false} CollectFailuresBegin(c: Call, s: State, batch: seq<Key>)
    requires ValidCall(c) && Inv(c, s) && GateInv(c, s) && FailuresBegin(c, s) && Distinct(batch)
    requires forall k :: k in batch ==> k in c.steps
    requires !s.abort ==> forall k :: k in batch ==> k in s.inflight
    ensures FailuresBegin(c, Collect(c, s, batch))
    decreases |batch|
  {
    if batch != [] && !s.abort {
      InvFinish(c, s, batch[0]);
      FinishGates(c, s, batch[0]);
      FinishFailuresBegin(c, s, batch[0]);
      CollectFailuresBegin(c, Finish(c, s, batch[0]), batch[1..]);
    }
  }

  lemma StoppedFailuresBegin(c: Call, s: State)
    requires FailuresBegin(c, s)
    ensures FailuresBegin(c, s.(pending := {}))
  {
    if k :| StartsFailing(c, s, k) {
      assert StartsFailing(c, s.(pending := {}), k);
    }
  }

  lemma {:induction false} EndsFailuresBegin(c: Call, s: State, schedule: seq<seq<Key>>, f: State)
    requires ValidCall(c) && Inv(c, s) && GateInv(c, s) && FailuresBegin(c, s) && Ends(c, s, schedule, f)
    ensures FailuresBegin(c, f)
    decreases |schedule|
  {
    if LoopOn(s) {
      InvHead(c, s);
      HeadGates(c, s);
      HeadFailuresBegin(c, s);
      if Head(c, s).inflight != {} {
        CollectFailuresBegin(c, Head(c, s), schedule[0]);
        AfterGates(c, s, schedule[0]);
        if !PauseReached(After(c, s, schedule[0])) {
          EndsFailuresBegin(c, After(c, s, schedule[0]), schedule[1..], f);
        }
      }
    } else if s.abort {
      StoppedFailuresBegin(c, s);
    }
  }

  lemma StartOfRun(c: Call)
    requires ValidCall(c)
    ensures Inv(c, Init(c)) && GateInv(c, Init(c)) && FailuresBegin(c, Init(c))
  {
    InvInit(c);
    assert Succeeded(c, Init(c)) == {};
  }

  lemma ResultKeys(c: Call, f: State)
    requires SeededByResults(c) && Inv(c, f)
    ensures f.results.Keys == f.completed - f.failed - f.skipped
  {
  }

  lemma FirstCall(c: Call, schedule: seq<seq<Key>>, f: State)
    requires SeededByResults(c) && Ends(c, Init(c), schedule, f)
    ensures RunFacts(c, f) && f.inflight == {} && FailuresBegin(c, f)
    ensures f.results.Keys == f.completed - f.failed - f.skipped
  {
    StartedSteps(c, schedule, f);
    StartOfRun(c);
    EndsFailuresBegin(c, Init(c), schedule, f);
    ResultKeys(c, f);
  }

  // ---------------------------------------------------------------- what runs twice

  lemma ReseededLaunches(c: Call, f: State, r: Key, patched: Value, schedule: seq<seq<Key>>, f2: State)
    requires ValidCall(c)
    requires Ends(Reseeded(c, f, r, patched), Init(Reseeded(c, f, r, patched)), schedule, f2)
    ensures forall k :: k in f2.launched ==> k in c.steps && k !in f.results
  {
    var e := Reseeded(c, f, r, patched);
    InvInit(e);
    InvEnds(e, Init(e), schedule, f2);
  }

  /**
   Under every policy, and whichever review is approved, the steps that can run a
   second time are those that failed before and, if fail_fast aborted the first
   call, those it abandoned.
   */
  lemma OnlyFailedStepsRunTwice(
      c: Call, r: Key, patched: Value, sched1: seq<seq<Key>>, f1: State, sched2: seq<seq<Key>>, f2: State, k: Key)
    requires SeededByResults(c) && Ends(c, Init(c), sched1, f1)
    requires Ends(Reseeded(c, f1, r, patched), Init(Reseeded(c, f1, r, patched)), sched2, f2)
    requires k in f1.launched && k in f2.launched
    ensures k in f1.failed || (f1.abort && k !in f1.completed)
  {
    FirstCall(c, sched1, f1);
    ReseededLaunches(c, f1, r, patched, sched2, f2);
  }

  /** Approving the review takes nothing away from what started steps' conditions rest on. */
  lemma ApprovalKeepsConditions(c: Call, f: State, r: Key, patched: Value, k: Key)
    requires RunFacts(c, f) && AwaitsReview(c, f, r) && k in c.steps && k in f.launched
    ensures Holds(c.steps[k].condition, c.params, f.results[r := patched])
  {
    assert r !in Decided(c, f);
    HoldsGrows(c.steps[k].condition, c.params, Decided(c, f), f.results[r := patched]);
  }

  /** A failed step all of whose dependencies have results is ready again at once. */
  lemma FirstFailureRunsAgain(
      c: Call, r: Key, patched: Value, sched1: seq<seq<Key>>, f1: State, sched2: seq<seq<Key>>, f2: State, k: Key)
    requires PausedThenResumed(c, r, patched, sched1, f1, sched2, f2)
    requires k in f1.failed && k in c.steps && !DependsOnAny(c.steps[k], f1.failed + f1.skipped)
    ensures k in f1.launched && k in f2.launched
  {
    FirstCall(c, sched1, f1);
    var e := Reseeded(c, f1, r, patched);
    assert k in f1.launched;
    ApprovalKeepsConditions(c, f1, r, patched, k);
    assert DependsOnlyOn(c.steps[k], f1.completed);
    assert DependsOnlyOn(c.steps[k], e.seedKeys);
    StartsReady(e, sched2, f2, k);
  }

  /**
   The promise that finished steps are not run again, exactly, for every policy:
   resumed with the keys of its results, a paused call runs some step a second
   time if and only if a step had failed before the pause.
   */
  lemma SomeStepRunsTwiceIffOneFailed(
      c: Call, r: Key, patched: Value, sched1: seq<seq<Key>>, f1: State, sched2: seq<seq<Key>>, f2: State)
    requires PausedThenResumed(c, r, patched, sched1, f1, sched2, f2)
    ensures (exists k :: k in f1.launched && k in f2.launched) <==> f1.failed != {}
  {
    FirstCall(c, sched1, f1);
    if k :| k in f1.launched && k in f2.launched {
      OnlyFailedStepsRunTwice(c, r, patched, sched1, f1, sched2, f2, k);
    }
    if f1.failed != {} {
      var k :| StartsFailing(c, f1, k);
      FirstFailureRunsAgain(c, r, patched, sched1, f1, sched2, f2, k);
    }
  }

  /** The two ways of seeding the resuming call are one exactly when nothing failed. */
  lemma SeedsAgreeIffNoFailure(c: Call, r: Key, patched: Value, schedule: seq<seq<Key>>, f: State)
    requires SeededByResults(c) && Ends(c, Init(c), schedule, f)
    ensures Reseeded(c, f, r, patched) == Resumed(c, f, r, patched) <==> f.failed == {}
  {
    FirstCall(c, schedule, f);
    if f.failed == {} {
      assert f.skipped == {};
      assert f.completed == f.results.Keys;
    } else {
      var k :| k in f.failed;
      assert k in Resumed(c, f, r, patched).seedKeys && k !in Reseeded(c, f, r, patched).seedKeys;
    }
  }

  // ---------------------------------------------------------------- whole executions

  /** One call of an execution, and the review whose approval starts the next one. */
  datatype Leg = Leg(schedule: seq<seq<Key>>, f: State, review: Key, patched: Value)

  function NextCall(c: Call, leg: Leg): Call {
    Reseeded(c, leg.f, leg.review, leg.patched)
  }

  /** The call that leg `i` is a run of. */
  function CallAt(c: Call, legs: seq<Leg>, i: nat): Call
    requires i <= |legs|
  {
    if i == 0 then c else NextCall(CallAt(c, legs, i - 1), legs[i - 1])
  }

  ghost predicate LegRuns(c: Call, leg: Leg) {
    Ends(c, Init(c), leg.schedule, leg.f)
  }

  ghost predicate LegPauses(c: Call, leg: Leg) {
    AwaitsReview(c, leg.f, leg.review)
  }

  /** Leg `i` is a run of its call and, unless it is the last, leaves its review pending. */
  ghost predicate LegOk(c: Call, legs: seq<Leg>, i: nat)
    requires i < |legs|
  {
    LegRuns(CallAt(c, legs, i), legs[i]) && (i < |legs| - 1 ==> LegPauses(CallAt(c, legs, i), legs[i]))
  }

  /** An execution: every call but the last leaves a review pending, which is approved. */
  ghost predicate Execution(c: Call, legs: seq<Leg>) {
    legs != [] && forall i | 0 <= i < |legs| :: LegOk(c, legs, i)
  }

  /** Two calls of the execution hand out the same step. */
  predicate RunsAgain(legs: seq<Leg>, i: nat, j: nat, k: Key) {
    i < j < |legs| && k in legs[i].f.launched && k in legs[j].f.launched
  }

  /** A call before the last one had a failure. */
  predicate FailedBefore(legs: seq<Leg>, i: nat) {
    i < |legs| - 1 && legs[i].f.failed != {}
  }

  lemma NextIsSeeded(c: Call, leg: Leg)
    requires SeededByResults(c) && LegPauses(c, leg)
    ensures SeededByResults(NextCall(c, leg))
  {
    ReseededIsSeededByResults(c, leg.f, leg.review, leg.patched);
  }

  /** Every call of an execution starts from the results so far and their keys. */
  lemma {:induction false} SeededAt(c: Call, legs: seq<Leg>, i: nat)
    requires SeededByResults(c) && Execution(c, legs) && i < |legs|
    ensures SeededByResults(CallAt(c, legs, i))
  {
    if i > 0 {
      SeededAt(c, legs, i - 1);
      assert LegOk(c, legs, i - 1);
      NextIsSeeded(CallAt(c, legs, i - 1), legs[i - 1]);
    }
  }

  /** No later call has a step that has a result. */
  lemma {:induction false} NoStepWithResult(c: Call, legs: seq<Leg>, i: nat, j: nat)
    requires i < j <= |legs|
    ensures forall k :: k in CallAt(c, legs, j).steps ==> k !in legs[i].f.results
    decreases j
  {
    var before := CallAt(c, legs, j - 1);
    assert forall k :: k in NextCall(before, legs[j - 1]).steps ==> k in before.steps && k !in legs[j - 1].f.results;
    if i < j - 1 {
      NoStepWithResult(c, legs, i, j - 1);
    }
  }

  lemma LaunchedIsAStep(c: Call, leg: Leg, k: Key)
    requires SeededByResults(c) && LegRuns(c, leg) && k in leg.f.launched
    ensures k in c.steps
  {
    InvInit(c);
    InvEnds(c, Init(c), leg.schedule, leg.f);
  }

  lemma StartedHasResult(c: Call, leg: Leg, k: Key)
    requires SeededByResults(c) && LegRuns(c, leg) && k in leg.f.launched && leg.f.failed == {}
    ensures k in leg.f.results
  {
    FirstCall(c, leg.schedule, leg.f);
  }

  lemma RunsAgainAfterFailure(c: Call, legs: seq<Leg>, i: nat, j: nat, k: Key)
    requires SeededByResults(c) && Execution(c, legs) && RunsAgain(legs, i, j, k)
    ensures FailedBefore(legs, i)
  {
    SeededAt(c, legs, i);
    SeededAt(c, legs, j);
    assert LegOk(c, legs, i) && LegOk(c, legs, j);
    LaunchedIsAStep(CallAt(c, legs, j), legs[j], k);
    NoStepWithResult(c, legs, i, j);
    if legs[i].f.failed == {} {
      StartedHasResult(CallAt(c, legs, i), legs[i], k);
    }
  }

  lemma FailedLegRunsAgain(c: Call, leg: Leg, next: Leg) returns (k: Key)
    requires SeededByResults(c) && LegRuns(c, leg) && LegPauses(c, leg) && LegRuns(NextCall(c, leg), next)
    requires leg.f.failed != {}
    ensures k in leg.f.launched && k in next.f.launched
  {
    SomeStepRunsTwiceIffOneFailed(c, leg.review, leg.patched, leg.schedule, leg.f, next.schedule, next.f);
    k :| k in leg.f.launched && k in next.f.launched;
  }

  lemma FailureRunsAgain(c: Call, legs: seq<Leg>, i: nat) returns (k: Key)
    requires SeededByResults(c) && Execution(c, legs) && FailedBefore(legs, i)
    ensures RunsAgain(legs, i, i + 1, k)
  {
    SeededAt(c, legs, i);
    assert LegOk(c, legs, i) && LegOk(c, legs, i + 1);
    assert CallAt(c, legs, i + 1) == NextCall(CallAt(c, legs, i), legs[i]);
    k := FailedLegRunsAgain(CallAt(c, legs, i), legs[i], legs[i + 1]);
  }

  /**
   Over a whole execution, however often it pauses: some step is handed out by two
   of its calls if and only if a call before the last one had a failure.
   */
  lemma ExecutionRunsTwiceIffFailed(c: Call, legs: seq<Leg>)
    requires SeededByResults(c) && Execution(c, legs)
    ensures (exists i, j, k :: RunsAgain(legs, i, j, k)) <==> exists i :: FailedBefore(legs, i)
  {
    if i: nat, j: nat, k :| RunsAgain(legs, i, j, k) {
      RunsAgainAfterFailure(c, legs, i, j, k);
    }
    if i: nat :| FailedBefore(legs, i) {
      var k := FailureRunsAgain(c, legs, i);
    }
  }
}
