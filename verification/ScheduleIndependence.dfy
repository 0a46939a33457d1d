/**
 What a never-paused call returns does not depend on the order in which its
 steps finish, whatever results its conditions read. The reference is declarative:
 a verdict solves the call when it satisfies, key by key, the rules for running,
 failing and skipping. Every finished best_effort or dependent_fail run solves the
 call, and every run, at every moment, lies below every solution; so all finished
 runs agree, and they agree on the least solution.
 */
module ScheduleIndependence {
  import opened Conditions
  import opened Plans
  import opened PlanInvariants

  /** Each step's outcome depends on nothing but the step and its dependencies' results. */
  ghost predicate OutcomesLocal(c: Call) {
    forall k, r1, r2 ::
      k in c.steps && AgreeOn(r1, r2, Deps(c.steps[k])) ==> c.exec(c.steps[k], r1) == c.exec(c.steps[k], r2)
  }

  /** Nothing is asked of conditions: they may read the results of any step. */
  ghost predicate Local(c: Call) {
    ValidCall(c) && OutcomesLocal(c) && SeedsSettled(c)
  }

  /** What a call returns. */
  datatype Verdict = Verdict(
    completed: set<Key>, failed: set<Key>, skipped: set<Key>, results: Env, failures: map<Key, string>)

  function VerdictOf(s: State): Verdict {
    Verdict(s.completed, s.failed, s.skipped, s.results, s.failures)
  }

  function Winners(c: Call, v: Verdict): set<Key> {
    v.completed - c.seedKeys - v.failed - v.skipped
  }

  predicate Doomed(c: Call, step: Step, failed: set<Key>) {
    c.policy.DependentFail? && DependsOnAny(step, failed)
  }

  /** The recorded outcome of a step is what its executor answers on the verdict's own results. */
  predicate RecordedAt(c: Call, v: Verdict, k: Key)
    requires k in c.steps
  {
    match c.exec(c.steps[k], v.results)
    case Output(x) => k !in v.failed && k in v.results && v.results[k] == x
    case o => k in v.failed && k in v.failures && v.failures[k] == ErrorText(c.steps[k], o)
  }

  /** The rule of one step: skipped, run, or left alone. */
  predicate SolvesAt(c: Call, v: Verdict, k: Key)
    requires k in c.steps
  {
    var step := c.steps[k];
    && (k in v.skipped <==> Doomed(c, step, v.failed))
    && (k in v.completed && k !in v.skipped <==>
        k !in v.skipped && DependsOnlyOn(step, v.completed) && Holds(step.condition, c.params, v.results))
    && (k in v.completed && k !in v.skipped ==> RecordedAt(c, v, k))
  }

  ghost predicate WellRecorded(c: Call, v: Verdict) {
    && c.seedKeys <= v.completed <= c.steps.Keys + c.seedKeys
    && v.failed <= v.completed - c.seedKeys
    && v.skipped <= v.completed - c.seedKeys
    && v.failed !! v.skipped
    && v.failures.Keys == v.failed + v.skipped
    && (forall k :: k in v.skipped ==> v.failures[k] == SKIP_TEXT)
    && v.results.Keys == c.seedResults.Keys + Winners(c, v)
    && forall k :: k in c.seedResults && k !in Winners(c, v) ==> v.results[k] == c.seedResults[k]
  }

  ghost predicate Solves(c: Call, v: Verdict) {
    WellRecorded(c, v) && forall k :: k in c.steps ==> SolvesAt(c, v, k)
  }

  // ---------------------------------------------------------------- every run explains itself

  /** What is known about key `k` at state `s`; it speaks of the results of `k`'s dependencies only. */
  predicate ExplainedAt(c: Call, s: State, k: Key)
    requires k in c.steps
  {
    var step := c.steps[k];
    && (k in s.launched ==>
          DependsOnlyOn(step, s.completed) && !Doomed(c, step, s.failed) && Holds(step.condition, c.params, s.results))
    && (k in s.launched && k in s.completed ==> RecordedAt(c, VerdictOf(s), k))
    && (k in s.skipped ==> Doomed(c, step, s.failed) && k in s.failures && s.failures[k] == SKIP_TEXT)
  }

  ghost predicate Explained(c: Call, s: State) {
    forall k :: k in c.steps ==> ExplainedAt(c, s, k)
  }

  lemma OutcomeOnDeps(c: Call, k: Key, r1: Env, r2: Env)
    requires Local(c) && k in c.steps && AgreeOn(r1, r2, Deps(c.steps[k]))
    ensures c.exec(c.steps[k], r1) == c.exec(c.steps[k], r2)
  {
  }

  /** The results of a launched step's dependencies are final: collecting `j` leaves them alone. */
  lemma DependenciesAreFinal(c: Call, s: State, j: Key, k: Key)
    requires Local(c) && Partition(c, s) && j in s.inflight && k in c.steps
    requires DependsOnlyOn(c.steps[k], s.completed)
    ensures AgreeOn(s.results, Finish(c, s, j).results, Deps(c.steps[k]))
    ensures j !in c.steps[k].dependsOn
  {
  }

  lemma FinishExplains(c: Call, s: State, j: Key, k: Key)
    requires Local(c) && Inv(c, s) && Explained(c, s) && !s.abort && j in s.inflight && k in c.steps
    ensures ExplainedAt(c, Finish(c, s, j), k)
  {
    var t := Finish(c, s, j);
    assert ExplainedAt(c, s, k) && ExplainedAt(c, s, j);
    if k in s.launched {
      DependenciesAreFinal(c, s, j, k);
      OutcomeOnDeps(c, k, s.results, t.results);
      StartedStillHolds(c, s, j, k);
      if k != j && k in t.completed {
        assert RecordedAt(c, VerdictOf(s), k);
      }
    }
  }

  lemma SkipExplains(c: Call, s: State)
    requires Local(c) && Inv(c, s) && Explained(c, s) && !s.abort
    ensures Explained(c, SkipDoomed(c, s))
    ensures forall k :: k in SkipDoomed(c, s).pending ==> !Doomed(c, c.steps[k], SkipDoomed(c, s).failed)
  {
    var t := SkipDoomed(c, s);
    forall k | k in c.steps
      ensures ExplainedAt(c, t, k)
    {
      assert ExplainedAt(c, s, k);
      if k in s.launched && k in t.completed {
        assert k !in DoomedKeys(c, s);
        assert RecordedAt(c, VerdictOf(s), k);
      }
    }
  }

  lemma LaunchExplains(c: Call, s: State)
    requires Local(c) && Inv(c, s) && Explained(c, s) && !s.abort
    requires forall k :: k in s.pending ==> !Doomed(c, c.steps[k], s.failed)
    ensures Explained(c, Launch(c, s))
  {
    var t := Launch(c, s);
    forall k | k in c.steps
      ensures ExplainedAt(c, t, k)
    {
      assert ExplainedAt(c, s, k);
      assert k in t.launched ==> k in s.launched || k in ReadyKeys(c, s);
    }
  }

  lemma HeadExplains(c: Call, s: State)
    requires Local(c) && Inv(c, s) && Explained(c, s) && !s.abort
    ensures Explained(c, Head(c, s))
  {
    SkipExplains(c, s);
    InvSkip(c, s);
    LaunchExplains(c, SkipDoomed(c, s));
  }

  lemma {:induction false} CollectExplains(c: Call, s: State, batch: seq<Key>)
    requires Local(c) && Inv(c, s) && Explained(c, s) && Distinct(batch)
    requires forall k :: k in batch ==> k in c.steps
    requires !s.abort ==> forall k :: k in batch ==> k in s.inflight
    ensures Explained(c, Collect(c, s, batch))
    decreases |batch|
  {
    if batch != [] && !s.abort {
      var t := Finish(c, s, batch[0]);
      forall k | k in c.steps
        ensures ExplainedAt(c, t, k)
      {
        FinishExplains(c, s, batch[0], k);
      }
      InvFinish(c, s, batch[0]);
      CollectExplains(c, t, batch[1..]);
    }
  }

  lemma AfterExplains(c: Call, s: State, batch: seq<Key>)
    requires Local(c) && Inv(c, s) && Explained(c, s) && !s.abort && ValidBatch(Head(c, s), batch)
    ensures Inv(c, After(c, s, batch)) && Explained(c, After(c, s, batch))
  {
    InvAfter(c, s, batch);
    InvHead(c, s);
    HeadExplains(c, s);
    CollectExplains(c, Head(c, s), batch);
  }

  /** Nothing that is left could have run or been skipped. */
  ghost predicate Closed(c: Call, s: State)
    requires Known(c, s)
  {
    forall k :: k in s.pending ==> !IsReady(c, s, c.steps[k]) && !Doomed(c, c.steps[k], s.failed)
  }

  lemma ExhaustedIsClosed(c: Call, s: State)
    requires Local(c) && Inv(c, s) && !s.abort && s.paused.None? && Head(c, s).inflight == {}
    ensures Known(c, Head(c, s)) && Closed(c, Head(c, s))
  {
    InvHead(c, s);
    var m := SkipDoomed(c, s);
    assert ReadyKeys(c, m) == {};
    forall k | k in Head(c, s).pending
      ensures !IsReady(c, Head(c, s), c.steps[k]) && !Doomed(c, c.steps[k], s.failed)
    {
      assert k in s.pending && k !in DoomedKeys(c, s);
      assert k !in ReadyKeys(c, m);
    }
  }

  lemma StoppedExplains(c: Call, s: State)
    requires Explained(c, s)
    ensures Explained(c, s.(pending := {}))
  {
    forall k | k in c.steps
      ensures ExplainedAt(c, s.(pending := {}), k)
    {
      assert ExplainedAt(c, s, k);
    }
  }

  lemma {:induction false} EndsExplained(c: Call, s: State, schedule: seq<seq<Key>>, f: State)
    requires Local(c) && Inv(c, s) && Explained(c, s) && Ends(c, s, schedule, f)
    ensures Inv(c, f) && Explained(c, f) && f.inflight == {}
    ensures f.paused.None? && !f.abort ==> Closed(c, f)
    decreases |schedule|
  {
    InvEnds(c, s, schedule, f);
    if LoopOn(s) {
      var h := Head(c, s);
      HeadExplains(c, s);
      if h.inflight == {} {
        if s.paused.None? {
          ExhaustedIsClosed(c, s);
        }
      } else {
        AfterExplains(c, s, schedule[0]);
        var t := After(c, s, schedule[0]);
        if !PauseReached(t) {
          EndsExplained(c, t, schedule[1..], f);
        }
      }
    } else if s.abort {
      StoppedExplains(c, s);
    }
  }

  lemma InitExplained(c: Call)
    requires ValidCall(c)
    ensures Inv(c, Init(c)) && Explained(c, Init(c))
  {
    InvInit(c);
  }

  lemma VerdictIsWellRecorded(c: Call, f: State)
    requires Inv(c, f) && Explained(c, f)
    ensures WellRecorded(c, VerdictOf(f))
  {
    assert Winners(c, VerdictOf(f)) == Succeeded(c, f);
    forall k | k in f.skipped
      ensures f.failures[k] == SKIP_TEXT
    {
      assert ExplainedAt(c, f, k);
    }
  }

  lemma AllCollected(c: Call, f: State)
    requires ValidCall(c) && Inv(c, f) && f.inflight == {} && !f.abort
    ensures forall k :: k in f.launched <==> k in f.completed && k !in f.skipped && k !in c.seedKeys
  {
    assert Launches(c, f);
  }

  /** A finished run that neither paused nor aborted solves the call. */
  lemma FinishedRunSolves(c: Call, schedule: seq<seq<Key>>, f: State)
    requires Local(c) && Ends(c, Init(c), schedule, f) && f.paused.None? && !f.abort
    ensures Inv(c, f) && f.inflight == {}
    ensures Solves(c, VerdictOf(f))
    ensures forall k :: k in f.launched <==> k in f.completed && k !in f.skipped && k !in c.seedKeys
  {
    InitExplained(c);
    EndsExplained(c, Init(c), schedule, f);
    SolvedWhenClosed(c, f);
    AllCollected(c, f);
  }

  lemma SolvedWhenClosed(c: Call, f: State)
    requires Local(c) && Inv(c, f) && Explained(c, f) && f.inflight == {} && !f.abort && Closed(c, f)
    ensures Solves(c, VerdictOf(f))
  {
    VerdictIsWellRecorded(c, f);
    forall k | k in c.steps
      ensures SolvesAt(c, VerdictOf(f), k)
    {
      ClosedSolvesAt(c, f, k);
    }
  }

  lemma ClosedSolvesAt(c: Call, f: State, k: Key)
    requires Local(c) && Inv(c, f) && Explained(c, f) && f.inflight == {} && !f.abort && Closed(c, f) && k in c.steps
    ensures SolvesAt(c, VerdictOf(f), k)
  {
    assert ExplainedAt(c, f, k);
    if k in f.pending {
      assert !IsReady(c, f, c.steps[k]);
    } else {
      assert k in f.launched <==> k !in f.skipped;
    }
  }

  // ---------------------------------------------------------------- every run lies below every solution

  /** Everything the run has done so far, the solution does as well. */
  ghost predicate Below(c: Call, s: State, v: Verdict) {
    && s.completed <= v.completed
    && s.inflight <= v.completed - v.skipped
    && s.failed <= v.failed
    && s.skipped <= v.skipped
    && Succeeded(c, s) <= Winners(c, v)
    && (forall k :: k in Succeeded(c, s) ==> k in s.results && k in v.results && s.results[k] == v.results[k])
    && forall k :: k in s.failures ==> k in v.failures && s.failures[k] == v.failures[k]
  }

  ghost predicate BelowInv(c: Call, s: State, v: Verdict) {
    Local(c) && Inv(c, s) && Explained(c, s) && !s.abort && Solves(c, v) && Below(c, s, v)
  }

  lemma SameDependencies(c: Call, s: State, v: Verdict, k: Key)
    requires BelowInv(c, s, v) && k in c.steps && DependsOnlyOn(c.steps[k], s.completed)
    ensures AgreeOn(s.results, v.results, Deps(c.steps[k]))
    ensures DependsOnlyOn(c.steps[k], v.completed)
    ensures DependsOnAny(c.steps[k], s.failed) <==> DependsOnAny(c.steps[k], v.failed)
  {
    forall d | d in c.steps[k].dependsOn
      ensures (d in s.results <==> d in v.results) && (d in s.results ==> s.results[d] == v.results[d])
      ensures d in s.failed <==> d in v.failed
    {
      assert d in s.completed;
    }
  }

  /** What the condition of a step reads before the step starts, it reads in the solution as well. */
  lemma SolutionHasMore(c: Call, s: State, v: Verdict, k: Key)
    requires BelowInv(c, s, v) && k in c.steps && DependsOnlyOn(c.steps[k], s.completed)
    ensures GrowsOn(s.results, v.results, ConditionReads(c.steps[k].condition))
  {
    var looked, deps := ConditionReads(c.steps[k].condition), Deps(c.steps[k]);
    forall x | x in looked && x in s.results
      ensures x in v.results && s.results[x] == v.results[x]
    {
      if x !in Succeeded(c, s) {
        assert x in c.seedResults;
        assert x in Winners(c, v) ==> x in deps;
      }
    }
  }

  lemma SkipBelow(c: Call, s: State, v: Verdict)
    requires BelowInv(c, s, v)
    ensures BelowInv(c, SkipDoomed(c, s), v)
    ensures forall k :: k in SkipDoomed(c, s).pending ==> !Doomed(c, c.steps[k], SkipDoomed(c, s).failed)
  {
    InvSkip(c, s);
    SkipExplains(c, s);
    SkipKeepsPlaces(c, s);
    forall k | k in DoomedKeys(c, s)
      ensures k in v.skipped
    {
      assert SolvesAt(c, v, k);
    }
  }

  lemma LaunchBelow(c: Call, s: State, v: Verdict)
    requires BelowInv(c, s, v)
    requires forall k :: k in s.pending ==> !Doomed(c, c.steps[k], s.failed)
    ensures BelowInv(c, Launch(c, s), v)
  {
    InvLaunch(c, s);
    LaunchExplains(c, s);
    LaunchKeepsPlaces(c, s);
    forall k | k in ReadyKeys(c, s)
      ensures k in v.completed && k !in v.skipped
    {
      SameDependencies(c, s, v, k);
      SolutionHasMore(c, s, v, k);
      HoldsGrows(c.steps[k].condition, c.params, s.results, v.results);
      assert SolvesAt(c, v, k);
    }
  }

  /** The solution records step `j` just as collecting it does. */
  lemma SolutionRecords(c: Call, s: State, v: Verdict, j: Key)
    requires BelowInv(c, s, v) && j in s.inflight
    ensures c.exec(c.steps[j], s.results) == c.exec(c.steps[j], v.results)
    ensures j in v.completed && j !in v.skipped && j !in c.seedKeys && RecordedAt(c, v, j)
  {
    assert ExplainedAt(c, s, j);
    SameDependencies(c, s, v, j);
    OutcomeOnDeps(c, j, s.results, v.results);
    assert SolvesAt(c, v, j);
  }

  lemma FinishBelow(c: Call, s: State, v: Verdict, j: Key)
    requires BelowInv(c, s, v) && j in s.inflight
    ensures Below(c, Finish(c, s, j), v)
    ensures Inv(c, Finish(c, s, j)) && Explained(c, Finish(c, s, j))
  {
    SolutionRecords(c, s, v, j);
    FinishKeepsPlaces(c, s, j);
    InvFinish(c, s, j);
    forall k | k in c.steps
      ensures ExplainedAt(c, Finish(c, s, j), k)
    {
      FinishExplains(c, s, j, k);
    }
    FinishStaysBelow(c, s, v, j);
  }

  lemma FinishStaysBelow(c: Call, s: State, v: Verdict, j: Key)
    requires j in c.steps && Below(c, s, v) && j in s.inflight
    requires c.exec(c.steps[j], s.results) == c.exec(c.steps[j], v.results)
    requires j in v.completed && j !in v.skipped && j !in c.seedKeys && RecordedAt(c, v, j)
    requires Succeeded(c, Finish(c, s, j)) ==
             if c.exec(c.steps[j], s.results).Output? then Succeeded(c, s) + {j} else Succeeded(c, s)
    requires j !in s.completed
    ensures Below(c, Finish(c, s, j), v)
  {
  }

  lemma {:induction false} CollectBelow(c: Call, s: State, v: Verdict, batch: seq<Key>)
    requires BelowInv(c, s, v) && Distinct(batch)
    requires forall k :: k in batch ==> k in c.steps && k in s.inflight
    ensures Below(c, Collect(c, s, batch), v)
    decreases |batch|
  {
    if batch != [] {
      var t := Finish(c, s, batch[0]);
      FinishBelow(c, s, v, batch[0]);
      if t.abort {
        assert Collect(c, t, batch[1..]) == t;
      } else {
        CollectBelow(c, t, v, batch[1..]);
      }
    }
  }

  lemma AbortedBelow(c: Call, t: State, v: Verdict, rest: seq<seq<Key>>, f: State)
    requires Below(c, t, v) && t.abort && Ends(c, t, rest, f)
    ensures Below(c, f, v)
  {
    assert f == t || f == t.(pending := {});
  }

  lemma {:induction false} EndsBelow(c: Call, s: State, v: Verdict, schedule: seq<seq<Key>>, f: State)
    requires BelowInv(c, s, v) && Ends(c, s, schedule, f)
    ensures Below(c, f, v)
    decreases |schedule|
  {
    if LoopOn(s) {
      SkipBelow(c, s, v);
      LaunchBelow(c, SkipDoomed(c, s), v);
      var h := Head(c, s);
      if h.inflight != {} {
        CollectBelow(c, h, v, schedule[0]);
        AfterExplains(c, s, schedule[0]);
        var t := After(c, s, schedule[0]);
        if !PauseReached(t) {
          if t.abort {
            AbortedBelow(c, t, v, schedule[1..], f);
          } else {
            EndsBelow(c, t, v, schedule[1..], f);
          }
        }
      }
    }
  }

  /**
   Least solution: whatever solves the call contains everything any run of it
   does, under every policy and every schedule, finished by pause or by abort.
   */
  lemma RunsLieBelowSolutions(c: Call, schedule: seq<seq<Key>>, f: State, v: Verdict)
    requires Local(c) && Ends(c, Init(c), schedule, f) && Solves(c, v)
    ensures f.completed <= v.completed && f.failed <= v.failed && f.skipped <= v.skipped
    ensures f.results.Keys <= v.results.Keys
    ensures forall k :: k in Succeeded(c, f) ==> k in f.results && k in v.results && f.results[k] == v.results[k]
    ensures forall k :: k in f.failures ==> k in v.failures && f.failures[k] == v.failures[k]
  {
    InitExplained(c);
    assert Below(c, Init(c), v) by {
      assert Succeeded(c, Init(c)) == {};
    }
    EndsBelow(c, Init(c), v, schedule, f);
    assert Inv(c, f) by {
      InvEnds(c, Init(c), schedule, f);
    }
    BelowResults(c, f, v);
  }

  lemma BelowResults(c: Call, f: State, v: Verdict)
    requires Records(c, f) && Below(c, f, v) && WellRecorded(c, v)
    ensures f.results.Keys <= v.results.Keys
  {
  }

  /**
   Schedule independence, for best_effort (and unrecognised policies) and for
   dependent_fail alike: two finished, never-paused runs of one call return the
   same, whatever order their steps finished in.
   */
  lemma ScheduleIndependence(c: Call, sched1: seq<seq<Key>>, f1: State, sched2: seq<seq<Key>>, f2: State)
    requires Local(c) && !c.policy.FailFast?
    requires Ends(c, Init(c), sched1, f1) && f1.paused.None?
    requires Ends(c, Init(c), sched2, f2) && f2.paused.None?
    ensures f1.completed == f2.completed && f1.failed == f2.failed && f1.skipped == f2.skipped
    ensures f1.results == f2.results && f1.failures == f2.failures
    ensures forall k :: k in f1.launched <==> k in f2.launched
  {
    RunIsLower(c, sched1, f1, sched2, f2);
    RunIsLower(c, sched2, f2, sched1, f1);
    SameRecordsAtEnd(c, sched1, f1, sched2, f2);
    LaunchedAlike(c, sched1, f1, sched2, f2);
  }

  lemma SameRecordsAtEnd(c: Call, sched1: seq<seq<Key>>, f1: State, sched2: seq<seq<Key>>, f2: State)
    requires ValidCall(c) && Ends(c, Init(c), sched1, f1) && Ends(c, Init(c), sched2, f2)
    requires f1.completed == f2.completed && f1.failed == f2.failed && f1.skipped == f2.skipped
    requires forall k :: k in Succeeded(c, f1) ==> k in f1.results && k in f2.results && f1.results[k] == f2.results[k]
    requires forall k :: k in f1.failures ==> k in f2.failures && f1.failures[k] == f2.failures[k]
    ensures f1.results == f2.results && f1.failures == f2.failures
  {
    InvInit(c);
    InvEnds(c, Init(c), sched1, f1);
    InvEnds(c, Init(c), sched2, f2);
    SameRecords(c, f1, f2);
  }

  lemma RunIsLower(c: Call, sched1: seq<seq<Key>>, f1: State, sched2: seq<seq<Key>>, f2: State)
    requires Local(c) && !c.policy.FailFast?
    requires Ends(c, Init(c), sched1, f1)
    requires Ends(c, Init(c), sched2, f2) && f2.paused.None?
    ensures f1.completed <= f2.completed && f1.failed <= f2.failed && f1.skipped <= f2.skipped
    ensures forall k :: k in Succeeded(c, f1) ==> k in f1.results && k in f2.results && f1.results[k] == f2.results[k]
    ensures forall k :: k in f1.failures ==> k in f2.failures && f1.failures[k] == f2.failures[k]
  {
    assert Solves(c, VerdictOf(f2)) by {
      NoAbort(c, sched2, f2);
      FinishedRunSolves(c, sched2, f2);
    }
    RunsLieBelowSolutions(c, sched1, f1, VerdictOf(f2));
  }

  lemma LaunchedAlike(c: Call, sched1: seq<seq<Key>>, f1: State, sched2: seq<seq<Key>>, f2: State)
    requires Local(c) && !c.policy.FailFast?
    requires Ends(c, Init(c), sched1, f1) && f1.paused.None?
    requires Ends(c, Init(c), sched2, f2) && f2.paused.None?
    requires f1.completed == f2.completed && f1.skipped == f2.skipped
    ensures forall k :: k in f1.launched <==> k in f2.launched
  {
    forall k
      ensures k in f1.launched <==> k in f2.launched
    {
      LaunchedIff(c, sched1, f1, k);
      LaunchedIff(c, sched2, f2, k);
    }
  }

  lemma LaunchedIff(c: Call, schedule: seq<seq<Key>>, f: State, k: Key)
    requires Local(c) && !c.policy.FailFast? && Ends(c, Init(c), schedule, f) && f.paused.None?
    ensures k in f.launched <==> k in f.completed && k !in f.skipped && k !in c.seedKeys
  {
    NoAbort(c, schedule, f);
    FinishedRunSolves(c, schedule, f);
  }

  lemma NoAbort(c: Call, schedule: seq<seq<Key>>, f: State)
    requires ValidCall(c) && !c.policy.FailFast? && Ends(c, Init(c), schedule, f)
    ensures !f.abort
  {
    InvInit(c);
    InvEnds(c, Init(c), schedule, f);
  }

  lemma SameRecords(c: Call, f1: State, f2: State)
    requires ValidCall(c) && Inv(c, f1) && Inv(c, f2)
    requires f1.completed == f2.completed && f1.failed == f2.failed && f1.skipped == f2.skipped
    requires forall k :: k in Succeeded(c, f1) ==> k in f1.results && k in f2.results && f1.results[k] == f2.results[k]
    requires forall k :: k in f1.failures ==> k in f2.failures && f1.failures[k] == f2.failures[k]
    ensures f1.results == f2.results && f1.failures == f2.failures
  {
    assert Succeeded(c, f1) == Succeeded(c, f2);
    assert f1.results.Keys == f2.results.Keys;
    assert f1.failures.Keys == f2.failures.Keys;
  }

  /**
   The dependent_fail verdict, step by step: skipped exactly when a direct
   dependency failed, and then never started; otherwise run exactly when every
   dependency is finished and the condition holds, be the dependencies skipped or not.
   */
  lemma DependentFailVerdict(c: Call, schedule: seq<seq<Key>>, f: State, k: Key)
    requires Local(c) && c.policy.DependentFail?
    requires Ends(c, Init(c), schedule, f) && f.paused.None? && k in c.steps
    ensures k in f.skipped <==> DependsOnAny(c.steps[k], f.failed)
    ensures k in f.skipped ==> k !in f.launched && k in f.failures && f.failures[k] == SKIP_TEXT
    ensures k in f.launched <==>
            k !in f.skipped && DependsOnlyOn(c.steps[k], f.completed) &&
            Holds(c.steps[k].condition, c.params, f.results)
    ensures DependsOnlyOn(c.steps[k], f.skipped) && Holds(c.steps[k].condition, c.params, f.results) ==> k in f.launched
  {
    NoAbort(c, schedule, f);
    FinishedRunSolves(c, schedule, f);
    assert SolvesAt(c, VerdictOf(f), k);
    if DependsOnlyOn(c.steps[k], f.skipped) {
      assert !DependsOnAny(c.steps[k], f.failed);
      assert DependsOnlyOn(c.steps[k], f.completed);
    }
  }

  /** Solutions of a call without skipping do not depend on which lenient policy it names. */
  lemma PolicyDoesNotMatter(c: Call, d: Call, v: Verdict)
    requires d == c.(policy := d.policy) && !c.policy.DependentFail? && !d.policy.DependentFail?
    requires Solves(c, v)
    ensures Solves(d, v)
  {
    forall k | k in d.steps
      ensures SolvesAt(d, v, k)
    {
      assert SolvesAt(c, v, k);
    }
  }

  /**
   fail_fast against best_effort. What a fail_fast run records, best_effort
   records as well; and the fail_fast run fails, with exactly one failure, if
   and only if best_effort has a failure. Without one the two return the same.
   */
  lemma FailFastAgainstBestEffort(
      c: Call, sched1: seq<seq<Key>>, f: State, b: Call, sched2: seq<seq<Key>>, g: State)
    requires Local(c) && c.policy.FailFast? && b == c.(policy := BestEffort)
    requires Ends(c, Init(c), sched1, f) && f.paused.None?
    requires Ends(b, Init(b), sched2, g) && g.paused.None?
    ensures f.completed <= g.completed
    ensures forall k :: k in Succeeded(c, f) ==> k in f.results && k in g.results && f.results[k] == g.results[k]
    ensures forall k :: k in f.failures ==> k in g.failures && f.failures[k] == g.failures[k]
    ensures f.abort <==> g.failed != {}
    ensures f.abort ==> exists k :: k in g.failed && f.failed == {k}
    ensures !f.abort ==> f.completed == g.completed && f.failed == {}
  {
    FailFastIsLower(c, sched1, f, b, sched2, g);
    if f.abort {
      AbortHasOneFailure(c, sched1, f);
    } else {
      UnabortedIsBestEffort(c, sched1, f, b, sched2, g);
    }
  }

  lemma FailFastIsLower(
      c: Call, sched1: seq<seq<Key>>, f: State, b: Call, sched2: seq<seq<Key>>, g: State)
    requires Local(c) && c.policy.FailFast? && b == c.(policy := BestEffort)
    requires Ends(c, Init(c), sched1, f)
    requires Ends(b, Init(b), sched2, g) && g.paused.None?
    ensures f.completed <= g.completed && f.failed <= g.failed
    ensures forall k :: k in Succeeded(c, f) ==> k in f.results && k in g.results && f.results[k] == g.results[k]
    ensures forall k :: k in f.failures ==> k in g.failures && f.failures[k] == g.failures[k]
  {
    assert Solves(c, VerdictOf(g)) by {
      NoAbort(b, sched2, g);
      FinishedRunSolves(b, sched2, g);
      PolicyDoesNotMatter(b, c, VerdictOf(g));
    }
    RunsLieBelowSolutions(c, sched1, f, VerdictOf(g));
  }

  lemma AbortHasOneFailure(c: Call, schedule: seq<seq<Key>>, f: State)
    requires ValidCall(c) && Ends(c, Init(c), schedule, f)
    ensures f.abort ==> exists k :: k in f.failed && f.failed == {k}
    ensures c.policy.FailFast? && !f.abort ==> f.failed == {}
  {
    InvInit(c);
    InvEnds(c, Init(c), schedule, f);
    if f.abort {
      var k :| f.failed == {k};
      assert k in f.failed;
    }
  }

  lemma UnabortedIsBestEffort(
      c: Call, sched1: seq<seq<Key>>, f: State, b: Call, sched2: seq<seq<Key>>, g: State)
    requires Local(c) && c.policy.FailFast? && b == c.(policy := BestEffort)
    requires Ends(c, Init(c), sched1, f) && f.paused.None? && !f.abort
    requires Ends(b, Init(b), sched2, g) && g.paused.None?
    ensures f.failed == {} && g.failed == {} && g.completed <= f.completed
  {
    AbortHasOneFailure(c, sched1, f);
    assert Solves(b, VerdictOf(f)) by {
      FinishedRunSolves(c, sched1, f);
      PolicyDoesNotMatter(c, b, VerdictOf(f));
    }
    RunsLieBelowSolutions(b, sched2, g, VerdictOf(f));
  }
}
