/**
 What every loop head of a call keeps: the partition of the step keys, the
 agreement of results and error map with it, at most one launch per step, and
 what each error policy adds. Also: every call ends, within a bounded number of
 rounds, whatever its dependency graph.
 */
module PlanInvariants {
  import opened Conditions
  import opened Plans
  import opened Sets

  /** Where the keys are. */
  ghost predicate Partition(c: Call, s: State) {
    && s.pending <= c.steps.Keys
    && s.inflight <= c.steps.Keys
    && c.seedKeys <= s.completed <= c.steps.Keys + c.seedKeys
    && s.pending !! s.inflight && s.pending !! s.completed && s.inflight !! s.completed
    && s.failed <= s.completed - c.seedKeys
    && s.skipped <= s.completed - c.seedKeys
    && s.failed !! s.skipped
    && (s.abort ==> s.inflight == {})
    && (!s.abort ==> c.steps.Keys <= s.pending + s.inflight + s.completed)
  }

  /** What is recorded about them. */
  ghost predicate Records(c: Call, s: State) {
    && s.failures.Keys == s.failed + s.skipped
    && s.results.Keys == c.seedResults.Keys + Succeeded(c, s)
    && forall k :: k in c.seedResults && k !in Succeeded(c, s) ==> s.results[k] == c.seedResults[k]
  }

  /** What was handed to the pool. */
  ghost predicate Launches(c: Call, s: State) {
    && (forall k :: s.launched[k] <= 1)
    && (forall k :: k in s.launched ==> k in c.steps && k !in s.pending && k !in s.skipped)
    && (forall k :: k in s.inflight || k in Succeeded(c, s) || k in s.failed ==> k in s.launched)
    && (!s.abort ==> forall k :: k in s.launched ==> k in s.inflight || k in Succeeded(c, s) || k in s.failed)
  }

  /** What the policy and the pause add. */
  ghost predicate PolicyFacts(c: Call, s: State) {
    && (s.skipped != {} ==> c.policy.DependentFail?)
    && (s.abort ==> c.policy.FailFast? && exists k :: s.failed == {k})
    && (c.policy.FailFast? && !s.abort ==> s.failed == {})
    && (s.paused.Some? ==> s.paused.value in Succeeded(c, s))
  }

  ghost predicate Inv(c: Call, s: State) {
    Partition(c, s) && Records(c, s) && Launches(c, s) && PolicyFacts(c, s)
  }

  lemma InvInit(c: Call)
    requires ValidCall(c)
    ensures Inv(c, Init(c))
  {
  }

  lemma SkipKeepsPlaces(c: Call, s: State)
    requires Partition(c, s) && !s.abort
    ensures Partition(c, SkipDoomed(c, s)) && !SkipDoomed(c, s).abort
    ensures Succeeded(c, SkipDoomed(c, s)) == Succeeded(c, s)
  {
    var doomed := DoomedKeys(c, s);
    assert doomed <= s.pending;
  }

  lemma InvSkip(c: Call, s: State)
    requires Inv(c, s) && !s.abort
    ensures Inv(c, SkipDoomed(c, s)) && !SkipDoomed(c, s).abort
  {
    SkipKeepsPlaces(c, s);
    assert DoomedKeys(c, s) <= s.pending;
  }

  lemma LaunchKeepsPlaces(c: Call, s: State)
    requires Partition(c, s) && !s.abort
    ensures Partition(c, Launch(c, s))
    ensures Succeeded(c, Launch(c, s)) == Succeeded(c, s)
  {
    var ready := ReadyKeys(c, s);
    assert ready <= s.pending;
  }

  lemma LaunchCounts(c: Call, s: State)
    requires Partition(c, s) && Launches(c, s) && !s.abort
    ensures Launches(c, Launch(c, s))
  {
    LaunchKeepsPlaces(c, s);
    var ready := ReadyKeys(c, s);
    var t := Launch(c, s);
    assert ready <= s.pending;
    forall k
      ensures t.launched[k] == s.launched[k] + (if k in ready then 1 else 0)
    {
    }
    assert forall k :: k in ready ==> s.launched[k] == 0;
  }

  lemma InvLaunch(c: Call, s: State)
    requires Inv(c, s) && !s.abort
    ensures Inv(c, Launch(c, s)) && !Launch(c, s).abort
  {
    LaunchKeepsPlaces(c, s);
    LaunchCounts(c, s);
  }

  lemma FinishKeepsPlaces(c: Call, s: State, k: Key)
    requires ValidCall(c) && Partition(c, s) && !s.abort && k in s.inflight
    ensures Partition(c, Finish(c, s, k))
    ensures Succeeded(c, Finish(c, s, k)) ==
            if c.exec(c.steps[k], s.results).Output? then Succeeded(c, s) + {k} else Succeeded(c, s)
  {
  }

  lemma FinishKeepsRecords(c: Call, s: State, k: Key)
    requires ValidCall(c) && Partition(c, s) && Records(c, s) && !s.abort && k in s.inflight
    ensures Records(c, Finish(c, s, k))
  {
    FinishKeepsPlaces(c, s, k);
  }

  lemma FinishKeepsLaunches(c: Call, s: State, k: Key)
    requires ValidCall(c) && Partition(c, s) && Launches(c, s) && !s.abort && k in s.inflight
    ensures Launches(c, Finish(c, s, k))
  {
    FinishKeepsPlaces(c, s, k);
  }

  lemma InvFinish(c: Call, s: State, k: Key)
    requires ValidCall(c) && Inv(c, s) && !s.abort && k in s.inflight
    ensures Inv(c, Finish(c, s, k))
  {
    FinishKeepsPlaces(c, s, k);
    FinishKeepsRecords(c, s, k);
    FinishKeepsLaunches(c, s, k);
    assert c.policy.FailFast? && Finish(c, s, k).abort ==> Finish(c, s, k).failed == {k};
  }

  /** What a started step's condition read stays there when step `j` is collected. */
  lemma ReadsStay(c: Call, s: State, j: Key, k: Key)
    requires ValidCall(c) && SeedsSettled(c) && Partition(c, s) && Records(c, s) && j in s.inflight && k in c.steps
    requires DependsOnlyOn(c.steps[k], s.completed)
    ensures GrowsOn(s.results, Finish(c, s, j).results, ConditionReads(c.steps[k].condition))
  {
    assert j !in Deps(c.steps[k]);
    assert j in ConditionReads(c.steps[k].condition) ==> j !in c.seedResults;
  }

  /** So its condition still holds. */
  lemma StartedStillHolds(c: Call, s: State, j: Key, k: Key)
    requires ValidCall(c) && SeedsSettled(c) && Partition(c, s) && Records(c, s) && j in s.inflight && k in c.steps
    requires DependsOnlyOn(c.steps[k], s.completed) && Holds(c.steps[k].condition, c.params, s.results)
    ensures Holds(c.steps[k].condition, c.params, Finish(c, s, j).results)
  {
    ReadsStay(c, s, j, k);
    HoldsGrows(c.steps[k].condition, c.params, s.results, Finish(c, s, j).results);
  }

  lemma {:induction false} InvCollect(c: Call, s: State, batch: seq<Key>)
    requires ValidCall(c) && Inv(c, s) && Distinct(batch)
    requires !s.abort ==> forall k :: k in batch ==> k in s.inflight
    requires forall k :: k in batch ==> k in c.steps
    ensures Inv(c, Collect(c, s, batch))
    decreases |batch|
  {
    if batch != [] && !s.abort {
      InvFinish(c, s, batch[0]);
      InvCollect(c, Finish(c, s, batch[0]), batch[1..]);
    }
  }

  lemma InvHead(c: Call, s: State)
    requires ValidCall(c) && Inv(c, s) && !s.abort
    ensures Inv(c, Head(c, s)) && !Head(c, s).abort
  {
    InvSkip(c, s);
    InvLaunch(c, SkipDoomed(c, s));
  }

  lemma InvAfter(c: Call, s: State, batch: seq<Key>)
    requires ValidCall(c) && Inv(c, s) && !s.abort && ValidBatch(Head(c, s), batch)
    ensures Inv(c, After(c, s, batch))
  {
    InvHead(c, s);
    InvCollect(c, Head(c, s), batch);
  }

  lemma {:induction false} InvReaches(c: Call, s: State, schedule: seq<seq<Key>>, t: State)
    requires ValidCall(c) && Inv(c, s) && Reaches(c, s, schedule, t)
    ensures Inv(c, t)
    decreases |schedule|
  {
    if schedule != [] {
      InvAfter(c, s, schedule[0]);
      InvReaches(c, After(c, s, schedule[0]), schedule[1..], t);
    }
  }

  /** Every way out of the loop. */
  lemma {:induction false} InvEnds(c: Call, s: State, schedule: seq<seq<Key>>, f: State)
    requires ValidCall(c) && Inv(c, s) && Ends(c, s, schedule, f)
    ensures Inv(c, f) && f.inflight == {}
    decreases |schedule|
  {
    if LoopOn(s) {
      InvHead(c, s);
      if Head(c, s).inflight != {} {
        InvAfter(c, s, schedule[0]);
        if !PauseReached(After(c, s, schedule[0])) {
          InvEnds(c, After(c, s, schedule[0]), schedule[1..], f);
        }
      }
    }
  }

  /**
   The state partition, at every loop head of every call: as long as nothing
   aborted, the step keys are the disjoint union of pending, in flight, succeeded,
   failed and skipped.
   */
  lemma StatePartition(c: Call, schedule: seq<seq<Key>>, t: State)
    requires ValidCall(c) && Reaches(c, Init(c), schedule, t)
    ensures !t.abort ==> c.steps.Keys == t.pending + t.inflight + Succeeded(c, t) + t.failed + t.skipped
    ensures t.pending !! t.inflight !! Succeeded(c, t) !! t.failed !! t.skipped !! c.seedKeys
    ensures t.completed == c.seedKeys + Succeeded(c, t) + t.failed + t.skipped
    ensures t.failures.Keys == t.failed + t.skipped
    ensures t.results.Keys == c.seedResults.Keys + Succeeded(c, t)
    ensures forall k :: t.launched[k] <= 1 && (k in t.launched ==> k !in t.pending && k !in t.skipped)
    ensures t.pending <= c.steps.Keys
  {
    InvInit(c);
    InvReaches(c, Init(c), schedule, t);
    PartitionSpelledOut(c, t);
  }

  lemma PartitionSpelledOut(c: Call, t: State)
    requires ValidCall(c) && Partition(c, t)
    ensures !t.abort ==> c.steps.Keys == t.pending + t.inflight + Succeeded(c, t) + t.failed + t.skipped
    ensures t.pending !! t.inflight !! Succeeded(c, t) !! t.failed !! t.skipped !! c.seedKeys
    ensures t.completed == c.seedKeys + Succeeded(c, t) + t.failed + t.skipped
  {
  }

  /** What is still to be done: every round but the last makes it smaller. */
  function Work(s: State): nat {
    |s.pending| + |s.inflight|
  }

  lemma LaunchWork(c: Call, s: State)
    requires Partition(c, s)
    ensures Launch(c, s).pending <= s.pending
    ensures Work(Launch(c, s)) == Work(s)
  {
    MoveSize(s.pending, s.inflight, ReadyKeys(c, s));
  }

  lemma HeadWork(c: Call, s: State)
    requires Partition(c, s) && !s.abort
    ensures Head(c, s).pending <= s.pending
    ensures Work(Head(c, s)) <= Work(s)
  {
    SkipKeepsPlaces(c, s);
    LaunchWork(c, SkipDoomed(c, s));
    SubsetSize(SkipDoomed(c, s).pending, s.pending);
  }

  lemma {:induction false} CollectWork(c: Call, s: State, batch: seq<Key>)
    requires forall k :: k in batch ==> k in c.steps
    ensures Collect(c, s, batch).pending == s.pending
    ensures Collect(c, s, batch).inflight <= s.inflight
    ensures batch != [] && !s.abort ==> batch[0] !in Collect(c, s, batch).inflight
    decreases |batch|
  {
    if batch != [] && !s.abort {
      CollectWork(c, Finish(c, s, batch[0]), batch[1..]);
    }
  }

  lemma RoundShrinks(c: Call, s: State, batch: seq<Key>)
    requires Partition(c, s) && !s.abort && ValidBatch(Head(c, s), batch)
    ensures After(c, s, batch).pending <= s.pending
    ensures Work(After(c, s, batch)) < Work(s)
  {
    var h := Head(c, s);
    HeadWork(c, s);
    CollectWork(c, h, batch);
    SubsetSize(After(c, s, batch).inflight, h.inflight);
  }

  /**
   Termination, under every policy and on every dependency graph: each round
   that does not leave the loop removes at least one step from pending plus in
   flight, so a call goes round at most once per step before its last iteration.
   */
  lemma {:induction false} RoundsAreBounded(c: Call, s: State, schedule: seq<seq<Key>>, t: State)
    requires ValidCall(c) && Inv(c, s) && Reaches(c, s, schedule, t)
    ensures |schedule| + Work(t) <= Work(s)
    ensures t.pending <= s.pending
    decreases |schedule|
  {
    if schedule != [] {
      RoundShrinks(c, s, schedule[0]);
      InvAfter(c, s, schedule[0]);
      RoundsAreBounded(c, After(c, s, schedule[0]), schedule[1..], t);
    }
  }

  /** The number of batches a whole call collects never exceeds the number of its steps. */
  lemma {:induction false} EndsWithin(c: Call, s: State, schedule: seq<seq<Key>>, f: State)
    requires ValidCall(c) && Inv(c, s) && Ends(c, s, schedule, f)
    ensures |schedule| <= Work(s)
    decreases |schedule|
  {
    if LoopOn(s) && Head(c, s).inflight != {} {
      RoundShrinks(c, s, schedule[0]);
      if !PauseReached(After(c, s, schedule[0])) {
        InvAfter(c, s, schedule[0]);
        EndsWithin(c, After(c, s, schedule[0]), schedule[1..], f);
      }
    }
  }

  /** From every loop head some run to the end exists: the loop is never stuck. */
  lemma {:induction false} CanEnd(c: Call, s: State) returns (schedule: seq<seq<Key>>, f: State)
    requires ValidCall(c) && Inv(c, s)
    ensures Ends(c, s, schedule, f)
    decreases Work(s)
  {
    schedule := [];
    if s.pending == {} && s.inflight == {} {
      f := s;
    } else if s.abort {
      f := s.(pending := {});
    } else if Head(c, s).inflight == {} {
      f := Head(c, s);
    } else {
      var k :| k in Head(c, s).inflight;
      schedule, f := CanEndFrom(c, s, [k]);
    }
  }

  lemma CanEndFrom(c: Call, s: State, batch: seq<Key>) returns (schedule: seq<seq<Key>>, f: State)
    requires ValidCall(c) && Inv(c, s) && LoopOn(s) && ValidBatch(Head(c, s), batch)
    ensures Ends(c, s, schedule, f)
    decreases Work(s), 0
  {
    InvAfter(c, s, batch);
    RoundShrinks(c, s, batch);
    if PauseReached(After(c, s, batch)) {
      EndsPaused(c, s, batch);
      schedule, f := [batch], After(c, s, batch);
    } else {
      var rest, g := CanEnd(c, After(c, s, batch));
      EndsCons(c, s, batch, rest, g);
      schedule, f := [batch] + rest, g;
    }
  }
}
