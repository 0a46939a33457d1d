/**
 What started steps have behind them. The condition of a step that was handed out
 stays true for the rest of the call, and does not rest on a review that is still
 pending. Executors may do what they like, and conditions may read any result.
 */
module Started {
  import opened Conditions
  import opened Plans
  import opened PlanInvariants
  import opened HumanGate

  /** The results of the call but for the reviews that wait for a decision. */
  function Decided(c: Call, s: State): Env {
    s.results - (set r | r in s.results && AwaitsReview(c, s, r))
  }

  /** The condition of every started step holds, and would if no pending review had answered. */
  ghost predicate StillHold(c: Call, s: State) {
    forall k :: k in c.steps && k in s.launched ==> Holds(c.steps[k].condition, c.params, Decided(c, s))
  }

  ghost predicate RunFacts(c: Call, s: State) {
    ValidCall(c) && SeedsSettled(c) && Inv(c, s) && GateInv(c, s) && StillHold(c, s)
  }

  lemma DecidedIsLess(c: Call, s: State, k: Key)
    requires k in c.steps && Holds(c.steps[k].condition, c.params, Decided(c, s))
    ensures Holds(c.steps[k].condition, c.params, s.results)
  {
    HoldsGrows(c.steps[k].condition, c.params, Decided(c, s), s.results);
  }

  lemma SameReviews(c: Call, s: State, t: State)
    requires s.results == t.results && Succeeded(c, s) == Succeeded(c, t)
    ensures Decided(c, s) == Decided(c, t)
  {
    assert forall r :: AwaitsReview(c, t, r) <==> AwaitsReview(c, s, r);
  }

  lemma HeadDecides(c: Call, s: State)
    requires Inv(c, s) && !s.abort
    ensures Decided(c, Head(c, s)) == Decided(c, s)
  {
    SkipKeepsPlaces(c, s);
    LaunchKeepsPlaces(c, SkipDoomed(c, s));
    SameReviews(c, s, Head(c, s));
  }

  lemma UnpausedDecides(c: Call, s: State)
    requires GateInv(c, s) && s.paused.None?
    ensures Decided(c, s) == s.results
  {
  }

  lemma HeadStillHolds(c: Call, s: State)
    requires RunFacts(c, s) && !s.abort
    ensures StillHold(c, Head(c, s))
  {
    var m := SkipDoomed(c, s);
    HeadDecides(c, s);
    if s.paused.None? {
      UnpausedDecides(c, s);
    }
    forall k | k in c.steps && k in Head(c, s).launched
      ensures Holds(c.steps[k].condition, c.params, Decided(c, s))
    {
      assert k in s.launched || k in ReadyKeys(c, m);
    }
  }

  lemma DecidedGrows(c: Call, s: State, j: Key, k: Key)
    requires RunFacts(c, s) && !s.abort && j in s.inflight && k in c.steps && k in s.launched
    ensures GrowsOn(Decided(c, s), Decided(c, Finish(c, s, j)), ConditionReads(c.steps[k].condition))
  {
    var t := Finish(c, s, j);
    FinishKeepsPlaces(c, s, j);
    ReadsStay(c, s, j, k);
    assert forall r :: r != j && AwaitsReview(c, t, r) ==> AwaitsReview(c, s, r);
    assert j !in Deps(c.steps[k]);
    assert j in ConditionReads(c.steps[k].condition) ==> j !in s.results;
  }

  lemma FinishStillHolds(c: Call, s: State, j: Key)
    requires RunFacts(c, s) && !s.abort && j in s.inflight
    ensures RunFacts(c, Finish(c, s, j))
  {
    InvFinish(c, s, j);
    FinishGates(c, s, j);
    forall k | k in c.steps && k in s.launched
      ensures Holds(c.steps[k].condition, c.params, Decided(c, Finish(c, s, j)))
    {
      DecidedGrows(c, s, j, k);
      HoldsGrows(c.steps[k].condition, c.params, Decided(c, s), Decided(c, Finish(c, s, j)));
    }
  }

  lemma {:induction false} CollectStillHolds(c: Call, s: State, batch: seq<Key>)
    requires RunFacts(c, s) && Distinct(batch) && forall k :: k in batch ==> k in c.steps
    requires !s.abort ==> forall k :: k in batch ==> k in s.inflight
    ensures RunFacts(c, Collect(c, s, batch))
    decreases |batch|
  {
    if batch != [] && !s.abort {
      FinishStillHolds(c, s, batch[0]);
      CollectStillHolds(c, Finish(c, s, batch[0]), batch[1..]);
    }
  }

  lemma {:induction false} EndsStillHolds(c: Call, s: State, schedule: seq<seq<Key>>, f: State)
    requires RunFacts(c, s) && Ends(c, s, schedule, f)
    ensures RunFacts(c, f) && f.inflight == {}
    decreases |schedule|
  {
    InvEnds(c, s, schedule, f);
    EndsGated(c, s, schedule, f);
    if LoopOn(s) {
      InvHead(c, s);
      HeadGates(c, s);
      HeadStillHolds(c, s);
      if Head(c, s).inflight != {} {
        CollectStillHolds(c, Head(c, s), schedule[0]);
        if !PauseReached(After(c, s, schedule[0])) {
          EndsStillHolds(c, After(c, s, schedule[0]), schedule[1..], f);
        }
      }
    } else if s.abort {
      SameReviews(c, s, f);
    }
  }

  /** At the end of every run the started steps' dependencies are finished and their conditions hold. */
  lemma StartedSteps(c: Call, schedule: seq<seq<Key>>, f: State)
    requires ValidCall(c) && SeedsSettled(c) && Ends(c, Init(c), schedule, f)
    ensures RunFacts(c, f) && f.inflight == {}
    ensures forall k :: k in f.launched && k in c.steps ==>
              DependsOnlyOn(c.steps[k], f.completed) && Holds(c.steps[k].condition, c.params, f.results)
  {
    InvInit(c);
    assert Succeeded(c, Init(c)) == {};
    EndsStillHolds(c, Init(c), schedule, f);
    forall k | k in f.launched && k in c.steps
      ensures Holds(c.steps[k].condition, c.params, f.results)
    {
      DecidedIsLess(c, f, k);
    }
  }
}
