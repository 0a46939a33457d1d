/**
 Two reviews pending at once. A call that pauses may leave several reviews pending,
 and it is resumed as soon as one of them is approved. The resuming call takes
 every review with a result for finished, so it hands out what waits for a review
 that nobody has decided. The exact condition is given for both ways of seeding.
 */
module SecondReview {
  import opened Wrappers
  import opened Json
  import opened Conditions
  import opened Plans
  import opened PlanInvariants
  import opened Progress
  import opened HumanGate
  import opened Startable
  import opened Resume
  import opened ResumeDependentFail
  import opened ResumeFromResults

  /** `e` resumes after final state `f` with review `r` approved, from completed keys or from result keys. */
  ghost predicate Resumes(c: Call, f: State, r: Key, patched: Value, e: Call) {
    e == Resumed(c, f, r, patched) || e == Reseeded(c, f, r, patched)
  }

  /** A call that left reviews `r` and `q` pending, and the call that resumes it with `r` approved. */
  ghost predicate TwoPending(
      c: Call, schedule: seq<seq<Key>>, f: State, r: Key, q: Key, patched: Value, e: Call)
  {
    && ValidCall(c) && Ends(c, Init(c), schedule, f) && q != r
    && AwaitsReview(c, f, r) && AwaitsReview(c, f, q) && Resumes(c, f, r, patched, e)
  }

  /** The other review is finished for the resuming call, with the answer that asks for a decision. */
  lemma UndecidedIsSeeded(c: Call, schedule: seq<seq<Key>>, f: State, r: Key, q: Key, patched: Value, e: Call)
    requires TwoPending(c, schedule, f, r, q, patched, e)
    ensures ValidCall(e) && q in e.seedKeys && q in e.seedResults && Pauses(c.steps[q], e.seedResults[q])
    ensures forall k :: k in e.steps ==> k in c.steps && e.steps[k] == c.steps[k]
  {
  }

  /** Nobody decides it during the resuming call either. */
  lemma UndecidedStays(e: Call, schedule: seq<seq<Key>>, f2: State, q: Key)
    requires ValidCall(e) && q in e.seedKeys && q in e.seedResults && Ends(e, Init(e), schedule, f2)
    ensures q in f2.results && f2.results[q] == e.seedResults[q]
  {
    InvInit(e);
    InvEnds(e, Init(e), schedule, f2);
  }

  /**
   Under every policy each resuming run hands out every step that waits for the
   undecided review and is ready otherwise, while the review still asks for a
   decision.
   */
  lemma UndecidedReviewIsPassed(
      c: Call, sched1: seq<seq<Key>>, f1: State, r: Key, q: Key, patched: Value, e: Call,
      sched2: seq<seq<Key>>, f2: State, k: Key)
    requires TwoPending(c, sched1, f1, r, q, patched, e) && Ends(e, Init(e), sched2, f2)
    requires k in e.steps && q in e.steps[k].dependsOn && IsReady(e, Init(e), e.steps[k])
    ensures k in f2.launched && k !in f1.launched
    ensures q in f2.results && Pauses(c.steps[q], f2.results[q])
  {
    UndecidedIsSeeded(c, sched1, f1, r, q, patched, e);
    UndecidedStays(e, sched2, f2, q);
    StartsReady(e, sched2, f2, k);
    DirectDependentsWait(c, sched1, f1, q, k);
  }

  /** `k`, which waits for `q`, starts in this run of `e`, with these executors. */
  ghost predicate PassesReview(e: Call, exec: Executor, sched2: seq<seq<Key>>, f2: State, q: Key, k: Key) {
    k in e.steps && q in e.steps[k].dependsOn && Starts(e, exec, sched2, f2, k)
  }

  /** A step that waits for `q` is left for the resuming call, and the plan lets it start. */
  ghost predicate LeftBehind(e: Call, q: Key, k: Key) {
    k in e.steps && q in e.steps[k].dependsOn && MayRun(e, k)
  }

  lemma OutsideIsUnconditional(c: Call, f: State, r: Key, patched: Value, e: Call)
    requires Unconditional(c) && Resumes(c, f, r, patched, e)
    ensures Unconditional(e)
  {
  }

  /**
   When a review that nobody decided is passed, exactly: for a call without
   conditions, under every policy and on every dependency graph, some resuming run
   starts a direct dependent of it, for some executors, if and only if such a
   dependent is left that can start.
   */
  lemma UndecidedReviewIsPassedIff(
      c: Call, sched1: seq<seq<Key>>, f1: State, r: Key, q: Key, patched: Value, e: Call)
    requires TwoPending(c, sched1, f1, r, q, patched, e) && Unconditional(c)
    ensures (exists exec: Executor, sched2, f2, k :: PassesReview(e, exec, sched2, f2, q, k))
            <==> exists k :: LeftBehind(e, q, k)
  {
    UndecidedIsSeeded(c, sched1, f1, r, q, patched, e);
    OutsideIsUnconditional(c, f1, r, patched, e);
    if exec: Executor, sched2, f2, k :| PassesReview(e, exec, sched2, f2, q, k) {
      StartsIffMayRun(e, k);
      assert LeftBehind(e, q, k);
    }
    if k :| LeftBehind(e, q, k) {
      StartsIffMayRun(e, k);
      var exec: Executor, sched2, f2 :| Starts(e, exec, sched2, f2, k);
      assert PassesReview(e, exec, sched2, f2, q, k);
    }
  }

  /** In an acyclic plan any dependent will do that the first call has not skipped. */
  lemma AcyclicUndecidedReviewIsPassedIff(
      c: Call, rank: map<Key, nat>, sched1: seq<seq<Key>>, f1: State, r: Key, q: Key, patched: Value)
    requires TwoPending(c, sched1, f1, r, q, patched, Resumed(c, f1, r, patched))
    requires Unconditional(c) && AcyclicBy(c, rank)
    ensures var e := Resumed(c, f1, r, patched);
            (exists exec: Executor, sched2, f2, k :: PassesReview(e, exec, sched2, f2, q, k))
            <==> exists k :: k in c.steps && q in c.steps[k].dependsOn && k !in f1.skipped
  {
    var e := Resumed(c, f1, r, patched);
    UndecidedIsSeeded(c, sched1, f1, r, q, patched, e);
    UndecidedReviewIsPassedIff(c, sched1, f1, r, q, patched, e);
    InvInit(c);
    InvEnds(c, Init(c), sched1, f1);
    ResumedIsAcyclic(c, rank, f1, r, patched);
    if k :| LeftBehind(e, q, k) {
      assert k !in f1.skipped;
    }
    if k :| k in c.steps && q in c.steps[k].dependsOn && k !in f1.skipped {
      DirectDependentsWait(c, sched1, f1, q, k);
      assert k !in f1.completed;
      AcyclicMayRun(e, rank, k);
      assert LeftBehind(e, q, k);
    }
  }

  // ---------------------------------------------------------------- a call of this kind

  /** Reviews `r` and `q`, and `k` that waits for `q`. */
  ghost predicate TwoReviews(c: Call, r: Key, q: Key, k: Key, pending: Value) {
    && ValidCall(c) && c.seedKeys == {} && r != q && r != k && q != k && c.steps.Keys == {r, q, k}
    && c.steps[r].dependsOn == [] && c.steps[q].dependsOn == [] && c.steps[k].dependsOn == [q]
    && (forall s :: s in c.steps ==> c.steps[s].condition == Always)
    && Pauses(c.steps[r], pending) && Pauses(c.steps[q], pending)
    && (forall seen :: c.exec(c.steps[r], seen) == Output(pending))
    && (forall seen :: c.exec(c.steps[q], seen) == Output(pending))
  }

  function BothWait(c: Call, r: Key, q: Key, k: Key): State {
    State({k}, {r, q}, {}, {}, {}, c.seedResults, map[], false, None, multiset({r, q}))
  }

  lemma BothWaitIsHead(c: Call, r: Key, q: Key, k: Key, pending: Value)
    requires TwoReviews(c, r, q, k, pending)
    ensures Head(c, Init(c)) == BothWait(c, r, q, k)
  {
    NothingDoomed(c, Init(c));
    assert q in c.steps[k].dependsOn;
    assert ReadyKeys(c, Init(c)) == {r, q};
    assert {r, q, k} - {r, q} == {k};
  }

  lemma BothPend(c: Call, r: Key, q: Key, k: Key, pending: Value) returns (f: State)
    requires TwoReviews(c, r, q, k, pending)
    ensures Ends(c, Init(c), [[q, r]], f) && AwaitsReview(c, f, r) && AwaitsReview(c, f, q)
    ensures f.completed == {q, r}
  {
    BothWaitIsHead(c, r, q, k, pending);
    var h := BothWait(c, r, q, k);
    CollectTwo(c, h, q, r);
    f := Finish(c, Finish(c, h, q), r);
    BothAreLeft(c, r, q, k, pending);
    EndsPaused(c, Init(c), [q, r]);
  }

  lemma BothAreLeft(c: Call, r: Key, q: Key, k: Key, pending: Value)
    requires TwoReviews(c, r, q, k, pending)
    ensures var f := Finish(c, Finish(c, BothWait(c, r, q, k), q), r);
            PauseReached(f) && AwaitsReview(c, f, r) && AwaitsReview(c, f, q) && f.completed == {q, r}
  {
  }

  /** In every call of this shape the approval of `r` alone lets `k` run, in every resuming run. */
  lemma OneApprovalPassesBoth(c: Call, r: Key, q: Key, k: Key, pending: Value, patched: Value) returns (f: State)
    requires TwoReviews(c, r, q, k, pending)
    ensures Ends(c, Init(c), [[q, r]], f) && TwoPending(c, [[q, r]], f, r, q, patched, Resumed(c, f, r, patched))
    ensures q in c.steps[k].dependsOn
    ensures var e := Resumed(c, f, r, patched);
            forall sched2, f2 :: Ends(e, Init(e), sched2, f2) ==> k in f2.launched
  {
    f := BothPend(c, r, q, k, pending);
    var e := Resumed(c, f, r, patched);
    assert k in e.steps && IsReady(e, Init(e), e.steps[k]);
    forall sched2, f2 | Ends(e, Init(e), sched2, f2)
      ensures k in f2.launched
    {
      StartsReady(e, sched2, f2, k);
    }
  }
}
