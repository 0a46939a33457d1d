/**
 When a pending human review holds its dependents back under dependent_fail. A
 step behind the review can start only by way of a skip, and whether one can is
 a property of the plan: the exact condition is given for every dependency graph,
 and for acyclic plans in terms of direct dependencies only.
 */
module ReviewGate {
  import opened Json
  import opened Plans
  import opened PlanInvariants
  import opened Progress
  import opened HumanGate
  import opened Startable

  /** With these executors the call has this run; it leaves review `r` pending, and `k` starts in it. */
  ghost predicate StartsBeforeReview(c: Call, exec: Executor, schedule: seq<seq<Key>>, f: State, r: Key, k: Key) {
    Starts(c, exec, schedule, f, k) && AwaitsReview(c, f, r)
  }

  /** A choice of failing steps that lets the review start, and `k` without waiting for it. */
  ghost predicate LetsPast(c: Call, failing: set<Key>, r: Key, k: Key) {
    r !in failing && CanFail(c, failing) && MayStart(c, failing, {}, r) && MayStart(c, failing, {r}, k)
  }

  const PENDING := Dict(map["status" := Str("pending_human_review")])

  lemma BeforeReviewLetsPast(c: Call, exec: Executor, schedule: seq<seq<Key>>, f: State, r: Key, k: Key)
    requires ValidCall(c) && c.policy.DependentFail? && k != r && StartsBeforeReview(c, exec, schedule, f, r, k)
    ensures LetsPast(c, f.failed, r, k) && r in c.steps && c.steps[r].kind == "human_review"
  {
    var d := c.(exec := exec);
    assert Init(d) == Init(c);
    EndFacts(d, schedule, f);
    assert AwaitsReview(d, f, r) && r in f.launched;
    StartedMayStart(d, schedule, f, {}, r);
    StartedMayStart(d, schedule, f, {r}, k);
    SameGraph(c, d, f.failed, {}, r);
    SameGraph(c, d, f.failed, {r}, k);
  }

  /** Once everything but the review is drained, the review is in flight. */
  lemma ReviewIsLeft(d: Call, t: State, failing: set<Key>, r: Key)
    requires Scripted(d, failing, {r}, PENDING) && OnScript(d, t, failing, {r}) && Head(d, t).inflight <= {r}
    requires MayStart(d, failing, {}, r)
    ensures Head(d, t).inflight == {r}
  {
    LeftIsHeldBack(d, t, failing, {r}, PENDING);
    HeadOnScript(d, t, failing, {r}, PENDING);
    assert r !in Head(d, t).completed;
    NotHeldIsInFlight(d, failing, Head(d, t), r);
  }

  lemma NotHeldIsInFlight(d: Call, failing: set<Key>, h: State, r: Key)
    requires HoldsBack(d, failing, h.inflight, Mentioned(d) - h.completed) && h.inflight <= {r}
    requires MayStart(d, failing, {}, r) && r !in h.completed
    ensures h.inflight == {r}
  {
    assert r in Mentioned(d) - h.completed;
    assert r !in h.inflight ==> h.inflight == {};
  }

  lemma CollectReview(d: Call, t: State, failing: set<Key>, r: Key) returns (f: State)
    requires Scripted(d, failing, {r}, PENDING) && OnScript(d, t, failing, {r}) && Head(d, t).inflight == {r}
    requires r in d.steps && d.steps[r].kind == "human_review"
    ensures Ends(d, t, [[r]], f) && AwaitsReview(d, f, r) && forall k :: k in t.launched ==> k in f.launched
  {
    var h := Head(d, t);
    HeadOnScript(d, t, failing, {r}, PENDING);
    HeadGrows(d, t);
    BusyLoops(d, t);
    OneByOne(d, t, r);
    f := Finish(d, h, r);
    assert PENDING.fields["status"] == Str("pending_human_review");
    FinishKeepsPlaces(d, h, r);
    EndsPaused(d, t, [r]);
  }

  lemma LetPastStarts(c: Call, failing: set<Key>, r: Key, k: Key)
      returns (exec: Executor, schedule: seq<seq<Key>>, f: State)
    requires ValidCall(c) && c.policy.DependentFail? && Unconditional(c) && k != r
    requires LetsPast(c, failing, r, k) && c.steps[r].kind == "human_review"
    ensures StartsBeforeReview(c, exec, schedule, f, r, k)
  {
    exec := Script(c, failing, {r}, PENDING);
    var d := c.(exec := exec);
    ScriptIsScripted(c, failing, {r}, PENDING);
    SameGraph(c, d, failing, {}, r);
    SameGraph(c, d, failing, {r}, k);
    StartFacts(d);
    var first, t := DrainBut(d, Init(d), failing, {r}, PENDING);
    NotHeldBackStarts(d, t, failing, {r}, PENDING, k);
    ReviewIsLeft(d, t, failing, r);
    f := CollectReview(d, t, failing, r);
    ReachesThenEnds(d, Init(d), first, t, [[r]], f);
    assert Init(d) == Init(c);
    schedule := first + [[r]];
  }

  /**
   Exactly when a step can start although the review is left pending: for a call
   without conditions, on every dependency graph, some run does it for some
   executors if and only if some choice of failing steps lets it past.
   */
  lemma StartsBeforeReviewIff(c: Call, r: Key, k: Key)
    requires ValidCall(c) && c.policy.DependentFail? && Unconditional(c) && k != r
    requires r in c.steps && c.steps[r].kind == "human_review"
    ensures (exists exec: Executor, schedule, f :: StartsBeforeReview(c, exec, schedule, f, r, k))
            <==> exists failing :: LetsPast(c, failing, r, k)
  {
    if exec: Executor, schedule, f :| StartsBeforeReview(c, exec, schedule, f, r, k) {
      BeforeReviewLetsPast(c, exec, schedule, f, r, k);
    }
    if failing :| LetsPast(c, failing, r, k) {
      var exec, schedule, f := LetPastStarts(c, failing, r, k);
    }
  }

  // ---------------------------------------------------------------- acyclic plans

  ghost predicate Behind(c: Call, k: Key, r: Key) {
    exists path :: DependencyPath(c, path) && path[0] == k && path[|path| - 1] == r
  }

  lemma BehindDirectly(c: Call, k: Key, r: Key)
    requires k in c.steps && r in c.steps[k].dependsOn
    ensures Behind(c, k, r)
  {
    assert DependencyPath(c, [k, r]);
  }

  lemma BehindThrough(c: Call, k: Key, d: Key, r: Key)
    requires k in c.steps && d in c.steps[k].dependsOn && Behind(c, d, r)
    ensures Behind(c, k, r)
  {
    var path :| DependencyPath(c, path) && path[0] == d && path[|path| - 1] == r;
    var whole := [k] + path;
    assert forall i :: 0 <= i < |path| ==> whole[i + 1] == path[i];
    assert DependencyPath(c, whole) by {
      forall i | 0 <= i < |whole| - 1
        ensures whole[i] in c.steps && whole[i + 1] in c.steps[whole[i]].dependsOn
      {
        if i > 0 {
          assert whole[i] == path[i - 1] && whole[i + 1] == path[i];
        }
      }
    }
    assert whole[|whole| - 1] == r;
  }

  lemma BehindSplits(c: Call, k: Key, r: Key)
    requires Behind(c, k, r)
    ensures k in c.steps && (r in c.steps[k].dependsOn || exists d :: d in c.steps[k].dependsOn && Behind(c, d, r))
  {
    var path :| DependencyPath(c, path) && path[0] == k && path[|path| - 1] == r;
    if |path| > 2 {
      var rest := path[1..];
      assert forall i :: 0 <= i < |rest| ==> rest[i] == path[i + 1];
      assert DependencyPath(c, rest);
      assert Behind(c, path[1], r);
    }
  }

  /**
   A step `k` behind the review and failing steps that are not behind it: `k`
   depends on none of them, nor directly on the review, but every dependency of
   `k` behind the review does depend on one of them, and is skipped.
   */
  ghost predicate SkippedPast(c: Call, r: Key, failing: set<Key>, k: Key)
    requires r in c.steps
  {
    && CanFail(c, failing) && r !in failing && !DependsOnAny(c.steps[r], failing)
    && (forall j :: j in failing ==> !Behind(c, j, r))
    && k in c.steps && Behind(c, k, r) && r !in c.steps[k].dependsOn && !DependsOnAny(c.steps[k], failing)
    && forall d :: d in c.steps[k].dependsOn && Behind(c, d, r) ==> d in c.steps && DependsOnAny(c.steps[d], failing)
  }

  /** What stays back with the review when no step can be skipped past it. */
  ghost function BehindUnskipped(c: Call, r: Key, failing: set<Key>): set<Key> {
    set x | x in c.steps && Behind(c, x, r) && !DependsOnAny(c.steps[x], failing)
  }

  lemma UnskippedStaysBack(c: Call, r: Key, failing: set<Key>, x: Key)
    requires ValidCall(c) && r in c.steps && CanFail(c, failing) && r !in failing && !DependsOnAny(c.steps[r], failing)
    requires var early := set j | j in failing && !Behind(c, j, r);
             x in BehindUnskipped(c, r, early) && !SkippedPast(c, r, early, x)
    ensures var early := set j | j in failing && !Behind(c, j, r);
            StaysBack(c, failing, BehindUnskipped(c, r, early) + {r}, x)
  {
    var early := set j | j in failing && !Behind(c, j, r);
    var keys := BehindUnskipped(c, r, early) + {r};
    EarlyCanFail(c, failing, early);
    if r !in c.steps[x].dependsOn {
      var d :| d in c.steps[x].dependsOn && Behind(c, d, r) && !(d in c.steps && DependsOnAny(c.steps[d], early));
      BehindSplits(c, d, r);
      assert d in keys;
    }
    forall j | j in c.steps[x].dependsOn && j in failing
      ensures j in keys
    {
      assert j !in early;
      assert !DependsOnAny(c.steps[j], early);
    }
  }

  lemma EarlyCanFail(c: Call, failing: set<Key>, early: set<Key>)
    requires CanFail(c, failing) && early <= failing
    ensures CanFail(c, early)
    ensures forall k :: k in c.steps && !DependsOnAny(c.steps[k], failing) ==> !DependsOnAny(c.steps[k], early)
  {
  }

  /** Whoever is let past, some step is skipped past. */
  lemma LetPastIsSkippedPast(c: Call, r: Key, failing: set<Key>, k: Key)
    requires ValidCall(c) && r in c.steps && LetsPast(c, failing, r, k) && Behind(c, k, r)
    ensures exists early, x :: SkippedPast(c, r, early, x)
  {
    var early := set j | j in failing && !Behind(c, j, r);
    var keys := BehindUnskipped(c, r, early) + {r};
    EarlyCanFail(c, failing, early);
    assert k in keys;
    if x :| x in BehindUnskipped(c, r, early) && SkippedPast(c, r, early, x) {
    } else {
      forall x | x in keys && x != r
        ensures StaysBack(c, failing, keys, x)
      {
        UnskippedStaysBack(c, r, failing, x);
      }
      assert HoldsBack(c, failing, {r}, keys);
    }
  }

  /**
   The keeping half, for every dependent_fail call, with conditions and on every
   dependency graph: if no step of the plan can be skipped past the review, no
   step behind it starts in a run that leaves it pending.
   */
  lemma StartedIsSkippedPast(c: Call, exec: Executor, schedule: seq<seq<Key>>, f: State, r: Key, k: Key)
    requires ValidCall(c) && c.policy.DependentFail? && k != r && Behind(c, k, r)
    requires StartsBeforeReview(c, exec, schedule, f, r, k)
    ensures r in c.steps && exists failing, x :: SkippedPast(c, r, failing, x)
  {
    BeforeReviewLetsPast(c, exec, schedule, f, r, k);
    LetPastIsSkippedPast(c, r, f.failed, k);
  }

  lemma {:induction false} BehindRanksHigher(c: Call, rank: map<Key, nat>, k: Key, r: Key)
    requires ValidCall(c) && AcyclicBy(c, rank) && r in c.steps && k in c.steps && Behind(c, k, r)
    ensures rank[r] < rank[k]
    decreases rank[k]
  {
    BehindSplits(c, k, r);
    if r !in c.steps[k].dependsOn {
      var d :| d in c.steps[k].dependsOn && Behind(c, d, r);
      BehindSplits(c, d, r);
      BehindRanksHigher(c, rank, d, r);
    }
  }

  /** Only the review and what is behind it can be held back by the review. */
  lemma {:induction false} NotBehindIsNotHeld(
      c: Call, rank: map<Key, nat>, r: Key, failing: set<Key>, keys: set<Key>, x: Key)
    requires ValidCall(c) && AcyclicBy(c, rank) && x in c.steps && x != r && !Behind(c, x, r)
    requires HoldsBack(c, failing, {r}, keys)
    ensures x !in keys
    decreases rank[x]
  {
    if x in keys {
      assert StaysBack(c, failing, keys, x);
      var y :| y in c.steps[x].dependsOn && y in keys;
      if y == r {
        BehindDirectly(c, x, r);
      } else {
        if Behind(c, y, r) {
          BehindThrough(c, x, y, r);
        }
        assert StaysBack(c, failing, keys, y);
        NotBehindIsNotHeld(c, rank, r, failing, keys, y);
      }
    }
  }

  lemma ReviewIsNotHeld(c: Call, rank: map<Key, nat>, r: Key, failing: set<Key>, keys: set<Key>)
    requires ValidCall(c) && AcyclicBy(c, rank) && r in c.steps && HoldsBack(c, failing, {}, keys)
    ensures r !in keys
  {
    if r in keys {
      assert StaysBack(c, failing, keys, r);
      var y :| y in c.steps[r].dependsOn && y in keys;
      assert StaysBack(c, failing, keys, y);
      if Behind(c, y, r) {
        BehindRanksHigher(c, rank, y, r);
      }
      NotBehindIsNotHeld(c, rank, r, failing, keys, y);
    }
  }

  lemma SkippedPastIsNotHeld(c: Call, rank: map<Key, nat>, r: Key, failing: set<Key>, k: Key, keys: set<Key>)
    requires ValidCall(c) && AcyclicBy(c, rank) && r in c.steps && SkippedPast(c, r, failing, k) && k != r
    requires HoldsBack(c, failing, {r}, keys)
    ensures k !in keys
  {
    if k in keys {
      assert StaysBack(c, failing, keys, k);
      var y :| y in c.steps[k].dependsOn && y in keys;
      assert y != r && StaysBack(c, failing, keys, y);
      if Behind(c, y, r) {
        var j :| j in c.steps[y].dependsOn && j in failing;
        NotBehindIsNotHeld(c, rank, r, failing, keys, j);
      } else {
        NotBehindIsNotHeld(c, rank, r, failing, keys, y);
      }
    }
  }

  lemma SkippedPastIsLetPast(c: Call, rank: map<Key, nat>, r: Key, failing: set<Key>, k: Key)
    requires ValidCall(c) && AcyclicBy(c, rank) && r in c.steps && SkippedPast(c, r, failing, k)
    ensures k != r && LetsPast(c, failing, r, k)
  {
    BehindRanksHigher(c, rank, k, r);
    forall keys | HoldsBack(c, failing, {}, keys)
      ensures r !in keys
    {
      ReviewIsNotHeld(c, rank, r, failing, keys);
    }
    forall keys | HoldsBack(c, failing, {r}, keys)
      ensures k !in keys
    {
      SkippedPastIsNotHeld(c, rank, r, failing, k, keys);
    }
  }

  /**
   The gate under dependent_fail, exactly, for acyclic plans: some step behind the
   review starts in a run that leaves the review pending, for some executors, if
   and only if the plan has a step that can be skipped past it.
   */
  lemma GateFailsIff(c: Call, rank: map<Key, nat>, r: Key)
    requires ValidCall(c) && c.policy.DependentFail? && Unconditional(c) && AcyclicBy(c, rank)
    requires r in c.steps && c.steps[r].kind == "human_review"
    ensures (exists exec: Executor, schedule, f, k :: Behind(c, k, r) && StartsBeforeReview(c, exec, schedule, f, r, k))
            <==> exists failing, k :: SkippedPast(c, r, failing, k)
  {
    if exec: Executor, schedule, f, k :| Behind(c, k, r) && StartsBeforeReview(c, exec, schedule, f, r, k) {
      BehindSplits(c, k, r);
      BehindRanksHigher(c, rank, k, r);
      StartedIsSkippedPast(c, exec, schedule, f, r, k);
    }
    if failing, k :| SkippedPast(c, r, failing, k) {
      SkippedPastIsLetPast(c, rank, r, failing, k);
      var exec, schedule, f := LetPastStarts(c, failing, r, k);
      assert Behind(c, k, r) && StartsBeforeReview(c, exec, schedule, f, r, k);
    }
  }

  /** The calls of the four-step family have such a step. */
  lemma BypassIsSkippedPast(c: Call, r: Key, a: Key, m: Key, k: Key, pending: Value, text: string)
    requires Bypass(c, r, a, m, k, pending, text)
    ensures SkippedPast(c, r, {a}, k)
  {
    assert r in c.steps[m].dependsOn && a in c.steps[m].dependsOn && m in c.steps[k].dependsOn;
    BehindDirectly(c, m, r);
    BehindThrough(c, k, m, r);
    assert !Behind(c, a, r) by {
      if Behind(c, a, r) {
        BehindSplits(c, a, r);
      }
    }
  }
}
