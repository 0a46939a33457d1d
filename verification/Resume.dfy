/**
 Pausing at a human review and resuming simulates one uninterrupted run: the
 paused call, followed by a call seeded with its results (the review's output
 patched) and its completed keys, ends as a single call would in which the review
 had answered the patched output at once.
 */
module Resume {
  import opened Wrappers
  import opened Json
  import opened Conditions
  import opened Plans
  import opened Sequences
  import opened PlanInvariants
  import opened ScheduleIndependence
  import opened Progress
  import opened HumanGate

  /** Policies that neither skip nor abort: best_effort, and every name the code does not know. */
  predicate Lenient(c: Call) {
    !c.policy.FailFast? && !c.policy.DependentFail?
  }

  /** No step but `r` ever pauses the plan. */
  ghost predicate OnlyPauses(c: Call, r: Key) {
    forall k, seen :: k in c.steps && k != r ==>
      var o := c.exec(c.steps[k], seen); o.Output? ==> !Pauses(c.steps[k], o.value)
  }

  /** No step but `r` and its direct dependents looks at `r`'s result. */
  ghost predicate ReviewReadByDependents(c: Call, r: Key) {
    forall k, r1, r2 :: k in c.steps && k != r && r !in c.steps[k].dependsOn && SameButFor(r, r1, r2) ==>
      c.exec(c.steps[k], r1) == c.exec(c.steps[k], r2)
  }

  /** The two differ in `r`'s result at most. */
  predicate SameButFor(r: Key, r1: Env, r2: Env) {
    r in r1 && r in r2 && r1[r := r2[r]] == r2
  }

  /** The same call with a review that answers `patched` at once. */
  function Approved(c: Call, r: Key, patched: Value): Call {
    c.(exec := (step: Step, seen: Env) => if step.key == r then Output(patched) else c.exec(step, seen))
  }

  function StepsOutside(steps: map<Key, Step>, keys: set<Key>): map<Key, Step> {
    map k | k in steps && k !in keys :: steps[k]
  }

  /** The call that resumes after final state `f`: seeded with its completed keys and its patched results. */
  function Resumed(c: Call, f: State, r: Key, patched: Value): Call {
    Call(StepsOutside(c.steps, f.completed), c.policy, c.params, f.completed, f.results[r := patched], c.exec)
  }

  /** The code builds the pending steps from the whole plan again: that leaves the same steps. */
  lemma {:induction false} PendingAfterSeed(steps: seq<Step>, seeded: set<Key>, more: set<Key>)
    requires seeded <= more
    ensures PendingSteps(steps, more) == StepsOutside(PendingSteps(steps, seeded), more)
    decreases |steps|
  {
    if steps != [] {
      PendingAfterSeed(steps[..|steps| - 1], seeded, more);
    }
  }

  // ---------------------------------------------------------------- collecting in pieces

  lemma {:induction false} CollectAppend(c: Call, s: State, a: seq<Key>, b: seq<Key>)
    requires forall k :: k in a + b ==> k in c.steps
    requires (forall k :: k in a ==> k in c.steps) && (forall k :: k in b ==> k in c.steps)
    ensures Collect(c, s, a + b) == Collect(c, Collect(c, s, a), b)
    decreases |a|
  {
    if a == [] {
      AppendEmpty(a, b);
    } else if !s.abort {
      ConsAppend(a, b);
      assert (a + b)[0] == a[0] && (a + b)[1..] == a[1..] + b;
      CollectAppend(c, Finish(c, s, a[0]), a[1..], b);
    } else {
      assert Collect(c, s, a + b) == s;
    }
  }

  ghost function Keys(batch: seq<Key>): set<Key> {
    set k | k in batch
  }

  lemma {:induction false} CollectMoves(c: Call, s: State, batch: seq<Key>)
    requires Lenient(c) && !s.abort && forall k :: k in batch ==> k in c.steps
    ensures Collect(c, s, batch).inflight == s.inflight - Keys(batch)
    ensures Collect(c, s, batch).completed == s.completed + Keys(batch)
    ensures s.failed <= Collect(c, s, batch).failed
    ensures !Collect(c, s, batch).abort
    decreases |batch|
  {
    if batch != [] {
      CollectMoves(c, Finish(c, s, batch[0]), batch[1..]);
      assert Keys(batch) == {batch[0]} + Keys(batch[1..]);
    }
  }

  function Flatten(schedule: seq<seq<Key>>): seq<Key> {
    if schedule == [] then [] else schedule[0] + Flatten(schedule[1..])
  }

  lemma PausedHeadIsIdle(c: Call, s: State)
    requires Known(c, s) && Lenient(c) && s.paused.Some?
    ensures Head(c, s) == s
  {
    NothingSkipped(c, s);
    assert ReadyKeys(c, s) == {};
    assert s.launched + multiset({}) == s.launched;
  }

  /** Once paused, the call only collects: all its remaining rounds are one batch. */
  lemma {:induction false} DrainIsOneBatch(c: Call, t: State, rest: seq<seq<Key>>, f: State)
    requires Lenient(c) && t.paused.Some? && t.inflight != {} && !t.abort && Ends(c, t, rest, f)
    ensures forall k :: k in Flatten(rest) ==> k in c.steps
    ensures ValidBatch(t, Flatten(rest)) && f == Collect(c, t, Flatten(rest)) && f.inflight == {}
    decreases |rest|
  {
    PausedHeadIsIdle(c, t);
    var b := rest[0];
    assert After(c, t, b) == Collect(c, t, b);
    var u := Collect(c, t, b);
    CollectMoves(c, t, b);
    CollectLaunchesNothing(c, t, b);
    if PauseReached(u) {
      assert rest[1..] == [];
      assert Flatten(rest) == b + [] == b;
    } else {
      DrainIsOneBatch(c, u, rest[1..], f);
      var d := Flatten(rest[1..]);
      CollectAppend(c, t, b, d);
      DistinctAppend(b, d);
    }
  }

  lemma DistinctAppend(a: seq<Key>, b: seq<Key>)
    requires Distinct(a) && Distinct(b) && forall k :: k in a ==> k !in b
    ensures Distinct(a + b)
  {
    forall i, j | 0 <= i < j < |a + b|
      ensures (a + b)[i] != (a + b)[j]
    {
      assert i < |a| ==> (a + b)[i] == a[i] && a[i] in a;
      assert j >= |a| ==> (a + b)[j] == b[j - |a|] && b[j - |a|] in b;
    }
  }

  // ---------------------------------------------------------------- the paused call, taken apart

  /** The round that pauses: `s` is its loop head, `b` its batch, `rest` the rounds that drain the pool. */
  ghost predicate PausingRound(c: Call, s: State, b: seq<Key>, rest: seq<seq<Key>>, f: State) {
    && Known(c, s) && LoopOn(s) && s.paused.None? && ValidBatch(Head(c, s), b)
    && (forall k :: k in b ==> k in c.steps)
    && After(c, s, b).paused.Some?
    && if PauseReached(After(c, s, b)) then rest == [] && f == After(c, s, b)
       else Ends(c, After(c, s, b), rest, f)
  }

  lemma {:induction false} SplitAtPause(c: Call, s: State, schedule: seq<seq<Key>>, f: State)
      returns (pre: seq<seq<Key>>, s0: State, b: seq<Key>, rest: seq<seq<Key>>)
    requires ValidCall(c) && Inv(c, s) && GateInv(c, s) && s.paused.None? && Ends(c, s, schedule, f) && f.paused.Some?
    ensures Reaches(c, s, pre, s0) && Inv(c, s0) && GateInv(c, s0) && PausingRound(c, s0, b, rest, f)
    decreases |schedule|
  {
    assert LoopOn(s) && Head(c, s).inflight != {};
    b := schedule[0];
    InvHead(c, s);
    AfterGates(c, s, b);
    var t := After(c, s, b);
    if t.paused.Some? {
      pre, s0, rest := [], s, schedule[1..];
    } else {
      var p: seq<seq<Key>>;
      p, s0, b, rest := SplitAtPause(c, t, schedule[1..], f);
      pre := [schedule[0]] + p;
      assert pre[0] == schedule[0] && pre[1..] == p;
    }
  }

  lemma {:induction false} WhoPaused(c: Call, s: State, batch: seq<Key>, r: Key)
    requires OnlyPauses(c, r) && s.paused.None? && forall k :: k in batch ==> k in c.steps
    ensures var t := Collect(c, s, batch); t.paused.Some? ==> r in batch && t.paused == Some(r)
    decreases |batch|
  {
    if batch != [] && !s.abort {
      var t := Finish(c, s, batch[0]);
      if t.paused.None? {
        WhoPaused(c, t, batch[1..], r);
      } else {
        StillPausedBy(c, t, batch[1..], r);
      }
    }
  }

  lemma {:induction false} StillPausedBy(c: Call, s: State, batch: seq<Key>, r: Key)
    requires OnlyPauses(c, r) && s.paused == Some(r) && forall k :: k in batch ==> k in c.steps
    ensures Collect(c, s, batch).paused == Some(r)
    decreases |batch|
  {
    if batch != [] && !s.abort {
      StillPausedBy(c, Finish(c, s, batch[0]), batch[1..], r);
    }
  }

  // ---------------------------------------------------------------- the approved call follows the paused one

  lemma SameHead(c: Call, d: Call, s: State)
    requires Known(c, s) && d == c.(exec := d.exec)
    ensures Known(d, s) && Head(c, s) == Head(d, s)
  {
    assert DoomedKeys(c, s) == DoomedKeys(d, s);
    assert ReadyKeys(c, SkipDoomed(c, s)) == ReadyKeys(d, SkipDoomed(d, s));
  }

  lemma {:induction false} SameCollect(c: Call, r: Key, patched: Value, s: State, batch: seq<Key>)
    requires ValidCall(c) && r !in batch && forall k :: k in batch ==> k in c.steps
    ensures Collect(Approved(c, r, patched), s, batch) == Collect(c, s, batch)
    decreases |batch|
  {
    if batch != [] && !s.abort {
      assert Finish(Approved(c, r, patched), s, batch[0]) == Finish(c, s, batch[0]);
      SameCollect(c, r, patched, Finish(c, s, batch[0]), batch[1..]);
    }
  }

  lemma {:induction false} SamePrefix(
      c: Call, r: Key, patched: Value, s: State, pre: seq<seq<Key>>, s0: State)
    requires ValidCall(c) && Lenient(c) && Inv(c, s) && Reaches(c, s, pre, s0) && r !in s0.completed
    ensures Reaches(Approved(c, r, patched), s, pre, s0)
    ensures s.completed <= s0.completed
    decreases |pre|
  {
    if pre != [] {
      var t := After(c, s, pre[0]);
      SameHead(c, Approved(c, r, patched), s);
      InvHead(c, s);
      InvAfter(c, s, pre[0]);
      SamePrefix(c, r, patched, t, pre[1..], s0);
      CollectMoves(c, Head(c, s), pre[0]);
      NothingSkipped(c, s);
      SameCollect(c, r, patched, Head(c, s), pre[0]);
    }
  }

  /** The two calls' states while they collect the pausing batch: they differ in the review's output only. */
  ghost predicate PatchedState(r: Key, patched: Value, s: State, u: State) {
    if r in s.completed then r in s.results && u == s.(results := s.results[r := patched], paused := None)
    else u == s && s.paused.None?
  }

  lemma PatchedFinish(c: Call, r: Key, patched: Value, s: State, u: State, j: Key)
    requires ValidCall(c) && Lenient(c) && ReviewReadByDependents(c, r) && OnlyPauses(c, r)
    requires r in c.steps && !Pauses(c.steps[r], patched) && PatchedState(r, patched, s, u)
    requires j in c.steps && j !in s.completed && r !in c.steps[j].dependsOn
    requires r !in Finish(c, s, j).failed
    ensures PatchedState(r, patched, Finish(c, s, j), Finish(Approved(c, r, patched), u, j))
  {
    if j != r {
      SameOutcome(c, r, patched, s, u, j);
      var o := c.exec(c.steps[j], s.results);
      if o.Output? {
        assert s.results[r := patched][j := o.value] == s.results[j := o.value][r := patched];
      }
    }
  }

  /** A step that does not depend on the review ends alike on both states. */
  lemma SameOutcome(c: Call, r: Key, patched: Value, s: State, u: State, j: Key)
    requires ValidCall(c) && ReviewReadByDependents(c, r) && PatchedState(r, patched, s, u)
    requires j in c.steps && j != r && r !in c.steps[j].dependsOn
    ensures Approved(c, r, patched).exec(c.steps[j], u.results) == c.exec(c.steps[j], s.results)
  {
    if r in s.completed {
      assert SameButFor(r, s.results, u.results);
    }
  }

  lemma {:induction false} PatchedCollect(c: Call, r: Key, patched: Value, s: State, u: State, batch: seq<Key>)
    requires ValidCall(c) && Lenient(c) && ReviewReadByDependents(c, r) && OnlyPauses(c, r)
    requires r in c.steps && !Pauses(c.steps[r], patched) && PatchedState(r, patched, s, u)
    requires Distinct(batch) && !s.abort
    requires forall k :: k in batch ==> k in c.steps && k !in s.completed && r !in c.steps[k].dependsOn
    requires r !in Collect(c, s, batch).failed
    ensures PatchedState(r, patched, Collect(c, s, batch), Collect(Approved(c, r, patched), u, batch))
    decreases |batch|
  {
    if batch != [] {
      var t := Finish(c, s, batch[0]);
      CollectMoves(c, t, batch[1..]);
      PatchedFinish(c, r, patched, s, u, batch[0]);
      PatchedCollect(c, r, patched, t, Finish(Approved(c, r, patched), u, batch[0]), batch[1..]);
    }
  }

  /** The state in which the approved call finds itself after one batch that drains the pool. */
  function PatchedEnd(f: State, r: Key, patched: Value): State {
    f.(results := f.results[r := patched], paused := None)
  }

  /** The paused call's last rounds, collected as one batch of the round that pauses. */
  lemma PausingRoundIsOneBatch(c: Call, s0: State, b: seq<Key>, rest: seq<seq<Key>>, f: State)
    requires ValidCall(c) && Lenient(c) && Inv(c, s0) && PausingRound(c, s0, b, rest, f)
    ensures ValidBatch(Head(c, s0), b + Flatten(rest))
    ensures forall k :: k in b + Flatten(rest) ==> k in c.steps
    ensures f == After(c, s0, b + Flatten(rest)) && f.inflight == {}
  {
    var t := After(c, s0, b);
    if PauseReached(t) {
      assert b + Flatten(rest) == b;
    } else {
      assert t.inflight != {} && !t.abort by {
        InvHead(c, s0);
        CollectMoves(c, Head(c, s0), b);
      }
      DrainIsOneBatch(c, t, rest, f);
      JoinBatches(c, s0, b, Flatten(rest));
    }
  }

  lemma JoinBatches(c: Call, s0: State, b: seq<Key>, d: seq<Key>)
    requires ValidCall(c) && Lenient(c) && Inv(c, s0) && !s0.abort && ValidBatch(Head(c, s0), b)
    requires (forall k :: k in b ==> k in c.steps) && (forall k :: k in d ==> k in c.steps)
    requires ValidBatch(After(c, s0, b), d)
    ensures ValidBatch(Head(c, s0), b + d)
    ensures After(c, s0, b + d) == Collect(c, After(c, s0, b), d)
  {
    var h := Head(c, s0);
    InvHead(c, s0);
    CollectMoves(c, h, b);
    DistinctAppend(b, d);
    CollectAppend(c, h, b, d);
  }

  /** Where the paused call ends, the approved one can be at a loop head, with the review's output patched. */
  lemma ApprovedReachesEnd(c: Call, r: Key, patched: Value, schedule: seq<seq<Key>>, f: State)
      returns (first: seq<seq<Key>>)
    requires ValidCall(c) && Lenient(c) && ReviewReadByDependents(c, r) && OnlyPauses(c, r)
    requires r in c.steps && !Pauses(c.steps[r], patched)
    requires Ends(c, Init(c), schedule, f) && f.paused.Some?
    ensures Inv(c, f) && f.inflight == {} && !f.abort && AwaitsReviewKey(c, f, r)
    ensures Reaches(Approved(c, r, patched), Init(c), first, PatchedEnd(f, r, patched))
  {
    InvInit(c);
    InvEnds(c, Init(c), schedule, f);
    var pre, s0, b, rest := SplitAtPause(c, Init(c), schedule, f);
    var batch := b + Flatten(rest);
    PausingRoundIsOneBatch(c, s0, b, rest, f);
    PausedByReview(c, r, s0, b, rest, f);
    SamePrefix(c, r, patched, Init(c), pre, s0);
    ApprovedBatch(c, r, patched, s0, batch, f);
    first := pre + [batch];
    ReachesSnoc(Approved(c, r, patched), Init(c), pre, s0, batch);
  }

  /** The review succeeded in the call, which makes it the step that paused it. */
  predicate AwaitsReviewKey(c: Call, f: State, r: Key) {
    r in Succeeded(c, f) && r in f.results
  }

  lemma PausedByReview(c: Call, r: Key, s0: State, b: seq<Key>, rest: seq<seq<Key>>, f: State)
    requires ValidCall(c) && Lenient(c) && OnlyPauses(c, r) && Inv(c, s0) && PausingRound(c, s0, b, rest, f)
    ensures r !in s0.completed && r in Head(c, s0).inflight && AwaitsReviewKey(c, f, r)
  {
    var h := Head(c, s0);
    InvHead(c, s0);
    WhoPaused(c, h, b, r);
    PausingRoundIsOneBatch(c, s0, b, rest, f);
    InvAfter(c, s0, b + Flatten(rest));
    assert f.paused == Some(r) by {
      var t := After(c, s0, b);
      if !PauseReached(t) {
        InvAfter(c, s0, b);
        DrainIsOneBatch(c, t, rest, f);
        StillPausedBy(c, t, Flatten(rest), r);
      }
    }
    NothingSkipped(c, s0);
  }

  lemma ApprovedBatch(c: Call, r: Key, patched: Value, s0: State, batch: seq<Key>, f: State)
    requires ValidCall(c) && Lenient(c) && ReviewReadByDependents(c, r) && OnlyPauses(c, r)
    requires r in c.steps && !Pauses(c.steps[r], patched)
    requires Inv(c, s0) && GateInv(c, s0) && LoopOn(s0) && s0.paused.None?
    requires ValidBatch(Head(c, s0), batch) && (forall k :: k in batch ==> k in c.steps) && f == After(c, s0, batch)
    requires r !in s0.completed && AwaitsReviewKey(c, f, r)
    ensures Known(Approved(c, r, patched), s0) && Continues(Approved(c, r, patched), s0, batch)
    ensures After(Approved(c, r, patched), s0, batch) == PatchedEnd(f, r, patched)
  {
    var h := Head(c, s0);
    SameHead(c, Approved(c, r, patched), s0);
    InvHead(c, s0);
    HeadGates(c, s0);
    NothingSkipped(c, s0);
    forall k | k in batch
      ensures k !in h.completed && r !in c.steps[k].dependsOn
    {
      assert k in h.launched;
    }
    PatchedCollect(c, r, patched, h, h, batch);
  }

  // ---------------------------------------------------------------- the resumed call follows the approved one

  /** The approved call's state `u` is the resumed call's state `t` on top of what the paused call left, `f`. */
  ghost predicate OnTopOf(f: State, u: State, t: State) {
    && u.pending == t.pending && u.inflight == t.inflight && u.completed == t.completed
    && u.results == t.results
    && u.failed == f.failed + t.failed && u.skipped == f.skipped + t.skipped
    && u.failures == f.failures + t.failures
    && u.launched == f.launched + t.launched
    && !u.abort && !t.abort && u.paused.None? && t.paused.None?
  }

  /** `d` is the approved call and `e` the resumed one: they agree on every step `e` may still run. */
  ghost predicate SameSteps(d: Call, e: Call) {
    && Lenient(d) && Lenient(e) && d.params == e.params
    && e.steps.Keys <= d.steps.Keys
    && (forall k :: k in e.steps ==> e.steps[k] == d.steps[k])
    && (forall k, seen :: k in e.steps ==> d.exec(e.steps[k], seen) == e.exec(e.steps[k], seen))
    && (forall k, seen :: k in e.steps && e.exec(e.steps[k], seen).Output? ==>
                            !Pauses(e.steps[k], e.exec(e.steps[k], seen).value))
  }

  lemma HeadOnTop(d: Call, e: Call, f: State, u: State, t: State)
    requires SameSteps(d, e) && OnTopOf(f, u, t) && Known(e, t)
    ensures Known(d, u) && OnTopOf(f, Head(d, u), Head(e, t))
  {
    NothingSkipped(d, u);
    NothingSkipped(e, t);
    assert ReadyKeys(d, u) == ReadyKeys(e, t);
    assert f.launched + t.launched + multiset(ReadyKeys(e, t)) == f.launched + (t.launched + multiset(ReadyKeys(e, t)));
  }

  lemma FinishOnTop(d: Call, e: Call, f: State, u: State, t: State, k: Key)
    requires SameSteps(d, e) && OnTopOf(f, u, t) && k in e.steps
    ensures OnTopOf(f, Finish(d, u, k), Finish(e, t, k))
  {
    var o := e.exec(e.steps[k], t.results);
    if !o.Output? {
      assert (f.failures + t.failures)[k := ErrorText(e.steps[k], o)] ==
             f.failures + t.failures[k := ErrorText(e.steps[k], o)];
    }
  }

  lemma {:induction false} CollectOnTop(d: Call, e: Call, f: State, u: State, t: State, batch: seq<Key>)
    requires SameSteps(d, e) && OnTopOf(f, u, t) && forall k :: k in batch ==> k in e.steps && k in d.steps
    ensures OnTopOf(f, Collect(d, u, batch), Collect(e, t, batch))
    decreases |batch|
  {
    if batch != [] {
      FinishOnTop(d, e, f, u, t, batch[0]);
      CollectOnTop(d, e, f, Finish(d, u, batch[0]), Finish(e, t, batch[0]), batch[1..]);
    }
  }

  lemma {:induction false} EndsOnTop(
      d: Call, e: Call, f: State, u: State, t: State, schedule: seq<seq<Key>>, ft: State) returns (fu: State)
    requires SameSteps(d, e) && OnTopOf(f, u, t) && Ends(e, t, schedule, ft)
    ensures Ends(d, u, schedule, fu) && OnTopOf(f, fu, ft)
    decreases |schedule|
  {
    HeadOnTop(d, e, f, u, t);
    if t.pending == {} && t.inflight == {} {
      fu := u;
    } else if Head(e, t).inflight == {} {
      fu := Head(d, u);
    } else {
      RoundOnTop(d, e, f, u, t, schedule[0]);
      fu := EndsOnTop(d, e, f, After(d, u, schedule[0]), After(e, t, schedule[0]), schedule[1..], ft);
      EndsCons(d, u, schedule[0], schedule[1..], fu);
      assert schedule == [schedule[0]] + schedule[1..];
    }
  }

  lemma RoundOnTop(d: Call, e: Call, f: State, u: State, t: State, batch: seq<Key>)
    requires SameSteps(d, e) && OnTopOf(f, u, t) && Known(e, t) && LoopOn(t) && ValidBatch(Head(e, t), batch)
    ensures Known(d, u) && (forall k :: k in batch ==> k in e.steps && k in d.steps)
    ensures OnTopOf(f, After(d, u, batch), After(e, t, batch)) && Continues(d, u, batch)
  {
    HeadOnTop(d, e, f, u, t);
    CollectOnTop(d, e, f, Head(d, u), Head(e, t), batch);
  }

  // ---------------------------------------------------------------- the theorem

  lemma ResumedStartsOnTop(c: Call, r: Key, patched: Value, f: State)
    requires ValidCall(c) && Lenient(c) && OnlyPauses(c, r)
    requires Inv(c, f) && f.inflight == {} && !f.abort && AwaitsReviewKey(c, f, r)
    ensures OnTopOf(f, PatchedEnd(f, r, patched), Init(Resumed(c, f, r, patched)))
    ensures SameSteps(Approved(c, r, patched), Resumed(c, f, r, patched))
  {
    var e := Resumed(c, f, r, patched);
    assert e.steps.Keys == f.pending;
    assert f.failures + map[] == f.failures;
    assert f.launched + multiset{} == f.launched;
    assert f.failed + {} == f.failed && f.skipped + {} == f.skipped;
  }

  /**
   Resume simulates one run. Under best_effort, when only `r` pauses and only its
   dependents look at its result, let one call end paused and let the next one, seeded with the first one's patched
   results and completed keys, end as well. Then some uninterrupted run of the
   call in which `r` answers the patched output ends with the second call's
   results and completed keys, with the failures of both, having launched exactly
   what the two launched; and no step was launched twice.
   */
  lemma ResumeSimulatesOneRun(
      c: Call, r: Key, patched: Value, sched1: seq<seq<Key>>, f1: State, sched2: seq<seq<Key>>, f2: State)
      returns (schedule: seq<seq<Key>>, f: State)
    requires ValidCall(c) && Lenient(c) && ReviewReadByDependents(c, r) && OnlyPauses(c, r)
    requires r in c.steps && !Pauses(c.steps[r], patched)
    requires Ends(c, Init(c), sched1, f1) && f1.paused.Some?
    requires Ends(Resumed(c, f1, r, patched), Init(Resumed(c, f1, r, patched)), sched2, f2)
    ensures Ends(Approved(c, r, patched), Init(Approved(c, r, patched)), schedule, f)
    ensures f.results == f2.results && f.completed == f2.completed && f.pending == f2.pending
    ensures f.failed == f1.failed + f2.failed && f.failures == f1.failures + f2.failures
    ensures f.launched == f1.launched + f2.launched
    ensures forall k :: f1.launched[k] + f2.launched[k] <= 1
    ensures f2.paused.None? && f.paused.None?
  {
    var first := ApprovedReachesEnd(c, r, patched, sched1, f1);
    f := RunOnTop(c, r, patched, f1, sched2, f2);
    schedule := JoinRuns(Approved(c, r, patched), first, PatchedEnd(f1, r, patched), sched2, f);
    SumOfLaunches(f1.launched, f2.launched, f.launched);
  }

  lemma ResumedIsValid(c: Call, f1: State, r: Key, patched: Value)
    requires ValidCall(c)
    ensures ValidCall(Resumed(c, f1, r, patched))
  {
  }

  /**
   No step runs twice across a pause, for every policy, any number of reviews and
   whatever executors and conditions read: the one way a step can is that fail_fast
   abandoned it in flight.
   */
  lemma NoStepRunsTwice(
      c: Call, sched1: seq<seq<Key>>, f1: State, r: Key, patched: Value, sched2: seq<seq<Key>>, f2: State, k: Key)
    requires ValidCall(c) && Ends(c, Init(c), sched1, f1)
    requires Ends(Resumed(c, f1, r, patched), Init(Resumed(c, f1, r, patched)), sched2, f2)
    ensures f1.launched[k] <= 1 && f2.launched[k] <= 1
    ensures k in f1.launched && k in f2.launched ==> f1.abort && k !in f1.completed
  {
    var e := Resumed(c, f1, r, patched);
    ResumedIsValid(c, f1, r, patched);
    InvInit(c);
    InvEnds(c, Init(c), sched1, f1);
    InvInit(e);
    InvEnds(e, Init(e), sched2, f2);
  }

  lemma SumOfLaunches(a: multiset<Key>, b: multiset<Key>, sum: multiset<Key>)
    requires sum == a + b && forall k :: sum[k] <= 1
    ensures forall k :: a[k] + b[k] <= 1
  {
    forall k
      ensures a[k] + b[k] <= 1
    {
      assert sum[k] == a[k] + b[k];
    }
  }

  lemma RunOnTop(c: Call, r: Key, patched: Value, f1: State, sched2: seq<seq<Key>>, f2: State) returns (f: State)
    requires ValidCall(c) && Lenient(c) && OnlyPauses(c, r)
    requires Inv(c, f1) && f1.inflight == {} && !f1.abort && AwaitsReviewKey(c, f1, r)
    requires Ends(Resumed(c, f1, r, patched), Init(Resumed(c, f1, r, patched)), sched2, f2)
    ensures Ends(Approved(c, r, patched), PatchedEnd(f1, r, patched), sched2, f)
    ensures OnTopOf(f1, f, f2)
  {
    var d, e := Approved(c, r, patched), Resumed(c, f1, r, patched);
    ResumedStartsOnTop(c, r, patched, f1);
    f := EndsOnTop(d, e, f1, PatchedEnd(f1, r, patched), Init(e), sched2, f2);
  }

  lemma JoinRuns(d: Call, first: seq<seq<Key>>, u: State, rest: seq<seq<Key>>, f: State)
      returns (schedule: seq<seq<Key>>)
    requires ValidCall(d) && Reaches(d, Init(d), first, u) && Ends(d, u, rest, f)
    ensures Ends(d, Init(d), schedule, f)
    ensures forall k :: f.launched[k] <= 1
  {
    ReachesThenEnds(d, Init(d), first, u, rest, f);
    schedule := first + rest;
    InvInit(d);
    InvEnds(d, Init(d), schedule, f);
  }

  /**
   With local outcomes the pause is invisible: every uninterrupted run of the
   approved call, whatever its schedule, ends with the resumed call's results.
   */
  lemma ResumeIsInvisible(
      c: Call, r: Key, patched: Value, sched1: seq<seq<Key>>, f1: State, sched2: seq<seq<Key>>, f2: State,
      schedule: seq<seq<Key>>, f: State)
    requires Local(c) && Lenient(c) && OnlyPauses(c, r)
    requires r in c.steps && !Pauses(c.steps[r], patched)
    requires Ends(c, Init(c), sched1, f1) && f1.paused.Some?
    requires Ends(Resumed(c, f1, r, patched), Init(Resumed(c, f1, r, patched)), sched2, f2)
    requires Ends(Approved(c, r, patched), Init(Approved(c, r, patched)), schedule, f) && f.paused.None?
    ensures f.results == f2.results && f.completed == f2.completed
    ensures f.failed == f1.failed + f2.failed && f.failures == f1.failures + f2.failures
  {
    LocalReadsDependencies(c, r);
    var sched, g := ResumeSimulatesOneRun(c, r, patched, sched1, f1, sched2, f2);
    ApprovedIsLocal(c, r, patched);
    ScheduleIndependence.ScheduleIndependence(Approved(c, r, patched), sched, g, schedule, f);
  }

  lemma LocalReadsDependencies(c: Call, r: Key)
    requires Local(c)
    ensures ReviewReadByDependents(c, r)
  {
    forall k, r1, r2 | k in c.steps && k != r && r !in c.steps[k].dependsOn && SameButFor(r, r1, r2)
      ensures c.exec(c.steps[k], r1) == c.exec(c.steps[k], r2)
    {
      forall d | d in Deps(c.steps[k])
        ensures (d in r1 <==> d in r2) && (d in r1 ==> r1[d] == r2[d])
      {
        assert r1[r := r2[r]].Keys == r2.Keys;
        assert d in r1 ==> r1[r := r2[r]][d] == r1[d];
      }
      assert AgreeOn(r1, r2, Deps(c.steps[k]));
    }
  }

  lemma ApprovedIsLocal(c: Call, r: Key, patched: Value)
    requires Local(c)
    ensures Local(Approved(c, r, patched))
  {
    var d := Approved(c, r, patched);
    forall k, r1, r2 | k in d.steps && AgreeOn(r1, r2, Deps(d.steps[k]))
      ensures d.exec(d.steps[k], r1) == d.exec(d.steps[k], r2)
    {
      assert c.exec(c.steps[k], r1) == c.exec(c.steps[k], r2);
    }
  }
}
