/**
 What a pending human review holds back. Once a review step answers
 pending_human_review nothing more is handed to the pool in that call, and no
 step that waits for the review can have been handed to it before.
 */
module HumanGate {
  import opened Wrappers
  import opened Json
  import opened Conditions
  import opened Plans
  import opened PlanInvariants

  /** Step `r` succeeded in this call with an output that asks for a human decision. */
  predicate AwaitsReview(c: Call, s: State, r: Key) {
    r in c.steps && r in Succeeded(c, s) && r in s.results && Pauses(c.steps[r], s.results[r])
  }

  ghost predicate GateInv(c: Call, s: State) {
    && (forall k :: k in s.launched && k in c.steps ==> DependsOnlyOn(c.steps[k], s.completed))
    && (forall r :: AwaitsReview(c, s, r) ==> s.paused.Some?)
    && (s.paused.Some? ==> AwaitsReview(c, s, s.paused.value))
    && forall r, k :: AwaitsReview(c, s, r) && k in c.steps && r in c.steps[k].dependsOn ==> k !in s.launched
  }

  lemma SkipGates(c: Call, s: State)
    requires ValidCall(c) && Inv(c, s) && GateInv(c, s) && !s.abort
    ensures GateInv(c, SkipDoomed(c, s))
  {
    SkipKeepsPlaces(c, s);
    assert forall r :: AwaitsReview(c, SkipDoomed(c, s), r) <==> AwaitsReview(c, s, r);
  }

  lemma LaunchGates(c: Call, s: State)
    requires ValidCall(c) && Inv(c, s) && GateInv(c, s) && !s.abort
    ensures GateInv(c, Launch(c, s))
  {
    LaunchKeepsPlaces(c, s);
    var t := Launch(c, s);
    assert forall r :: AwaitsReview(c, t, r) <==> AwaitsReview(c, s, r);
    assert forall k :: k in t.launched <==> k in s.launched || k in ReadyKeys(c, s);
  }

  lemma FinishGates(c: Call, s: State, j: Key)
    requires ValidCall(c) && Inv(c, s) && GateInv(c, s) && !s.abort && j in s.inflight
    ensures GateInv(c, Finish(c, s, j))
  {
    FinishKeepsPlaces(c, s, j);
    var t := Finish(c, s, j);
    forall r | AwaitsReview(c, t, r)
      ensures t.paused.Some?
      ensures forall k :: k in c.steps && r in c.steps[k].dependsOn ==> k !in t.launched
    {
      if r != j {
        assert AwaitsReview(c, s, r);
      }
    }
  }

  lemma {:induction false} CollectGates(c: Call, s: State, batch: seq<Key>)
    requires ValidCall(c) && Inv(c, s) && GateInv(c, s) && Distinct(batch)
    requires forall k :: k in batch ==> k in c.steps
    requires !s.abort ==> forall k :: k in batch ==> k in s.inflight
    ensures GateInv(c, Collect(c, s, batch))
    decreases |batch|
  {
    if batch != [] && !s.abort {
      FinishGates(c, s, batch[0]);
      InvFinish(c, s, batch[0]);
      CollectGates(c, Finish(c, s, batch[0]), batch[1..]);
    }
  }

  lemma AfterGates(c: Call, s: State, batch: seq<Key>)
    requires ValidCall(c) && Inv(c, s) && GateInv(c, s) && !s.abort && ValidBatch(Head(c, s), batch)
    ensures Inv(c, After(c, s, batch)) && GateInv(c, Head(c, s)) && GateInv(c, After(c, s, batch))
  {
    HeadGates(c, s);
    InvHead(c, s);
    InvAfter(c, s, batch);
    CollectGates(c, Head(c, s), batch);
  }

  lemma HeadGates(c: Call, s: State)
    requires ValidCall(c) && Inv(c, s) && GateInv(c, s) && !s.abort
    ensures GateInv(c, Head(c, s))
  {
    SkipGates(c, s);
    InvSkip(c, s);
    LaunchGates(c, SkipDoomed(c, s));
  }

  lemma {:induction false} EndsGated(c: Call, s: State, schedule: seq<seq<Key>>, f: State)
    requires ValidCall(c) && Inv(c, s) && GateInv(c, s) && Ends(c, s, schedule, f)
    ensures Inv(c, f) && GateInv(c, f)
    decreases |schedule|
  {
    InvEnds(c, s, schedule, f);
    if LoopOn(s) {
      HeadGates(c, s);
      if Head(c, s).inflight != {} {
        AfterGates(c, s, schedule[0]);
        if !PauseReached(After(c, s, schedule[0])) {
          EndsGated(c, After(c, s, schedule[0]), schedule[1..], f);
        }
      }
    } else if s.abort {
      assert forall r :: AwaitsReview(c, f, r) <==> AwaitsReview(c, s, r);
    }
  }

  // ---------------------------------------------------------------- nothing is submitted afterwards

  lemma {:induction false} CollectLaunchesNothing(c: Call, s: State, batch: seq<Key>)
    requires forall k :: k in batch ==> k in c.steps
    ensures Collect(c, s, batch).launched == s.launched
    ensures s.paused.Some? ==> Collect(c, s, batch).paused.Some?
    decreases |batch|
  {
    if batch != [] && !s.abort {
      CollectLaunchesNothing(c, Finish(c, s, batch[0]), batch[1..]);
    }
  }

  lemma PausedHead(c: Call, s: State)
    requires Known(c, s) && s.paused.Some?
    ensures Head(c, s).launched == s.launched && Head(c, s).inflight == s.inflight && Head(c, s).paused == s.paused
  {
    assert ReadyKeys(c, SkipDoomed(c, s)) == {};
  }

  lemma {:induction false} PausedLaunchesNothing(c: Call, s: State, schedule: seq<seq<Key>>, f: State)
    requires s.paused.Some? && Ends(c, s, schedule, f)
    ensures f.launched == s.launched && f.paused.Some?
    decreases |schedule|
  {
    if LoopOn(s) {
      PausedHead(c, s);
      if Head(c, s).inflight != {} {
        CollectLaunchesNothing(c, Head(c, s), schedule[0]);
        if !PauseReached(After(c, s, schedule[0])) {
          PausedLaunchesNothing(c, After(c, s, schedule[0]), schedule[1..], f);
        }
      }
    }
  }

  /**
   From the round that collects a pending review on, nothing is submitted: all
   that ever runs in the call was handed out before `wait` returned the review.
   */
  lemma NothingSubmittedAfterReview(c: Call, s: State, batch: seq<Key>, rest: seq<seq<Key>>, f: State)
    requires Ends(c, s, [batch] + rest, f)
    requires forall k :: k in batch ==> k in c.steps
    requires After(c, s, batch).paused.Some?
    ensures f.launched == Head(c, s).launched
  {
    var all := [batch] + rest;
    assert all[0] == batch && all[1..] == rest;
    CollectLaunchesNothing(c, Head(c, s), batch);
    if !PauseReached(After(c, s, batch)) {
      PausedLaunchesNothing(c, After(c, s, batch), rest, f);
    }
  }

  // ---------------------------------------------------------------- nothing behind the review started

  /** No direct dependent of a pending review starts, under any policy and schedule. */
  lemma DirectDependentsWait(c: Call, schedule: seq<seq<Key>>, f: State, r: Key, k: Key)
    requires ValidCall(c) && Ends(c, Init(c), schedule, f) && AwaitsReview(c, f, r)
    requires k in c.steps && r in c.steps[k].dependsOn
    ensures k !in f.launched && f.paused.Some?
  {
    InvInit(c);
    EndsGated(c, Init(c), schedule, f);
  }

  /** `path` leads from a step through depends_on to another. */
  predicate DependencyPath(c: Call, path: seq<Key>) {
    |path| >= 2 && forall i :: 0 <= i < |path| - 1 ==> path[i] in c.steps && path[i + 1] in c.steps[path[i]].dependsOn
  }

  /**
   Under every policy, a step from which the review can be reached starts only
   if the path leads through a step that was skipped or seeded: that is the
   whole extent to which dependent_fail lets work slip past a review.
   */
  lemma {:induction false} PathsToReviewWait(c: Call, f: State, path: seq<Key>)
    requires ValidCall(c) && Inv(c, f) && GateInv(c, f)
    requires DependencyPath(c, path) && AwaitsReview(c, f, path[|path| - 1])
    requires forall i :: 0 < i < |path| - 1 ==> path[i] !in c.seedKeys && path[i] !in f.skipped
    ensures path[0] !in f.launched
    decreases |path|
  {
    if |path| > 2 {
      var tail := path[1..];
      assert forall i :: 0 <= i < |tail| ==> tail[i] == path[i + 1];
      PathsToReviewWait(c, f, tail);
      assert path[1] in c.steps[path[0]].dependsOn;
    }
  }

  /**
   Under best_effort, fail_fast and unrecognised policies no step from which the
   pending review is reachable starts, unless the path leads through a seeded key;
   a fresh call has none.
   */
  lemma NothingBehindReviewStarts(c: Call, schedule: seq<seq<Key>>, f: State, path: seq<Key>)
    requires ValidCall(c) && !c.policy.DependentFail? && Ends(c, Init(c), schedule, f)
    requires DependencyPath(c, path) && AwaitsReview(c, f, path[|path| - 1])
    requires forall i :: 0 < i < |path| - 1 ==> path[i] !in c.seedKeys
    ensures path[0] !in f.launched
  {
    InvInit(c);
    EndsGated(c, Init(c), schedule, f);
    PathsToReviewWait(c, f, path);
  }

  // ---------------------------------------------------------------- dependent_fail does let a step past

  /** Review `r` and failing step `a`; `m` waits for both and `k` waits for `m`. */
  ghost predicate Bypass(c: Call, r: Key, a: Key, m: Key, k: Key, pending: Value, text: string) {
    && ValidCall(c) && c.policy.DependentFail? && c.seedKeys == {}
    && r != a && r != m && r != k && a != m && a != k && m != k
    && c.steps.Keys == {r, a, m, k}
    && c.steps[r].dependsOn == [] && c.steps[a].dependsOn == []
    && c.steps[m].dependsOn == [r, a] && c.steps[k].dependsOn == [m]
    && (forall s :: s in c.steps ==> c.steps[s].condition == Always)
    && Pauses(c.steps[r], pending)
    && (forall seen :: c.exec(c.steps[r], seen) == Output(pending))
    && (forall seen :: c.exec(c.steps[a], seen) == FailedResult(text))
    && (forall seen :: c.exec(c.steps[k], seen) == Output(Null))
  }

  lemma NothingDoomed(c: Call, s: State)
    requires Known(c, s) && forall k :: k in s.pending ==> !DependsOnAny(c.steps[k], s.failed)
    ensures SkipDoomed(c, s) == s
  {
    assert DoomedKeys(c, s) == {};
    assert s.failures + SkipTexts(DoomedKeys(c, s)) == s.failures;
  }

  function BypassStart(c: Call, r: Key, a: Key, m: Key, k: Key): State {
    State({m, k}, {r, a}, {}, {}, {}, c.seedResults, map[], false, None, multiset{r, a})
  }

  /** After `a` failed. */
  function BypassFailed(c: Call, r: Key, a: Key, m: Key, k: Key, text: string): State {
    State({m, k}, {r}, {a}, {a}, {}, c.seedResults, map[a := text], false, None, multiset{r, a})
  }

  /** After `m` was skipped and `k` handed out, with the review still running. */
  function BypassOpen(c: Call, r: Key, a: Key, m: Key, k: Key, text: string): State {
    State({}, {r, k}, {a, m}, {a}, {m}, c.seedResults, map[a := text, m := SKIP_TEXT], false, None, multiset{r, a, k})
  }

  lemma BypassFirstHead(c: Call, r: Key, a: Key, m: Key, k: Key, pending: Value, text: string)
    requires Bypass(c, r, a, m, k, pending, text)
    ensures Head(c, Init(c)) == BypassStart(c, r, a, m, k)
  {
    var s := Init(c);
    NothingDoomed(c, s);
    BypassFirstReady(c, r, a, m, k, pending, text);
    assert {r, a, m, k} - {r, a} == {m, k};
    assert multiset{} + multiset({r, a}) == multiset{r, a};
  }

  lemma BypassFirstReady(c: Call, r: Key, a: Key, m: Key, k: Key, pending: Value, text: string)
    requires Bypass(c, r, a, m, k, pending, text)
    ensures ReadyKeys(c, Init(c)) == {r, a}
  {
    assert r in c.steps[m].dependsOn && m in c.steps[k].dependsOn;
  }

  lemma BypassFirstRound(c: Call, r: Key, a: Key, m: Key, k: Key, pending: Value, text: string)
    requires Bypass(c, r, a, m, k, pending, text)
    ensures Continues(c, Init(c), [a]) && After(c, Init(c), [a]) == BypassFailed(c, r, a, m, k, text)
  {
    BypassFirstHead(c, r, a, m, k, pending, text);
    var h := BypassStart(c, r, a, m, k);
    CollectOne(c, h, a);
    assert Finish(c, h, a) == BypassFailed(c, r, a, m, k, text);
    assert m in Init(c).pending;
  }

  lemma BypassSkips(c: Call, r: Key, a: Key, m: Key, k: Key, pending: Value, text: string)
    requires Bypass(c, r, a, m, k, pending, text)
    ensures Known(c, BypassFailed(c, r, a, m, k, text))
    ensures SkipDoomed(c, BypassFailed(c, r, a, m, k, text)) ==
            State({k}, {r}, {a, m}, {a}, {m}, c.seedResults, map[a := text, m := SKIP_TEXT],
                  false, None, multiset{r, a})
  {
    var s := BypassFailed(c, r, a, m, k, text);
    assert a in c.steps[m].dependsOn;
    assert DoomedKeys(c, s) == {m};
    assert s.failures + SkipTexts(DoomedKeys(c, s)) == map[a := text, m := SKIP_TEXT];
  }

  lemma BypassSecondHead(c: Call, r: Key, a: Key, m: Key, k: Key, pending: Value, text: string)
    requires Bypass(c, r, a, m, k, pending, text)
    ensures Known(c, BypassFailed(c, r, a, m, k, text))
    ensures Head(c, BypassFailed(c, r, a, m, k, text)) == BypassOpen(c, r, a, m, k, text)
  {
    BypassSkips(c, r, a, m, k, pending, text);
    assert ReadyKeys(c, SkipDoomed(c, BypassFailed(c, r, a, m, k, text))) == {k};
  }

  lemma BypassPauses(c: Call, r: Key, a: Key, m: Key, k: Key, pending: Value, text: string)
    requires Bypass(c, r, a, m, k, pending, text)
    ensures var f := Finish(c, Finish(c, BypassOpen(c, r, a, m, k, text), r), k);
            PauseReached(f) && AwaitsReview(c, f, r) && k in f.launched
  {
    assert Finish(c, BypassOpen(c, r, a, m, k, text), r).results[r] == pending;
  }

  lemma BypassSecondRound(c: Call, r: Key, a: Key, m: Key, k: Key, pending: Value, text: string) returns (f: State)
    requires Bypass(c, r, a, m, k, pending, text)
    ensures Ends(c, BypassFailed(c, r, a, m, k, text), [[r, k]], f)
    ensures AwaitsReview(c, f, r) && k in f.launched
  {
    BypassSecondHead(c, r, a, m, k, pending, text);
    var h := BypassOpen(c, r, a, m, k, text);
    CollectTwo(c, h, r, k);
    f := Finish(c, Finish(c, h, r), k);
    BypassPauses(c, r, a, m, k, pending, text);
    EndsPaused(c, BypassFailed(c, r, a, m, k, text), [r, k]);
  }

  /**
   Under dependent_fail the reachability claim is false, for every call of this
   shape: the failure of `a` skips `m`, which counts as finished, and so `k`,
   which waits for `m`, runs although `m` waits for the review that is pending.
   `ReviewGate` says for which plans this can happen.
   */
  lemma SkippingSlipsPastReview(c: Call, r: Key, a: Key, m: Key, k: Key, pending: Value, text: string)
      returns (schedule: seq<seq<Key>>, f: State)
    requires Bypass(c, r, a, m, k, pending, text)
    ensures Ends(c, Init(c), schedule, f) && AwaitsReview(c, f, r)
    ensures DependencyPath(c, [k, m, r]) && k in f.launched
  {
    f := BypassSecondRound(c, r, a, m, k, pending, text);
    BypassJoin(c, r, a, m, k, pending, text, [[r, k]], f);
    schedule := [[a]] + [[r, k]];
  }

  lemma BypassJoin(c: Call, r: Key, a: Key, m: Key, k: Key, pending: Value, text: string, rest: seq<seq<Key>>, f: State)
    requires Bypass(c, r, a, m, k, pending, text)
    requires Ends(c, BypassFailed(c, r, a, m, k, text), rest, f)
    ensures Ends(c, Init(c), [[a]] + rest, f)
  {
    BypassFirstRound(c, r, a, m, k, pending, text);
    EndsCons(c, Init(c), [a], rest, f);
  }

  function DemoExec(step: Step, seen: Env): Outcome {
    if step.key == "r" then Output(Dict(map["status" := Str("pending_human_review")]))
    else if step.key == "a" then FailedResult("down")
    else Output(Null)
  }

  /** A call of that shape. */
  function ReviewDemo(): Call {
    Call(map["r" := Step("r", "human_review", [], Always, true),
             "a" := Step("a", "sql", [], Always, true),
             "m" := Step("m", "sql", ["r", "a"], Always, true),
             "k" := Step("k", "sql", ["m"], Always, true)],
         DependentFail, map[], {}, map[], DemoExec)
  }

  lemma ReviewDemoIsABypass()
    ensures Bypass(ReviewDemo(), "r", "a", "m", "k", Dict(map["status" := Str("pending_human_review")]), "down")
  {
    var v := Dict(map["status" := Str("pending_human_review")]);
    assert v.fields["status"] == Str("pending_human_review");
    assert "r"[0] != "a"[0] && "r"[0] != "m"[0] && "r"[0] != "k"[0];
    assert "a"[0] != "m"[0] && "a"[0] != "k"[0] && "m"[0] != "k"[0];
  }
}
