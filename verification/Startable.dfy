/**
 Which steps can start under dependent_fail. The answer is a property of the plan
 alone: a set of keys is held back by a choice of failing steps when each of them
 waits inside the set and no failed step outside the set gets it skipped. A step
 of a call without conditions starts in some run, for some behaviour of the
 executors, exactly when some choice of failing steps holds back no set with it.
 */
module Startable {
  import opened Json
  import opened Conditions
  import opened Plans
  import opened PlanInvariants
  import opened Progress
  import opened HumanGate

  /** Steps that can all fail in one call: none is skipped because of another. */
  ghost predicate CanFail(c: Call, failing: set<Key>) {
    failing <= c.steps.Keys && forall k :: k in failing ==> !DependsOnAny(c.steps[k], failing)
  }

  /** `x` waits for one of `keys`, and whatever failing step it depends on is one of them. */
  predicate StaysBack(c: Call, failing: set<Key>, keys: set<Key>, x: Key) {
    x !in c.seedKeys &&
    (x in c.steps ==>
      DependsOnAny(c.steps[x], keys) && forall j :: j in c.steps[x].dependsOn && j in failing ==> j in keys)
  }

  /** If exactly `failing` fail and `held` do not finish, none of `keys` finishes. */
  ghost predicate HoldsBack(c: Call, failing: set<Key>, held: set<Key>, keys: set<Key>) {
    forall x :: x in keys ==> x in held || StaysBack(c, failing, keys, x)
  }

  ghost predicate MayStart(c: Call, failing: set<Key>, held: set<Key>, k: Key) {
    && k in c.steps && !DependsOnAny(c.steps[k], failing)
    && forall keys :: HoldsBack(c, failing, held, keys) ==> k !in keys
  }

  ghost predicate CanStart(c: Call, k: Key) {
    exists failing :: CanFail(c, failing) && MayStart(c, failing, {}, k)
  }

  // ---------------------------------------------------------------- what a run has done it keeps

  ghost predicate Grown(s: State, f: State) {
    && s.completed <= f.completed && s.failed <= f.failed && s.skipped <= f.skipped
    && (forall k :: k in s.launched ==> k in f.launched)
    && forall k :: k in s.completed && k in s.results ==> k in f.results && f.results[k] == s.results[k]
  }

  lemma HeadGrows(c: Call, s: State)
    requires Known(c, s)
    ensures Grown(s, Head(c, s))
  {
  }

  lemma {:induction false} CollectGrows(c: Call, s: State, batch: seq<Key>)
    requires Distinct(batch) && forall k :: k in batch ==> k in c.steps && k !in s.completed
    ensures Grown(s, Collect(c, s, batch))
    decreases |batch|
  {
    if batch != [] && !s.abort {
      CollectGrows(c, Finish(c, s, batch[0]), batch[1..]);
    }
  }

  lemma {:induction false} EndsGrows(c: Call, s: State, schedule: seq<seq<Key>>, f: State)
    requires ValidCall(c) && Inv(c, s) && Ends(c, s, schedule, f)
    ensures Grown(s, f) && (LoopOn(s) ==> Grown(Head(c, s), f))
    decreases |schedule|
  {
    if LoopOn(s) {
      var h := Head(c, s);
      InvHead(c, s);
      HeadGrows(c, s);
      if h.inflight != {} {
        InvAfter(c, s, schedule[0]);
        CollectGrows(c, h, schedule[0]);
        if !PauseReached(After(c, s, schedule[0])) {
          EndsGrows(c, After(c, s, schedule[0]), schedule[1..], f);
        }
      }
    }
  }

  /** A step that started has no failed dependency, a skipped step has one. */
  ghost predicate FailureInv(c: Call, s: State) {
    && c.policy.DependentFail?
    && (forall k :: k in s.launched && k in c.steps ==> !DependsOnAny(c.steps[k], s.failed))
    && forall k :: k in s.skipped && k in c.steps ==> DependsOnAny(c.steps[k], s.failed)
  }

  lemma HeadFailures(c: Call, s: State)
    requires Known(c, s) && FailureInv(c, s)
    ensures FailureInv(c, Head(c, s))
  {
    var m := SkipDoomed(c, s);
    assert forall k :: k in Head(c, s).launched ==> k in s.launched || (k in s.pending && k !in DoomedKeys(c, s));
  }

  lemma FinishFailures(c: Call, s: State, j: Key)
    requires ValidCall(c) && Inv(c, s) && GateInv(c, s) && FailureInv(c, s) && j in s.inflight
    ensures FailureInv(c, Finish(c, s, j))
  {
  }

  lemma {:induction false} CollectFailures(c: Call, s: State, batch: seq<Key>)
    requires ValidCall(c) && Inv(c, s) && GateInv(c, s) && FailureInv(c, s) && Distinct(batch)
    requires forall k :: k in batch ==> k in c.steps
    requires !s.abort ==> forall k :: k in batch ==> k in s.inflight
    ensures FailureInv(c, Collect(c, s, batch))
    decreases |batch|
  {
    if batch != [] && !s.abort {
      InvFinish(c, s, batch[0]);
      FinishGates(c, s, batch[0]);
      FinishFailures(c, s, batch[0]);
      CollectFailures(c, Finish(c, s, batch[0]), batch[1..]);
    }
  }

  lemma {:induction false} EndsFailures(c: Call, s: State, schedule: seq<seq<Key>>, f: State)
    requires ValidCall(c) && Inv(c, s) && GateInv(c, s) && FailureInv(c, s) && Ends(c, s, schedule, f)
    ensures FailureInv(c, f)
    decreases |schedule|
  {
    if LoopOn(s) {
      HeadFailures(c, s);
      if Head(c, s).inflight != {} {
        InvHead(c, s);
        AfterGates(c, s, schedule[0]);
        CollectFailures(c, Head(c, s), schedule[0]);
        if !PauseReached(After(c, s, schedule[0])) {
          EndsFailures(c, After(c, s, schedule[0]), schedule[1..], f);
        }
      }
    }
  }

  lemma StartFacts(c: Call)
    requires ValidCall(c)
    ensures Inv(c, Init(c)) && GateInv(c, Init(c))
    ensures c.policy.DependentFail? ==> FailureInv(c, Init(c))
  {
    InvInit(c);
    assert Succeeded(c, Init(c)) == {};
  }

  lemma EndFacts(c: Call, schedule: seq<seq<Key>>, f: State)
    requires ValidCall(c) && c.policy.DependentFail? && Ends(c, Init(c), schedule, f)
    ensures Inv(c, f) && f.inflight == {} && GateInv(c, f) && FailureInv(c, f)
  {
    StartFacts(c);
    InvEnds(c, Init(c), schedule, f);
    EndsGated(c, Init(c), schedule, f);
    EndsFailures(c, Init(c), schedule, f);
  }

  // ---------------------------------------------------------------- what is held back does not start

  /** Reviews that are pending in the end finish in the round that pauses, not before. */
  lemma HeldIsOpen(c: Call, s: State, f: State, x: Key)
    requires Inv(c, s) && GateInv(c, s) && Grown(s, f) && AwaitsReview(c, f, x) && x in s.completed
    ensures s.paused.Some?
  {
    assert AwaitsReview(c, s, x);
  }

  /** Where the run is, seen from its end: nothing of `keys` but pending reviews has been touched. */
  ghost predicate BackSoFar(c: Call, s: State, f: State, held: set<Key>, keys: set<Key>) {
    && Inv(c, s) && GateInv(c, s) && !s.abort && Grown(s, f) && HoldsBack(c, f.failed, held, keys)
    && (forall x :: x in held ==> AwaitsReview(c, f, x)) && Untouched(s, keys - held)
  }

  lemma BackIsNotSkipped(c: Call, s: State, f: State, held: set<Key>, keys: set<Key>, x: Key)
    requires BackSoFar(c, s, f, held, keys) && x in keys - held && x in s.pending
    ensures x !in DoomedKeys(c, s)
  {
    assert StaysBack(c, f.failed, keys, x);
    forall j | j in c.steps[x].dependsOn
      ensures j !in s.failed
    {
      assert j in s.failed ==> j in keys && j in s.completed;
    }
  }

  lemma BackIsNotReady(c: Call, s: State, f: State, held: set<Key>, keys: set<Key>, x: Key)
    requires BackSoFar(c, s, f, held, keys) && Grown(Head(c, s), f) && Untouched(SkipDoomed(c, s), keys - held)
    requires x in keys - held && x in c.steps
    ensures x !in ReadyKeys(c, SkipDoomed(c, s))
  {
    var m := SkipDoomed(c, s);
    assert StaysBack(c, f.failed, keys, x);
    var d :| d in c.steps[x].dependsOn && d in keys;
    if d in m.completed && m.paused.None? {
      assert d in held && d in s.completed;
      HeldIsOpen(c, s, f, d);
    }
  }

  lemma HeadHoldsBack(c: Call, s: State, f: State, held: set<Key>, keys: set<Key>)
    requires BackSoFar(c, s, f, held, keys) && Grown(Head(c, s), f)
    ensures Untouched(Head(c, s), keys - held)
  {
    forall x | x in keys - held && x in s.pending
      ensures x !in DoomedKeys(c, s)
    {
      BackIsNotSkipped(c, s, f, held, keys, x);
    }
    assert Untouched(SkipDoomed(c, s), keys - held);
    forall x | x in keys - held && x in c.steps
      ensures x !in ReadyKeys(c, SkipDoomed(c, s))
    {
      BackIsNotReady(c, s, f, held, keys, x);
    }
  }

  lemma {:induction false} EndsHoldsBack(
      c: Call, s: State, schedule: seq<seq<Key>>, f: State, held: set<Key>, keys: set<Key>)
    requires ValidCall(c) && Inv(c, s) && GateInv(c, s) && Ends(c, s, schedule, f)
    requires HoldsBack(c, f.failed, held, keys)
    requires (forall x :: x in held ==> AwaitsReview(c, f, x)) && Untouched(s, keys - held)
    ensures Untouched(f, keys - held)
    decreases |schedule|
  {
    if LoopOn(s) {
      EndsGrows(c, s, schedule, f);
      HeadHoldsBack(c, s, f, held, keys);
      if Head(c, s).inflight != {} {
        InvHead(c, s);
        CollectLeaves(c, Head(c, s), schedule[0], keys - held);
        AfterGates(c, s, schedule[0]);
        if !PauseReached(After(c, s, schedule[0])) {
          EndsHoldsBack(c, After(c, s, schedule[0]), schedule[1..], f, held, keys);
        }
      }
    }
  }

  /** Every run that starts `k` and leaves the reviews in `held` pending is a choice of failing steps. */
  lemma StartedMayStart(c: Call, schedule: seq<seq<Key>>, f: State, held: set<Key>, k: Key)
    requires ValidCall(c) && c.policy.DependentFail? && Ends(c, Init(c), schedule, f)
    requires (forall x :: x in held ==> AwaitsReview(c, f, x)) && k in f.launched && k !in held
    ensures CanFail(c, f.failed) && MayStart(c, f.failed, held, k)
  {
    EndFacts(c, schedule, f);
    StartFacts(c);
    forall keys | HoldsBack(c, f.failed, held, keys)
      ensures k !in keys
    {
      forall x | x in keys - held
        ensures x !in c.seedKeys
      {
        assert StaysBack(c, f.failed, keys, x);
      }
      EndsHoldsBack(c, Init(c), schedule, f, held, keys);
    }
  }

  // ---------------------------------------------------------------- what is not held back can start

  /** The executors fail exactly the steps in `failing`; those in `held` answer `answer`. */
  ghost predicate Scripted(d: Call, failing: set<Key>, held: set<Key>, answer: Value) {
    && ValidCall(d) && d.policy.DependentFail? && Unconditional(d) && CanFail(d, failing) && held !! failing
    && (forall k :: k in held && k in d.steps ==> !DependsOnAny(d.steps[k], failing))
    && forall k, seen :: k in d.steps ==>
         d.exec(d.steps[k], seen) ==
         if k in failing then FailedResult("") else Output(if k in held then answer else Null)
  }

  function Script(c: Call, failing: set<Key>, held: set<Key>, answer: Value): Executor {
    (step: Step, seen: Env) =>
      if step.key in failing then FailedResult("") else Output(if step.key in held then answer else Null)
  }

  /** The script is followed so far, and nothing in `held` was collected. */
  ghost predicate OnScript(d: Call, s: State, failing: set<Key>, held: set<Key>) {
    && Inv(d, s) && GateInv(d, s) && FailureInv(d, s) && s.paused.None? && !s.abort
    && s.failed <= failing && Succeeded(d, s) !! failing && held !! s.completed
  }

  lemma HeadOnScript(d: Call, s: State, failing: set<Key>, held: set<Key>, answer: Value)
    requires Scripted(d, failing, held, answer) && OnScript(d, s, failing, held)
    ensures OnScript(d, Head(d, s), failing, held)
  {
    InvHead(d, s);
    HeadGates(d, s);
    HeadFailures(d, s);
    SkipKeepsPlaces(d, s);
    InvSkip(d, s);
    LaunchKeepsPlaces(d, SkipDoomed(d, s));
  }

  lemma FinishOnScript(d: Call, h: State, failing: set<Key>, held: set<Key>, answer: Value, k: Key)
    requires Scripted(d, failing, held, answer) && OnScript(d, h, failing, held) && k in h.inflight && k !in held
    ensures OnScript(d, Finish(d, h, k), failing, held)
  {
    InvFinish(d, h, k);
    FinishGates(d, h, k);
    FinishFailures(d, h, k);
    FinishKeepsPlaces(d, h, k);
  }

  lemma ReachesCons(c: Call, s: State, batch: seq<Key>, rest: seq<seq<Key>>, t: State)
    requires Known(c, s) && Continues(c, s, batch) && Reaches(c, After(c, s, batch), rest, t)
    ensures Reaches(c, s, [batch] + rest, t)
  {
    var all := [batch] + rest;
    assert all[0] == batch && all[1..] == rest;
  }

  lemma BusyLoops(d: Call, s: State)
    requires Known(d, s) && !s.abort && Head(d, s).inflight != {}
    ensures LoopOn(s)
  {
    assert ReadyKeys(d, SkipDoomed(d, s)) <= s.pending;
  }

  lemma OneByOne(d: Call, s: State, k: Key)
    requires Known(d, s) && !Head(d, s).abort && k in Head(d, s).inflight && k in d.steps
    ensures ValidBatch(Head(d, s), [k]) && After(d, s, [k]) == Finish(d, Head(d, s), k)
  {
    CollectOne(d, Head(d, s), k);
  }

  lemma RoundOnScript(d: Call, s: State, failing: set<Key>, held: set<Key>, answer: Value, k: Key)
    requires Scripted(d, failing, held, answer) && OnScript(d, s, failing, held)
    requires k in Head(d, s).inflight && k !in held
    ensures Continues(d, s, [k]) && OnScript(d, After(d, s, [k]), failing, held)
    ensures Work(After(d, s, [k])) < Work(s)
  {
    HeadOnScript(d, s, failing, held, answer);
    BusyLoops(d, s);
    OneByOne(d, s, k);
    FinishOnScript(d, Head(d, s), failing, held, answer, k);
    RoundShrinks(d, s, [k]);
  }

  /** Collect everything but `held`, one step at a time. */
  lemma {:induction false} DrainBut(d: Call, s: State, failing: set<Key>, held: set<Key>, answer: Value)
      returns (schedule: seq<seq<Key>>, t: State)
    requires Scripted(d, failing, held, answer) && OnScript(d, s, failing, held)
    ensures Reaches(d, s, schedule, t) && OnScript(d, t, failing, held) && Head(d, t).inflight <= held
    decreases Work(s)
  {
    if k :| k in Head(d, s).inflight && k !in held {
      RoundOnScript(d, s, failing, held, answer, k);
      var rest;
      rest, t := DrainBut(d, After(d, s, [k]), failing, held, answer);
      ReachesCons(d, s, [k], rest, t);
      schedule := [[k]] + rest;
    } else {
      schedule, t := [], s;
    }
  }

  /** What is left then is held back by what is still in flight. */
  lemma LeftIsHeldBack(d: Call, t: State, failing: set<Key>, held: set<Key>, answer: Value)
    requires Scripted(d, failing, held, answer) && OnScript(d, t, failing, held) && Head(d, t).inflight <= held
    ensures HoldsBack(d, failing, Head(d, t).inflight, Mentioned(d) - Head(d, t).completed)
  {
    var h := Head(d, t);
    var left := Mentioned(d) - h.completed;
    HeadOnScript(d, t, failing, held, answer);
    forall x | x in left && x !in h.inflight && x in d.steps
      ensures StaysBack(d, failing, left, x)
    {
      LeftStaysBack(d, t, failing, held, answer, x);
    }
  }

  lemma LeftStaysBack(d: Call, t: State, failing: set<Key>, held: set<Key>, answer: Value, x: Key)
    requires Scripted(d, failing, held, answer)
    requires OnScript(d, t, failing, held) && OnScript(d, Head(d, t), failing, held)
    requires x in d.steps && x !in Head(d, t).completed && x !in Head(d, t).inflight
    ensures StaysBack(d, failing, Mentioned(d) - Head(d, t).completed, x)
  {
    var m, h := SkipDoomed(d, t), Head(d, t);
    assert x in h.pending && x !in ReadyKeys(d, m) && x !in DoomedKeys(d, t);
    var y :| y in d.steps[x].dependsOn && y !in m.completed;
    assert y in Mentioned(d);
    forall j | j in d.steps[x].dependsOn && j in failing
      ensures j in Mentioned(d) && j !in h.completed
    {
      assert j !in h.failed && j !in h.skipped && j !in Succeeded(d, h) && j !in d.seedKeys;
    }
  }

  /** A step that is not held back has started by then. */
  lemma NotHeldBackStarts(d: Call, t: State, failing: set<Key>, held: set<Key>, answer: Value, k: Key)
    requires Scripted(d, failing, held, answer) && OnScript(d, t, failing, held) && Head(d, t).inflight <= held
    requires MayStart(d, failing, held, k) && k !in held
    ensures k in t.launched
  {
    LeftIsHeldBack(d, t, failing, held, answer);
    HeadOnScript(d, t, failing, held, answer);
    var left := Mentioned(d) - Head(d, t).completed;
    assert HoldsBack(d, failing, held, left);
    assert k in Mentioned(d) && k !in left;
    assert k !in Head(d, t).skipped;
  }

  lemma SameGraph(c: Call, d: Call, failing: set<Key>, held: set<Key>, k: Key)
    requires c.steps == d.steps && c.seedKeys == d.seedKeys
    ensures MayStart(c, failing, held, k) <==> MayStart(d, failing, held, k)
  {
    forall keys
      ensures HoldsBack(c, failing, held, keys) <==> HoldsBack(d, failing, held, keys)
    {
      forall x
        ensures StaysBack(c, failing, keys, x) <==> StaysBack(d, failing, keys, x)
      {
      }
    }
  }

  lemma ScriptIsScripted(c: Call, failing: set<Key>, held: set<Key>, answer: Value)
    requires ValidCall(c) && c.policy.DependentFail? && Unconditional(c) && CanFail(c, failing) && held !! failing
    requires forall k :: k in held && k in c.steps ==> !DependsOnAny(c.steps[k], failing)
    ensures Scripted(c.(exec := Script(c, failing, held, answer)), failing, held, answer)
  {
  }

  lemma CanStartInSomeRun(c: Call, failing: set<Key>, k: Key)
      returns (exec: Executor, schedule: seq<seq<Key>>, f: State)
    requires ValidCall(c) && c.policy.DependentFail? && Unconditional(c)
    requires CanFail(c, failing) && MayStart(c, failing, {}, k)
    ensures Starts(c, exec, schedule, f, k)
  {
    exec := Script(c, failing, {}, Null);
    var d := c.(exec := exec);
    ScriptIsScripted(c, failing, {}, Null);
    SameGraph(c, d, failing, {}, k);
    StartFacts(d);
    var first, t := DrainBut(d, Init(d), failing, {}, Null);
    NotHeldBackStarts(d, t, failing, {}, Null, k);
    var rest, g := CanEnd(d, t);
    EndsGrows(d, t, rest, g);
    ReachesThenEnds(d, Init(d), first, t, rest, g);
    assert Init(d) == Init(c);
    schedule, f := first + rest, g;
  }

  /** With these executors the call has this run, and `k` starts in it. */
  ghost predicate Starts(c: Call, exec: Executor, schedule: seq<seq<Key>>, f: State, k: Key) {
    Ends(c.(exec := exec), Init(c), schedule, f) && k in f.launched
  }

  lemma StartedCanStart(c: Call, exec: Executor, schedule: seq<seq<Key>>, f: State, k: Key)
    requires ValidCall(c) && c.policy.DependentFail?
    requires Starts(c, exec, schedule, f, k)
    ensures CanStart(c, k)
  {
    var d := c.(exec := exec);
    assert Init(d) == Init(c);
    StartedMayStart(d, schedule, f, {}, k);
    SameGraph(c, d, f.failed, {}, k);
    assert CanFail(c, f.failed);
  }

  /**
   Under dependent_fail, on every dependency graph, a step of a call without
   conditions starts in some run for some executors if and only if some choice of
   failing steps holds back no set that contains it.
   */
  lemma StartsIffCanStart(c: Call, k: Key)
    requires ValidCall(c) && c.policy.DependentFail? && Unconditional(c)
    ensures (exists exec: Executor, schedule, f :: Starts(c, exec, schedule, f, k)) <==> CanStart(c, k)
  {
    if exec: Executor, schedule, f :| Starts(c, exec, schedule, f, k) {
      StartedCanStart(c, exec, schedule, f, k);
    }
    if CanStart(c, k) {
      var failing :| CanFail(c, failing) && MayStart(c, failing, {}, k);
      var exec, schedule, f := CanStartInSomeRun(c, failing, k);
    }
  }

  // ---------------------------------------------------------------- the policies that do not skip

  /** Every step answers None: nothing fails and nothing pauses. */
  ghost predicate AllAnswer(d: Call) {
    forall k, seen :: k in d.steps ==> d.exec(d.steps[k], seen) == Output(Null)
  }

  predicate Quiet(s: State) {
    s.paused.None? && !s.abort
  }

  lemma {:induction false} CollectQuietly(d: Call, s: State, batch: seq<Key>)
    requires AllAnswer(d) && Quiet(s) && forall k :: k in batch ==> k in d.steps
    ensures Quiet(Collect(d, s, batch))
    decreases |batch|
  {
    if batch != [] {
      CollectQuietly(d, Finish(d, s, batch[0]), batch[1..]);
    }
  }

  lemma {:induction false} EndsQuietly(d: Call, s: State, schedule: seq<seq<Key>>, f: State)
    requires AllAnswer(d) && Quiet(s) && Ends(d, s, schedule, f)
    ensures Quiet(f)
    decreases |schedule|
  {
    if LoopOn(s) && Head(d, s).inflight != {} {
      CollectQuietly(d, Head(d, s), schedule[0]);
      if !PauseReached(After(d, s, schedule[0])) {
        EndsQuietly(d, After(d, s, schedule[0]), schedule[1..], f);
      }
    }
  }

  lemma SameBlocked(c: Call, d: Call, k: Key)
    requires c.steps == d.steps && c.seedKeys == d.seedKeys
    ensures Blocked(c, k) <==> Blocked(d, k)
  {
    forall blocked: set<Key>
      ensures SelfBlocking(c, blocked) <==> SelfBlocking(d, blocked)
    {
    }
  }

  lemma UnblockedStarts(c: Call, k: Key) returns (exec: Executor, schedule: seq<seq<Key>>, f: State)
    requires ValidCall(c) && !c.policy.DependentFail? && Unconditional(c) && k in c.steps && !Blocked(c, k)
    ensures Starts(c, exec, schedule, f, k)
  {
    exec := (step: Step, seen: Env) => Output(Null);
    var d := c.(exec := exec);
    InvInit(d);
    schedule, f := CanEnd(d, Init(d));
    EndsQuietly(d, Init(d), schedule, f);
    SameBlocked(c, d, k);
    CompletedUnlessBlocked(d, schedule, f, k);
    InvEnds(d, Init(d), schedule, f);
    assert Init(d) == Init(c);
  }

  lemma BlockedNeverStarts(c: Call, exec: Executor, schedule: seq<seq<Key>>, f: State, k: Key)
    requires ValidCall(c) && !c.policy.DependentFail? && Starts(c, exec, schedule, f, k)
    ensures k in c.steps && !Blocked(c, k)
  {
    var d := c.(exec := exec);
    assert Init(d) == Init(c);
    InvInit(d);
    InvEnds(d, Init(d), schedule, f);
    SameBlocked(c, d, k);
    if blocked: set<Key> :| k in blocked && SelfBlocking(d, blocked) {
      BlockedNeverStart(d, schedule, f, blocked);
    }
  }

  /** What the plan says about step `k`, under any policy. */
  ghost predicate MayRun(c: Call, k: Key) {
    if c.policy.DependentFail? then CanStart(c, k) else k in c.steps && !Blocked(c, k)
  }

  /** For every policy: which steps of a call without conditions start in some run, for some executors. */
  lemma StartsIffMayRun(c: Call, k: Key)
    requires ValidCall(c) && Unconditional(c)
    ensures (exists exec: Executor, schedule, f :: Starts(c, exec, schedule, f, k)) <==> MayRun(c, k)
  {
    if c.policy.DependentFail? {
      StartsIffCanStart(c, k);
    } else {
      if exec: Executor, schedule, f :| Starts(c, exec, schedule, f, k) {
        BlockedNeverStarts(c, exec, schedule, f, k);
      }
      if MayRun(c, k) {
        var exec, schedule, f := UnblockedStarts(c, k);
      }
    }
  }

  lemma AcyclicCanStart(e: Call, rank: map<Key, nat>, k: Key)
    requires ValidCall(e) && AcyclicBy(e, rank) && k in e.steps
    ensures CanStart(e, k)
  {
    forall keys | HoldsBack(e, {}, {}, keys)
      ensures k !in keys
    {
      forall x | x in keys
        ensures x !in e.seedKeys && (x in e.steps ==> DependsOnAny(e.steps[x], keys))
      {
        assert StaysBack(e, {}, keys, x);
      }
      RankedIsNotBlocked(e, rank, keys, k);
    }
    assert CanFail(e, {}) && MayStart(e, {}, {}, k);
  }

  lemma AcyclicMayRun(e: Call, rank: map<Key, nat>, k: Key)
    requires ValidCall(e) && AcyclicBy(e, rank) && k in e.steps
    ensures MayRun(e, k)
  {
    if e.policy.DependentFail? {
      AcyclicCanStart(e, rank, k);
    } else if blocked: set<Key> :| k in blocked && SelfBlocking(e, blocked) {
      RankedIsNotBlocked(e, rank, blocked, k);
    }
  }

  /**
   So a cycle does not always block itself under dependent_fail: where `j` and `k`
   wait for each other and `j` also waits for `a`, a failure of `a` skips `j`, and
   `k` starts. Under every other policy neither ever starts.
   */
  lemma SkipOpensCycle(c: Call, a: Key, j: Key, k: Key)
    requires ValidCall(c) && a != k && {a, j, k} <= c.steps.Keys
    requires c.steps[a].dependsOn == [] && c.steps[j].dependsOn == [k, a] && c.steps[k].dependsOn == [j] && j != a
    ensures SelfBlocking(c, {j, k}) && CanStart(c, k)
  {
    assert k in c.steps[j].dependsOn && j in c.steps[k].dependsOn && a in c.steps[j].dependsOn;
    forall keys | HoldsBack(c, {a}, {}, keys)
      ensures k !in keys
    {
      assert !DependsOnAny(c.steps[a], keys);
      assert a !in keys && j !in keys;
    }
    assert CanFail(c, {a}) && MayStart(c, {a}, {}, k);
  }
}
