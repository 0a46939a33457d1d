/**
 What a call records of its steps, and which answers pause it: every result is what
 the step's executor answered, every error says why, and the plan is paused exactly
 when a human_review step answered that it waits for a decision.
 */
module Outcomes {
  import opened Json
  import opened Conditions
  import opened Plans
  import opened PlanInvariants
  import opened HumanGate

  /** The executor ends step `k` in `o` on some results it may see. */
  ghost predicate Answers(c: Call, k: Key, o: Outcome) {
    k in c.steps && exists seen: Env :: c.exec(c.steps[k], seen) == o
  }

  /** The text recorded for a step that failed. */
  ghost predicate SaysWhy(c: Call, k: Key, text: string) {
    || Answers(c, k, FailedResult(text))
    || Answers(c, k, Raised(text))
    || (Answers(c, k, UnknownKind) && text == "Unknown step kind: " + c.steps[k].kind)
  }

  ghost predicate ResultsAnswer(c: Call, s: State) {
    forall k :: k in Succeeded(c, s) ==> k in s.results && Answers(c, k, Output(s.results[k]))
  }

  ghost predicate ErrorsAnswer(c: Call, s: State) {
    && (forall k :: k in s.failed ==> k in s.failures && SaysWhy(c, k, s.failures[k]))
    && (forall k :: k in s.skipped ==> k in s.failures && s.failures[k] == "Skipped — dependency failed")
  }

  ghost predicate Recorded(c: Call, s: State) {
    ResultsAnswer(c, s) && ErrorsAnswer(c, s)
  }

  lemma HeadRecords(c: Call, s: State)
    requires Inv(c, s) && Recorded(c, s) && !s.abort
    ensures Recorded(c, Head(c, s))
  {
    SkipKeepsPlaces(c, s);
    LaunchKeepsPlaces(c, SkipDoomed(c, s));
    assert DoomedKeys(c, s) <= s.pending;
  }

  lemma FinishAnswers(c: Call, s: State, j: Key)
    requires ValidCall(c) && Inv(c, s) && ResultsAnswer(c, s) && !s.abort && j in s.inflight
    ensures ResultsAnswer(c, Finish(c, s, j))
  {
    FinishKeepsPlaces(c, s, j);
    var o := c.exec(c.steps[j], s.results);
    assert Answers(c, j, o);
  }

  lemma FinishSaysWhy(c: Call, s: State, j: Key)
    requires Inv(c, s) && ErrorsAnswer(c, s) && !s.abort && j in s.inflight
    ensures ErrorsAnswer(c, Finish(c, s, j))
  {
    var o := c.exec(c.steps[j], s.results);
    assert Answers(c, j, o);
    assert j !in s.failed && j !in s.skipped;
  }

  lemma {:induction false} CollectRecords(c: Call, s: State, batch: seq<Key>)
    requires ValidCall(c) && Inv(c, s) && Recorded(c, s) && Distinct(batch)
    requires forall k :: k in batch ==> k in c.steps
    requires !s.abort ==> forall k :: k in batch ==> k in s.inflight
    ensures Recorded(c, Collect(c, s, batch))
    decreases |batch|
  {
    if batch != [] && !s.abort {
      InvFinish(c, s, batch[0]);
      FinishAnswers(c, s, batch[0]);
      FinishSaysWhy(c, s, batch[0]);
      CollectRecords(c, Finish(c, s, batch[0]), batch[1..]);
    }
  }

  lemma {:induction false} EndsRecorded(c: Call, s: State, schedule: seq<seq<Key>>, f: State)
    requires ValidCall(c) && Inv(c, s) && Recorded(c, s) && Ends(c, s, schedule, f)
    ensures Recorded(c, f)
    decreases |schedule|
  {
    if LoopOn(s) {
      InvHead(c, s);
      HeadRecords(c, s);
      if Head(c, s).inflight != {} {
        InvAfter(c, s, schedule[0]);
        CollectRecords(c, Head(c, s), schedule[0]);
        if !PauseReached(After(c, s, schedule[0])) {
          EndsRecorded(c, After(c, s, schedule[0]), schedule[1..], f);
        }
      }
    } else if s.abort {
      assert Succeeded(c, f) == Succeeded(c, s);
    }
  }

  /**
   In the final state of every run: a result of the call is an answer of the step's
   executor, and an error is the message of a failed result or of an exception, or
   names the unknown kind, or says that the step was skipped.
   */
  lemma ResultsAndErrors(c: Call, schedule: seq<seq<Key>>, f: State)
    requires ValidCall(c) && Ends(c, Init(c), schedule, f)
    ensures f.failures.Keys == f.failed + f.skipped
    ensures Recorded(c, f)
  {
    InvInit(c);
    assert Succeeded(c, Init(c)) == {};
    EndsRecorded(c, Init(c), schedule, f);
    InvEnds(c, Init(c), schedule, f);
  }

  // ---------------------------------------------------------------- what pauses a call

  /** Step `k` is done in this call without an error, and its result asks for a human decision. */
  predicate LeftPending(
      c: Call, completed: set<Key>, errors: map<Key, string>, results: Env, k: Key)
  {
    && k in c.steps && k in completed && k !in errors && k in results
    && c.steps[k].kind == "human_review"
    && results[k].Dict? && "status" in results[k].fields
    && results[k].fields["status"] == Str("pending_human_review")
  }

  /** A call is paused if and only if such a step is left, and then at such a step. */
  lemma PausedIffLeftPending(c: Call, schedule: seq<seq<Key>>, f: State)
    requires ValidCall(c) && Ends(c, Init(c), schedule, f)
    ensures f.paused.Some? <==> exists k :: LeftPending(c, f.completed, f.failures, f.results, k)
    ensures f.paused.Some? ==> LeftPending(c, f.completed, f.failures, f.results, f.paused.value)
  {
    InvInit(c);
    assert Succeeded(c, Init(c)) == {};
    EndsGated(c, Init(c), schedule, f);
    assert forall k :: LeftPending(c, f.completed, f.failures, f.results, k) <==> AwaitsReview(c, f, k);
  }

  // ---------------------------------------------------------------- which review a call is paused at

  /** The keys in the order in which they were collected. */
  function Order(schedule: seq<seq<Key>>): seq<Key> {
    if schedule == [] then [] else schedule[0] + Order(schedule[1..])
  }

  predicate Asks(c: Call, s: State, k: Key) {
    LeftPending(c, s.completed, s.failures, s.results, k)
  }

  /** The step at `i` asks for a decision and none behind it does. */
  predicate LastAsks(c: Call, s: State, order: seq<Key>, i: nat) {
    i < |order| && forall j :: i < j < |order| ==> !Asks(c, s, order[j])
  }

  ghost predicate PausedAtLast(c: Call, s: State, order: seq<Key>) {
    s.paused.Some? ==> exists i: nat :: LastAsks(c, s, order, i) && order[i] == s.paused.value
  }

  predicate AllCompleted(s: State, order: seq<Key>) {
    forall k :: k in order ==> k in s.completed
  }

  lemma StillLast(c: Call, s: State, t: State, order: seq<Key>)
    requires PausedAtLast(c, s, order) && t.paused == s.paused
    requires forall k :: k in order && Asks(c, t, k) ==> Asks(c, s, k)
    ensures PausedAtLast(c, t, order)
  {
    if s.paused.Some? {
      var i: nat :| LastAsks(c, s, order, i) && order[i] == s.paused.value;
      assert LastAsks(c, t, order, i);
    }
  }

  lemma LongerOrder(c: Call, s: State, order: seq<Key>, more: seq<Key>)
    requires PausedAtLast(c, s, order) && forall k :: k in more ==> !Asks(c, s, k)
    ensures PausedAtLast(c, s, order + more)
  {
    if s.paused.Some? {
      var i: nat :| LastAsks(c, s, order, i) && order[i] == s.paused.value;
      assert LastAsks(c, s, order + more, i);
    }
  }

  lemma FinishLast(c: Call, s: State, k: Key, order: seq<Key>)
    requires ValidCall(c) && Inv(c, s) && !s.abort && k in s.inflight
    requires PausedAtLast(c, s, order) && AllCompleted(s, order)
    ensures PausedAtLast(c, Finish(c, s, k), order + [k])
    ensures AllCompleted(Finish(c, s, k), order + [k])
  {
    var t := Finish(c, s, k);
    var o := c.exec(c.steps[k], s.results);
    if o.Output? && Pauses(c.steps[k], o.value) {
      assert LastAsks(c, t, order + [k], |order|);
    } else {
      StillLast(c, s, t, order);
      LongerOrder(c, t, order, [k]);
    }
  }

  lemma {:induction false} CollectLast(c: Call, s: State, batch: seq<Key>, order: seq<Key>)
    requires ValidCall(c) && Inv(c, s) && !s.abort && Distinct(batch)
    requires forall k :: k in batch ==> k in c.steps && k in s.inflight
    requires PausedAtLast(c, s, order) && AllCompleted(s, order)
    ensures PausedAtLast(c, Collect(c, s, batch), order + batch)
    ensures !Collect(c, s, batch).abort ==> AllCompleted(Collect(c, s, batch), order + batch)
    decreases |batch|
  {
    if batch == [] {
      assert order + batch == order;
    } else {
      var k, rest, t := batch[0], batch[1..], Finish(c, s, batch[0]);
      InvFinish(c, s, k);
      FinishLast(c, s, k, order);
      assert order + batch == order + [k] + rest;
      if t.abort {
        assert Collect(c, t, rest) == t;
        LongerOrder(c, t, order + [k], rest);
      } else {
        CollectLast(c, t, rest, order + [k]);
      }
    }
  }

  lemma HeadLast(c: Call, s: State, order: seq<Key>)
    requires Inv(c, s) && !s.abort && PausedAtLast(c, s, order) && AllCompleted(s, order)
    ensures PausedAtLast(c, Head(c, s), order) && AllCompleted(Head(c, s), order)
  {
    assert DoomedKeys(c, s) <= s.pending;
    StillLast(c, s, Head(c, s), order);
  }

  lemma EndsNowLast(c: Call, s: State, f: State, order: seq<Key>)
    requires Inv(c, s) && Ends(c, s, [], f)
    requires PausedAtLast(c, s, order) && (!s.abort ==> AllCompleted(s, order))
    ensures PausedAtLast(c, f, order)
  {
    if LoopOn(s) {
      HeadLast(c, s, order);
    } else {
      StillLast(c, s, f, order);
    }
  }

  lemma RoundLast(c: Call, s: State, batch: seq<Key>, order: seq<Key>)
    requires ValidCall(c) && Inv(c, s) && LoopOn(s) && ValidBatch(Head(c, s), batch)
    requires PausedAtLast(c, s, order) && AllCompleted(s, order)
    ensures forall k :: k in batch ==> k in c.steps
    ensures PausedAtLast(c, After(c, s, batch), order + batch)
    ensures !After(c, s, batch).abort ==> AllCompleted(After(c, s, batch), order + batch)
  {
    InvHead(c, s);
    HeadLast(c, s, order);
    CollectLast(c, Head(c, s), batch, order);
  }

  lemma OrderCons(order: seq<Key>, batch: seq<Key>, rest: seq<seq<Key>>)
    ensures order + Order([batch] + rest) == order + batch + Order(rest)
    ensures rest == [] ==> order + Order([batch] + rest) == order + batch
  {
    assert ([batch] + rest)[1..] == rest;
  }

  lemma {:induction false} EndsLast(c: Call, s: State, schedule: seq<seq<Key>>, f: State, order: seq<Key>)
    requires ValidCall(c) && Inv(c, s) && Ends(c, s, schedule, f)
    requires PausedAtLast(c, s, order) && (!s.abort ==> AllCompleted(s, order))
    ensures PausedAtLast(c, f, order + Order(schedule))
    decreases |schedule|
  {
    if schedule == [] {
      EndsNowLast(c, s, f, order);
      assert order + Order(schedule) == order;
    } else {
      var batch, rest := schedule[0], schedule[1..];
      RoundLast(c, s, batch, order);
      InvAfter(c, s, batch);
      assert schedule == [batch] + rest;
      OrderCons(order, batch, rest);
      if !PauseReached(After(c, s, batch)) {
        EndsLast(c, After(c, s, batch), rest, f, order + batch);
      }
    }
  }

  /** Of several reviews left pending the call names the one that was collected last. */
  lemma PausedAtLastReview(c: Call, schedule: seq<seq<Key>>, f: State) returns (i: nat)
    requires ValidCall(c) && Ends(c, Init(c), schedule, f) && f.paused.Some?
    ensures i < |Order(schedule)| && Order(schedule)[i] == f.paused.value
    ensures forall j :: i < j < |Order(schedule)| ==>
                          !LeftPending(c, f.completed, f.failures, f.results, Order(schedule)[j])
  {
    InvInit(c);
    EndsLast(c, Init(c), schedule, f, []);
    assert [] + Order(schedule) == Order(schedule);
    var k: nat :| LastAsks(c, f, Order(schedule), k) && Order(schedule)[k] == f.paused.value;
    i := k;
    assert forall j :: i < j < |Order(schedule)| ==> !Asks(c, f, Order(schedule)[j]);
  }

  // ---------------------------------------------------------------- reviews that do not ask

  /** No human_review step ever answers with the status that asks for a decision. */
  ghost predicate NoReviewAsks(c: Call) {
    forall k, v :: Answers(c, k, Output(v)) && c.steps[k].kind == "human_review" && v.Dict? && "status" in v.fields ==>
      v.fields["status"] != Str("pending_human_review")
  }

  /** Reviews that answer another status, such as a raised ticket, never pause a call. */
  lemma OtherAnswersNeverPause(c: Call, schedule: seq<seq<Key>>, f: State)
    requires ValidCall(c) && NoReviewAsks(c) && Ends(c, Init(c), schedule, f)
    ensures f.paused.None?
  {
    PausedIffLeftPending(c, schedule, f);
    ResultsAndErrors(c, schedule, f);
    InvInit(c);
    InvEnds(c, Init(c), schedule, f);
  }
}
