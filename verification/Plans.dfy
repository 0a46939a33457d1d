/**
 Plans and the transition system of one `execute_plan` call. One round of the
 scheduling loop is a function of the state at the loop head and of the batch of
 step keys that `wait` hands back, in the order they are collected; a run is the
 sequence of its batches. Everything proved for all schedules is therefore proved
 for all completion orders.
 */
module Plans {
  import opened Wrappers
  import opened Json
  import opened Conditions
  import opened Sequences

  type Key = string

  datatype Policy = BestEffort | FailFast | DependentFail | Unrecognised(name: string)

  datatype Step = Step(key: Key, kind: string, dependsOn: seq<Key>, condition: Condition, enabled: bool)

  /** What running a step ends in: an output, a failed result, a kind no executor serves, or an exception. */
  datatype Outcome = Output(value: Value) | FailedResult(message: string) | UnknownKind | Raised(message: string)

  /**
   A step runs at most once in a call, so an arbitrary function of the step and of
   the results it sees covers every behaviour of the executors.
   */
  type Executor = (Step, Env) -> Outcome

  const SKIP_TEXT := "Skipped — dependency failed"

  function ErrorText(step: Step, o: Outcome): string
    requires !o.Output?
  {
    match o
    case FailedResult(m) => m
    case UnknownKind => "Unknown step kind: " + step.kind
    case Raised(m) => m
  }

  /** A human_review step whose output is tagged pending_human_review pauses the plan. */
  predicate Pauses(step: Step, v: Value) {
    step.kind == "human_review" && v.Dict? && "status" in v.fields && v.fields["status"] == Str("pending_human_review")
  }

  /** One call: the steps it may run, by key, and the seed it starts from. */
  datatype Call = Call(
    steps: map<Key, Step>, policy: Policy, params: Env,
    seedKeys: set<Key>, seedResults: Env, exec: Executor)

  ghost predicate ValidCall(c: Call) {
    c.steps.Keys !! c.seedKeys && forall k :: k in c.steps ==> c.steps[k].key == k
  }

  function Deps(step: Step): set<Key> {
    set d | d in step.dependsOn
  }

  /**
   No condition reads a seeded result that the call itself may replace, unless it
   is a dependency's. Every call whose seeded results are those of finished steps
   is of this kind, whatever its conditions read; so is every call whose
   conditions read dependencies only.
   */
  ghost predicate SeedsSettled(c: Call) {
    forall k :: k in c.steps ==>
      ConditionReads(c.steps[k].condition) * c.seedResults.Keys * c.steps.Keys <= Deps(c.steps[k])
  }

  /** The enabled steps outside the seed, by key; a later step replaces an earlier one of the same key. */
  function PendingSteps(steps: seq<Step>, seedKeys: set<Key>): (m: map<Key, Step>)
    ensures m.Keys !! seedKeys
    ensures forall k :: k in m ==> m[k].key == k && m[k].enabled && m[k] in steps
    ensures forall s :: s in steps && s.enabled && s.key !in seedKeys ==> s.key in m
  {
    if steps == [] then map[]
    else
      var last := steps[|steps| - 1];
      var m := PendingSteps(steps[..|steps| - 1], seedKeys);
      if last.enabled && last.key !in seedKeys then m[last.key := last] else m
  }

  /** Of several enabled steps with one key the last one is kept. */
  lemma {:induction false} LastOfItsKeyIsKept(steps: seq<Step>, seedKeys: set<Key>, i: nat)
    requires i < |steps| && steps[i].enabled && steps[i].key !in seedKeys
    requires forall j :: i < j < |steps| && steps[j].enabled ==> steps[j].key != steps[i].key
    ensures steps[i].key in PendingSteps(steps, seedKeys)
    ensures PendingSteps(steps, seedKeys)[steps[i].key] == steps[i]
    decreases |steps|
  {
    var n := |steps| - 1;
    var front, last := steps[..n], steps[n];
    if i < n {
      forall j | i < j < |front| && front[j].enabled
        ensures front[j].key != front[i].key
      {
        assert steps[j] == front[j];
      }
      LastOfItsKeyIsKept(front, seedKeys, i);
    }
  }

  /**
   The scheduler's variables. `launched` counts, for every key, how often it was
   handed to the pool; the other fields are the source's own.
   */
  datatype State = State(
    pending: set<Key>, inflight: set<Key>,
    completed: set<Key>, failed: set<Key>, skipped: set<Key>,
    results: Env, failures: map<Key, string>,
    abort: bool, paused: Option<Key>, launched: multiset<Key>)

  function Init(c: Call): State {
    State(c.steps.Keys, {}, c.seedKeys, {}, {}, c.seedResults, map[], false, None, multiset{})
  }

  /** Every key the state still has to deal with is a step of the call. */
  predicate Known(c: Call, s: State) {
    s.pending <= c.steps.Keys && s.inflight <= c.steps.Keys
  }

  /** The steps that succeeded in this call: finished, but neither seeded, failed nor skipped. */
  function Succeeded(c: Call, s: State): set<Key> {
    s.completed - c.seedKeys - s.failed - s.skipped
  }

  predicate DependsOnAny(step: Step, keys: set<Key>) {
    exists d :: d in step.dependsOn && d in keys
  }

  predicate DependsOnlyOn(step: Step, keys: set<Key>) {
    forall d :: d in step.dependsOn ==> d in keys
  }

  function DoomedKeys(c: Call, s: State): set<Key>
    requires Known(c, s)
  {
    if c.policy.DependentFail? then set k | k in s.pending && DependsOnAny(c.steps[k], s.failed) else {}
  }

  function SkipTexts(keys: set<Key>): map<Key, string> {
    map k | k in keys :: SKIP_TEXT
  }

  /** The dependent_fail part of the loop head: one level, looking at failed keys only. */
  function SkipDoomed(c: Call, s: State): State
    requires Known(c, s)
  {
    var doomed := DoomedKeys(c, s);
    s.(pending := s.pending - doomed,
       completed := s.completed + doomed,
       skipped := s.skipped + doomed,
       failures := s.failures + SkipTexts(doomed))
  }

  predicate IsReady(c: Call, s: State, step: Step) {
    DependsOnlyOn(step, s.completed) && Holds(step.condition, c.params, s.results)
  }

  function ReadyKeys(c: Call, s: State): set<Key>
    requires Known(c, s)
  {
    if s.paused.Some? then {} else set k | k in s.pending && IsReady(c, s, c.steps[k])
  }

  function Launch(c: Call, s: State): State
    requires Known(c, s)
  {
    var ready := ReadyKeys(c, s);
    s.(pending := s.pending - ready, inflight := s.inflight + ready, launched := s.launched + multiset(ready))
  }

  /** The state in which the loop body reaches `wait`. */
  function Head(c: Call, s: State): State
    requires Known(c, s)
  {
    Launch(c, SkipDoomed(c, s))
  }

  /** Collecting one finished step. */
  function Finish(c: Call, s: State, k: Key): State
    requires k in c.steps
  {
    var o := c.exec(c.steps[k], s.results);
    if o.Output? then
      s.(inflight := s.inflight - {k}, completed := s.completed + {k},
         results := s.results[k := o.value],
         paused := if Pauses(c.steps[k], o.value) then Some(k) else s.paused)
    else
      s.(inflight := if c.policy.FailFast? then {} else s.inflight - {k},
         completed := s.completed + {k}, failed := s.failed + {k},
         failures := s.failures[k := ErrorText(c.steps[k], o)],
         abort := s.abort || c.policy.FailFast?)
  }

  /** Collecting a batch in order; a fail_fast failure abandons the rest of it. */
  function Collect(c: Call, s: State, batch: seq<Key>): State
    requires forall k :: k in batch ==> k in c.steps
    decreases |batch|
  {
    if batch == [] || s.abort then s
    else Collect(c, Finish(c, s, batch[0]), batch[1..])
  }

  predicate Distinct(keys: seq<Key>) {
    forall i, j :: 0 <= i < j < |keys| ==> keys[i] != keys[j]
  }

  /** `wait` returns at least one of the steps in flight, each once. */
  predicate ValidBatch(h: State, batch: seq<Key>) {
    batch != [] && Distinct(batch) && forall k :: k in batch ==> k in h.inflight
  }

  predicate LoopOn(s: State) {
    (s.pending != {} || s.inflight != {}) && !s.abort
  }

  predicate PauseReached(s: State) {
    s.paused.Some? && s.inflight == {}
  }

  /** The state after the round that collects `batch`. */
  function After(c: Call, s: State, batch: seq<Key>): State
    requires Known(c, s) && forall k :: k in batch ==> k in c.steps
  {
    Collect(c, Head(c, s), batch)
  }

  /** The loop, at `s`, collects `batch` and goes round again. */
  predicate Continues(c: Call, s: State, batch: seq<Key>)
    requires Known(c, s)
  {
    LoopOn(s) && ValidBatch(Head(c, s), batch) && !PauseReached(After(c, s, batch))
  }

  lemma CollectKnown(c: Call, s: State, batch: seq<Key>)
    requires Known(c, s) && forall k :: k in batch ==> k in c.steps
    ensures Known(c, Collect(c, s, batch))
    decreases |batch|
  {
    if batch != [] && !s.abort {
      CollectKnown(c, Finish(c, s, batch[0]), batch[1..]);
    }
  }

  /** `t` is the loop head reached from `s` after exactly the given batches. */
  ghost predicate Reaches(c: Call, s: State, schedule: seq<seq<Key>>, t: State)
    decreases |schedule|
  {
    Known(c, s) &&
    if schedule == [] then t == s
    else
      Continues(c, s, schedule[0]) && Reaches(c, After(c, s, schedule[0]), schedule[1..], t)
  }

  /** The call, at loop head `s`, collects exactly the given batches and then returns with state `f`. */
  ghost predicate Ends(c: Call, s: State, schedule: seq<seq<Key>>, f: State)
    decreases |schedule|
  {
    Known(c, s) &&
    if s.pending == {} && s.inflight == {} then schedule == [] && f == s
    else if s.abort then schedule == [] && f == s.(pending := {})
    else
      var h := Head(c, s);
      if h.inflight == {} then schedule == [] && f == h
      else
        schedule != [] && ValidBatch(h, schedule[0]) &&
        var t := After(c, s, schedule[0]);
        if PauseReached(t) then |schedule| == 1 && f == t
        else Ends(c, t, schedule[1..], f)
  }

  lemma {:induction false} ReachesSnoc(c: Call, s: State, schedule: seq<seq<Key>>, t: State, batch: seq<Key>)
    requires Reaches(c, s, schedule, t) && Known(c, t) && Continues(c, t, batch)
    ensures Known(c, After(c, t, batch))
    ensures Reaches(c, s, schedule + [batch], After(c, t, batch))
    decreases |schedule|
  {
    CollectKnown(c, Head(c, t), batch);
    var all := schedule + [batch];
    if schedule == [] {
      assert all[0] == batch && all[1..] == [];
    } else {
      assert all[0] == schedule[0] && all[1..] == schedule[1..] + [batch];
      ReachesSnoc(c, After(c, s, schedule[0]), schedule[1..], t, batch);
    }
  }

  /** One more round in front of a run. */
  lemma EndsCons(c: Call, s: State, batch: seq<Key>, rest: seq<seq<Key>>, f: State)
    requires Known(c, s) && Continues(c, s, batch) && Ends(c, After(c, s, batch), rest, f)
    ensures Ends(c, s, [batch] + rest, f)
  {
    var all := [batch] + rest;
    assert all[0] == batch && all[1..] == rest;
    assert batch[0] in Head(c, s).inflight;
  }

  /** The round in which a paused call runs out of work is its last. */
  lemma EndsPaused(c: Call, s: State, batch: seq<Key>)
    requires Known(c, s) && LoopOn(s) && ValidBatch(Head(c, s), batch) && PauseReached(After(c, s, batch))
    ensures Ends(c, s, [batch], After(c, s, batch))
  {
    assert batch[0] in Head(c, s).inflight;
    assert [batch][0] == batch && |[batch]| == 1;
  }

  /** Every other way out of the loop: nothing left, an abort, or nothing in flight. */
  lemma EndsNow(c: Call, s: State)
    requires Known(c, s)
    ensures s.pending == {} && s.inflight == {} ==> Ends(c, s, [], s)
    ensures (s.pending != {} || s.inflight != {}) && s.abort ==> Ends(c, s, [], s.(pending := {}))
    ensures LoopOn(s) && Head(c, s).inflight == {} ==> Ends(c, s, [], Head(c, s))
  {
  }

  lemma {:induction false} ReachesThenEnds(
      c: Call, s: State, first: seq<seq<Key>>, t: State, rest: seq<seq<Key>>, f: State)
    requires Reaches(c, s, first, t) && Ends(c, t, rest, f)
    ensures Ends(c, s, first + rest, f)
    decreases |first|
  {
    if first == [] {
      AppendEmpty(first, rest);
    } else {
      ConsAppend(first, rest);
      var s' := After(c, s, first[0]);
      assert Continues(c, s, first[0]) && Reaches(c, s', first[1..], t);
      ReachesThenEnds(c, s', first[1..], t, rest, f);
      EndsCons(c, s, first[0], first[1..] + rest, f);
    }
  }

  lemma CollectOne(c: Call, s: State, k: Key)
    requires k in c.steps && !s.abort
    ensures Collect(c, s, [k]) == Finish(c, s, k)
  {
    assert [k][1..] == [];
  }

  lemma CollectTwo(c: Call, s: State, j: Key, k: Key)
    requires j in c.steps && k in c.steps && !s.abort && !Finish(c, s, j).abort
    ensures Collect(c, s, [j, k]) == Finish(c, Finish(c, s, j), k)
  {
    assert [j, k][1..] == [k];
    CollectOne(c, Finish(c, s, j), k);
  }
}
