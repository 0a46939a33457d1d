/**
 `execute_plan` as it runs: the scheduling loop over its own variables, with the
 step trace written along the way. Every phase of the loop is proved to be the
 corresponding step of the transition system, and the whole call to be one of
 its runs.
 */
module Orchestrator {
  import opened Wrappers
  import opened Json
  import opened Conditions
  import opened Plans
  import opened PlanInvariants
  import opened Progress
  import opened Outcomes
  import Trace = StepTrace

  /** A submitted step and, when the call is traced, the row its worker created. */
  datatype Future = Future(step: Step, row: Option<nat>)

  /** The seed of a resumed call; a fresh call has an empty one. */
  datatype Seed = Seed(results: Env, completedKeys: set<Key>)

  datatype PlanResult = PlanResult(
    results: Env, errors: map<Key, string>, skipped: set<Key>, pausedAtStep: Option<Key>, completedStepKeys: set<Key>)

  function StartCall(steps: seq<Step>, policy: Policy, params: Env, seed: Seed, exec: Executor): Call {
    Call(PendingSteps(steps, seed.completedKeys), policy, params, seed.completedKeys, seed.results, exec)
  }

  /** The pending steps and the futures are steps of the call. */
  ghost predicate StepsAgree(c: Call, pending: map<Key, Step>, futures: map<Key, Future>) {
    && ValidCall(c)
    && (forall k :: k in pending ==> k in c.steps && pending[k] == c.steps[k])
    && (forall k :: k in futures ==> k in c.steps && futures[k].step == c.steps[k])
  }

  /** The table shows what is expected, and every future knows its row. */
  ghost predicate RowsKnown(before: seq<Trace.Row>, rows: seq<Trace.Row>, rowOf: map<Key, nat>,
                            expected: map<Key, Trace.Entry>, futures: map<Key, Future>) {
    && Trace.RowsMatch(before, rows, rowOf, expected)
    && forall k :: k in futures ==> k in rowOf && futures[k].row == Some(rowOf[k])
  }

  function WithOutput(s: State, k: Key, step: Step, v: Value): State {
    s.(completed := s.completed + {k}, results := s.results[k := v],
       paused := if Pauses(step, v) then Some(k) else s.paused)
  }

  function WithError(c: Call, s: State, k: Key, error: string): State {
    s.(completed := s.completed + {k}, failed := s.failed + {k}, failures := s.failures[k := error],
       abort := s.abort || c.policy.FailFast?, inflight := if c.policy.FailFast? then {} else s.inflight)
  }

  lemma FinishInParts(c: Call, s: State, k: Key)
    requires k in c.steps
    ensures var o := c.exec(c.steps[k], s.results);
            var t := s.(inflight := s.inflight - {k});
            Finish(c, s, k) ==
            if o.Output? then WithOutput(t, k, c.steps[k], o.value) else WithError(c, t, k, ErrorText(c.steps[k], o))
  {
  }

  /**
   The variables of one `execute_plan` call. Contracts that compare a predicate with
   `true` hand it on whole.
   */
  class PlanRun {
    const call: Call
    const trace: Trace.ExecutionSteps?
    var pending: map<Key, Step>
    var futures: map<Key, Future>
    var completed: set<Key>
    var failed: set<Key>
    var skipped: set<Key>
    var results: Env
    var failures: map<Key, string>
    var abort: bool
    var paused: Option<Key>
    // proof bookkeeping: submissions, how collected steps ended, and what the trace must show
    ghost var launched: multiset<Key>
    ghost var ended: map<Key, Outcome>
    ghost var rowOf: map<Key, nat>
    ghost var expected: map<Key, Trace.Entry>
    ghost const before: seq<Trace.Row>

    ghost function Abs(): State
      reads this
    {
      State(pending.Keys, futures.Keys, completed, failed, skipped, results, failures, abort, paused, launched)
    }

    ghost predicate Valid()
      reads this
    {
      StepsAgree(call, pending, futures)
    }

    ghost predicate Traced()
      reads this, trace
    {
      trace != null ==> RowsKnown(before, trace.rows, rowOf, expected, futures)
    }

    constructor (steps: seq<Step>, policy: Policy, params: Env, seed: Seed, exec: Executor,
                 trace: Trace.ExecutionSteps?)
      ensures call == StartCall(steps, policy, params, seed, exec) && this.trace == trace
      ensures trace != null ==> before == trace.rows
      ensures Valid() && Traced() && Abs() == Init(call) && ended == map[] && expected == map[]
    {
      call := StartCall(steps, policy, params, seed, exec);
      this.trace := trace;
      pending := PendingSteps(steps, seed.completedKeys);
      futures := map[];
      completed := seed.completedKeys;
      failed, skipped := {}, {};
      results := seed.results;
      failures := map[];
      abort, paused := false, None;
      launched, ended, rowOf, expected := multiset{}, map[], map[], map[];
      before := if trace != null then trace.rows else [];
    }

    /** `_maybe_trace_skip`: a queued row, at once marked skipped. */
    method TraceSkip(k: Key)
      requires Traced() && k !in expected && k !in futures
      modifies trace, `rowOf, `expected
      ensures Traced() && expected == old(expected)[k := Trace.SKIPPED]
    {
      if trace != null {
        ghost var rows := trace.rows;
        Trace.InsertMatches(before, rows, rowOf, expected, k, Trace.SKIPPED);
        var id := trace.CreateStepRun(k);
        trace.MarkSkipped(id, Trace.SKIP_REASON);
        assert Trace.NewRow(k).history + [Trace.Skipped] == Trace.SKIPPED.history;
        assert trace.rows == rows + [Trace.RowOf(k, Trace.SKIPPED)];
        rowOf := rowOf[k := id];
      }
      expected := expected[k := Trace.SKIPPED];
    }

    /** The worker's first writes: a queued row, marked running. */
    method TraceStart(k: Key) returns (row: Option<nat>)
      requires Traced() && k !in expected && k !in futures
      modifies trace, `rowOf, `expected
      ensures Traced() && expected == old(expected)[k := Trace.STARTED]
      ensures trace != null ==> k in rowOf && row == Some(rowOf[k])
    {
      row := None;
      if trace != null {
        ghost var rows := trace.rows;
        Trace.InsertMatches(before, rows, rowOf, expected, k, Trace.STARTED);
        var id := trace.CreateStepRun(k);
        trace.MarkRunning(id);
        assert Trace.NewRow(k).history + [Trace.Running] == Trace.STARTED.history;
        assert trace.rows == rows + [Trace.RowOf(k, Trace.STARTED)];
        row := Some(id);
        rowOf := rowOf[k := id];
      }
      expected := expected[k := Trace.STARTED];
    }

    /** The worker's last write, on the row it created. */
    method TraceEnd(k: Key, row: Option<nat>, step: Step, o: Outcome)
      requires Traced() && k in expected && expected[k] == Trace.STARTED
      requires trace != null ==> k in rowOf && row == Some(rowOf[k])
      modifies trace, `expected
      ensures Traced() && expected == old(expected)[k := Trace.EntryOf(step, o)]
    {
      if trace != null {
        ghost var rows := trace.rows;
        MarkEnd(trace, row.value, k, step, o);
        Trace.OverwriteMatches(before, rows, rowOf, expected, k, Trace.EntryOf(step, o));
      }
      expected := expected[k := Trace.EntryOf(step, o)];
    }

    /** `to_skip`: the pending steps with a failed dependency. */
    method ToSkip() returns (toSkip: set<Key>)
      ensures toSkip == set k | k in pending && DependsOnAny(pending[k], failed)
    {
      toSkip := {};
      var todo := pending.Keys;
      while todo != {}
        invariant todo <= pending.Keys
        invariant toSkip == set k | k in pending && k !in todo && DependsOnAny(pending[k], failed)
      {
        var k :| k in todo;
        if DependsOnAny(pending[k], failed) {
          toSkip := toSkip + {k};
        }
        todo := todo - {k};
      }
    }

    method SkipStep(k: Key)
      requires Traced() && k in pending && k !in expected && k !in futures
      modifies trace, `pending, `completed, `skipped, `failures, `rowOf, `expected
      ensures Traced() && expected == old(expected)[k := Trace.SKIPPED]
      ensures pending == old(pending) - {k} && completed == old(completed) + {k} && skipped == old(skipped) + {k}
      ensures failures == old(failures)[k := SKIP_TEXT]
    {
      TraceSkip(k);
      skipped := skipped + {k};
      completed := completed + {k};
      failures := failures[k := SKIP_TEXT];
      pending := pending - {k};
    }

    method SkipSteps(toSkip: set<Key>)
      requires Traced() && toSkip <= pending.Keys && toSkip !! expected.Keys && toSkip !! futures.Keys
      modifies trace, `pending, `completed, `skipped, `failures, `rowOf, `expected
      ensures Traced() && expected == old(expected) + Trace.Entries(toSkip, Trace.SKIPPED)
      ensures pending == old(pending) - toSkip && completed == old(completed) + toSkip
      ensures skipped == old(skipped) + toSkip && failures == old(failures) + SkipTexts(toSkip)
    {
      var todo, done := toSkip, {};
      while todo != {}
        invariant todo + done == toSkip && todo !! done && Traced()
        invariant pending == old(pending) - done
        invariant skipped == old(skipped) + done && completed == old(completed) + done
        invariant failures == old(failures) + SkipTexts(done)
        invariant expected == old(expected) + Trace.Entries(done, Trace.SKIPPED)
      {
        var k :| k in todo;
        SkipStep(k);
        RemoveOneMore(old(pending), done, k);
        SkipOneMore(old(failures), done, k);
        ShowOneMore(old(expected), done, k, Trace.SKIPPED);
        todo, done := todo - {k}, done + {k};
      }
    }

    /** What the phases of a round need of the rest: pending steps are new to the pool and to the trace. */
    ghost predicate Fresh()
      reads this, trace
    {
      Valid() && Traced() && pending.Keys !! expected.Keys && pending.Keys !! futures.Keys
    }

    /** The dependent_fail phase of a round. */
    method SkipDoomedSteps()
      requires Fresh() && call.policy.DependentFail?
      modifies trace, `pending, `completed, `skipped, `failures, `rowOf, `expected
      ensures Fresh() && Abs() == SkipDoomed(call, old(Abs()))
      ensures expected == old(expected) + Trace.Entries(DoomedKeys(call, old(Abs())), Trace.SKIPPED)
    {
      var toSkip := ToSkip();
      assert toSkip == DoomedKeys(call, Abs());
      SkipSteps(toSkip);
    }

    /** The ready list: dependencies finished and condition true, on the results so far. */
    method ReadyList() returns (ready: set<Key>)
      ensures ready == set k | k in pending && IsReadyStep(pending[k])
    {
      ready := {};
      var todo := pending.Keys;
      while todo != {}
        invariant todo <= pending.Keys
        invariant ready == set k | k in pending && k !in todo && IsReadyStep(pending[k])
      {
        var k :| k in todo;
        if IsReadyStep(pending[k]) {
          ready := ready + {k};
        }
        todo := todo - {k};
      }
    }

    predicate IsReadyStep(step: Step)
      reads this
    {
      DependsOnlyOn(step, completed) && Holds(step.condition, call.params, results)
    }

    /** Hands one step to the pool. */
    method Submit(k: Key)
      requires Traced() && k in pending && k !in expected && k !in futures
      modifies trace, `pending, `futures, `rowOf, `expected
      ensures Traced() && expected == old(expected)[k := Trace.STARTED]
      ensures pending == old(pending) - {k}
      ensures futures.Keys == old(futures.Keys) + {k} && futures[k].step == old(pending[k])
      ensures forall j :: j in old(futures) && j != k ==> futures[j] == old(futures[j])
    {
      var row := TraceStart(k);
      futures := futures[k := Future(pending[k], row)];
      pending := pending - {k};
    }

    method SubmitAll(ready: set<Key>)
      requires Traced() && ready <= pending.Keys && ready !! expected.Keys && ready !! futures.Keys
      modifies trace, `pending, `futures, `launched, `rowOf, `expected
      ensures Traced() && expected == old(expected) + Trace.Entries(ready, Trace.STARTED)
      ensures pending == old(pending) - ready && launched == old(launched) + multiset(ready)
      ensures futures.Keys == old(futures.Keys) + ready
      ensures forall k :: k in ready ==> futures[k].step == old(pending[k])
      ensures forall k :: k in old(futures) ==> k in futures && futures[k] == old(futures[k])
    {
      var todo, done := ready, {};
      while todo != {}
        invariant todo + done == ready && todo !! done && Traced()
        invariant pending == old(pending) - done
        invariant expected == old(expected) + Trace.Entries(done, Trace.STARTED)
        invariant futures.Keys == old(futures.Keys) + done && launched == old(launched)
        invariant forall k :: k in done ==> futures[k].step == old(pending[k])
        invariant forall k :: k in old(futures) ==> futures[k] == old(futures[k])
      {
        var k :| k in todo;
        Submit(k);
        RemoveOneMore(old(pending), done, k);
        ShowOneMore(old(expected), done, k, Trace.STARTED);
        todo, done := todo - {k}, done + {k};
      }
      launched := launched + multiset(ready);
    }

    /** The scheduling phase of a round; a paused call hands out nothing. */
    method SubmitReadySteps()
      requires Fresh()
      modifies trace, `pending, `futures, `launched, `rowOf, `expected
      ensures Valid() && Traced() && Abs() == Launch(call, old(Abs()))
      ensures expected == old(expected) + Trace.Entries(ReadyKeys(call, old(Abs())), Trace.STARTED)
    {
      var ready := {};
      if paused.None? {
        ready := ReadyList();
      }
      assert ready == ReadyKeys(call, Abs());
      SubmitAll(ready);
    }

    /** The success branch: the result is stored, and a pending review pauses the plan. */
    method RecordSuccess(k: Key, step: Step, v: Value)
      requires Valid() && Traced()
      modifies `completed, `results, `paused
      ensures Valid() && Traced()
      ensures Abs() == WithOutput(old(Abs()), k, step, v)
    {
      results := results[k := v];
      completed := completed + {k};
      if Pauses(step, v) {
        paused := Some(k);
      }
    }

    /** The failure branch, with the error policy: fail_fast abandons everything in flight. */
    method RecordFailure(k: Key, error: string)
      requires Valid() && Traced()
      modifies `completed, `failed, `failures, `abort, `futures
      ensures Valid() && Traced()
      ensures Abs() == WithError(call, old(Abs()), k, error)
    {
      failures := failures[k := error];
      failed := failed + {k};
      completed := completed + {k};
      if call.policy.FailFast? {
        abort := true;
        futures := map[];
      }
    }

    /** The end of `_run_step_with_metrics` for a finished step, which leaves the futures. */
    method TakeOutcome(k: Key) returns (step: Step, o: Outcome)
      requires Valid() && Traced() && k in futures && k in expected && expected[k] == Trace.STARTED
      modifies trace, `futures, `ended, `expected
      ensures Valid() && Traced() && Abs() == old(Abs()).(inflight := old(Abs()).inflight - {k})
      ensures step == call.steps[k] && o == call.exec(step, results)
      ensures ended == old(ended)[k := o] && expected == old(expected)[k := Trace.EntryOf(step, o)]
    {
      step := futures[k].step;
      o := call.exec(step, results);
      TraceEnd(k, futures[k].row, step, o);
      ended := ended[k := o];
      futures := futures - {k};
    }

    /** Collects one finished step. */
    method CollectStep(k: Key)
      requires (Valid() && Traced()) == true && k in futures && k in expected && expected[k] == Trace.STARTED
      modifies trace, `futures, `completed, `failed, `results, `failures, `abort, `paused, `ended, `expected
      ensures (Valid() && Traced()) == true && Abs() == Finish(call, old(Abs()), k)
      ensures ended == old(ended)[k := call.exec(call.steps[k], old(results))]
      ensures expected == old(expected)[k := Trace.EntryOf(call.steps[k], ended[k])]
    {
      FinishInParts(call, Abs(), k);
      var step, o := TakeOutcome(k);
      if o.Output? {
        RecordSuccess(k, step, o.value);
      } else {
        RecordFailure(k, ErrorText(step, o));
      }
    }

    ghost function Books(): Ledger
      reads this
    {
      Ledger(Abs(), ended, expected)
    }

    /** Collects what `wait` returned, in order; a fail_fast failure breaks off. */
    method CollectBatch(done: seq<Key>)
      requires (Valid() && Traced()) == true && !abort && Distinct(done)
      requires forall k :: k in done ==> k in futures && k in call.steps && k in expected
      requires forall k :: k in done ==> expected[k] == Trace.STARTED
      modifies trace, `futures, `completed, `failed, `results, `failures, `abort, `paused, `ended, `expected
      ensures (Valid() && Traced()) == true && Abs() == Collect(call, old(Abs()), done)
      ensures ended == EndedAfter(call, old(Abs()), old(ended), done)
      ensures expected == ShownAfter(call, old(Abs()), old(expected), done)
    {
      var rest := done;
      while rest != [] && !abort
        invariant (Valid() && Traced()) == true
        invariant SameEnd(call, Books(), rest, old(Books()), done) == true
        decreases |rest|
      {
        SameEndStep(call, Books(), rest, old(Books()), done);
        CollectStep(rest[0]);
        rest := rest[1..];
      }
      SameEndReached(call, Books(), rest, old(Books()), done);
    }

    /** Every future's row shows queued, then running, and nothing else. */
    ghost predicate FuturesStarted()
      reads this
    {
      forall k :: k in futures ==> k in expected && expected[k] == Trace.STARTED
    }

    /** The top of a round, up to `wait`. */
    method LaunchPhase()
      requires Fresh() && FuturesStarted()
      modifies trace, `pending, `completed, `skipped, `failures, `futures, `launched, `rowOf, `expected
      ensures Valid() && Traced() && FuturesStarted() && Abs() == Head(call, old(Abs()))
      ensures expected == ShownAtHead(call, old(Abs()), old(expected))
    {
      if call.policy.DependentFail? {
        SkipDoomedSteps();
      } else {
        NothingSkipped(call, Abs());
        NothingShown(call, Abs(), expected);
      }
      SubmitReadySteps();
    }

    /** `wait`, and collecting what it returned. */
    method WaitAndCollect() returns (again: bool, done: seq<Key>)
      requires Valid() && Traced() && FuturesStarted() && !abort && futures != map[]
      modifies trace, `futures, `completed, `failed, `results, `failures, `abort, `paused, `ended, `expected
      ensures Valid() && Traced()
      ensures BatchMade(call, old(Abs()), old(ended), old(expected), again, done, Abs(), ended, expected)
    {
      done := Wait(futures.Keys);
      CollectBatch(done);
      again := !(paused.Some? && futures == map[]);
    }

    /** What an abort leaves of a round: the pending steps are dropped. */
    method DropPending()
      requires Valid() && Traced()
      modifies `pending
      ensures Valid() && Traced() && Abs() == old(Abs()).(pending := {})
    {
      pending := map[];
      assert Abs() == old(Abs()).(pending := {});
    }

    /** The rest of a round whose loop head was `s`, once its steps are submitted. */
    method FinishRound(ghost s: State, ghost was: map<Key, Outcome>, ghost shown: map<Key, Trace.Entry>)
      returns (again: bool, done: seq<Key>)
      requires Valid() && Traced() && FuturesStarted() && Known(call, s) && !s.abort
      requires Abs() == Head(call, s) && ended == was && expected == ShownAtHead(call, s, shown)
      modifies this, trace
      ensures Valid() && Traced()
      ensures RoundMade(call, s, was, shown, again, done, Abs(), ended, expected)
    {
      ghost var h, x := Abs(), expected;
      if futures == map[] {
        MadeIdle(call, s, was, shown, h, x);
        return false, [];
      }
      again, done := WaitAndCollect();
      MadeBatch(call, s, was, shown, h, x, again, done, Abs(), ended, expected);
    }

    /** A round that has not been aborted. */
    method RunRound() returns (again: bool, done: seq<Key>)
      requires Fresh() && FuturesStarted() && !abort
      modifies this, trace
      ensures Valid() && Traced()
      ensures RoundMade(call, old(Abs()), old(ended), old(expected), again, done, Abs(), ended, expected)
    {
      ghost var s, was, shown := Abs(), ended, expected;
      LaunchPhase();
      again, done := FinishRound(s, was, shown);
    }

    /** One pass of the loop body; `again` says whether the loop goes on, `done` what the pass collected. */
    method Round() returns (again: bool, done: seq<Key>)
      requires Fresh() && FuturesStarted()
      modifies this, trace
      ensures Valid() && Traced()
      ensures RoundMade(call, old(Abs()), old(ended), old(expected), again, done, Abs(), ended, expected)
    {
      if abort {
        done := [];
        again := false;
        ghost var s := Abs();
        DropPending();
        MadeAborted(call, s, ended, expected, Abs());
      } else {
        again, done := RunRound();
      }
    }

    /** What every loop head keeps. */
    ghost predicate Sound()
      reads this, trace
    {
      Valid() && Traced() && Kept(call, Abs(), ended, expected)
    }

    /** A pass of the loop body, seen as one more round of the run `schedule` has made so far. */
    method Pass(ghost schedule: seq<seq<Key>>) returns (again: bool, ghost longer: seq<seq<Key>>)
      requires Sound() == true && OnTrack(call, true, schedule, Abs()) == true
      requires pending != map[] || futures != map[]
      modifies this, trace
      ensures Sound() == true && OnTrack(call, again, longer, Abs()) == true
      ensures |schedule| < |call.steps.Keys|
      ensures again ==> |longer| == |schedule| + 1 && Work(Abs()) < Work(old(Abs()))
    {
      ghost var s, was, shown := Abs(), ended, expected;
      RoundIsWithin(call, schedule, s);
      KeptIsFresh(call, s, ended, expected);
      var done;
      again, done := Round();
      RoundKeeps(call, s, was, shown, again, done, Abs(), ended, expected);
      longer := RoundExtends(call, schedule, s, was, shown, again, done, Abs(), ended, expected);
    }

    /**
     The scheduling loop. The run it performs is a run of the transition system,
     it goes round at most once per step, and the trace agrees with its outcome.
     */
    method Execute() returns (rounds: nat, ghost schedule: seq<seq<Key>>)
      requires Sound() == true && Abs() == Init(call)
      modifies this, trace
      ensures Sound() == true && Ends(call, Init(call), schedule, Abs()) == true
      ensures rounds <= |call.steps.Keys|
    {
      rounds, schedule := 0, [];
      TrackStarts(call);
      var again := true;
      while again && (pending != map[] || futures != map[])
        invariant Sound() == true && OnTrack(call, again, schedule, Abs()) == true
        invariant (again ==> rounds == |schedule|) && rounds <= |call.steps.Keys|
        decreases again, Work(Abs())
      {
        again, schedule := Pass(schedule);
        rounds := rounds + 1;
      }
      TrackEnds(call, again, schedule, Abs(), pending, futures);
    }
  }

  /** The run so far: a loop head still to go on from, or the end. */
  ghost predicate OnTrack(c: Call, again: bool, schedule: seq<seq<Key>>, s: State) {
    if again then Reaches(c, Init(c), schedule, s) else Ends(c, Init(c), schedule, s)
  }

  lemma TrackStarts(c: Call)
    ensures OnTrack(c, true, [], Init(c)) == true
  {
  }

  lemma TrackEnds(c: Call, again: bool, schedule: seq<seq<Key>>, s: State,
                  pending: map<Key, Step>, futures: map<Key, Future>)
    requires OnTrack(c, again, schedule, s) == true && s.pending == pending.Keys && s.inflight == futures.Keys
    requires !(again && (pending != map[] || futures != map[]))
    ensures Ends(c, Init(c), schedule, s) == true
  {
    if again {
      LeaveDone(c, schedule, s);
    }
  }

  /** `wait(..., FIRST_COMPLETED)`: some of the steps in flight, at least one, each once, in any order. */
  method Wait(inflight: set<Key>) returns (done: seq<Key>)
    requires inflight != {}
    ensures done != [] && Distinct(done) && forall k :: k in done ==> k in inflight
  {
    var k :| k in inflight;
    done := [k];
  }

  method MarkEnd(trace: Trace.ExecutionSteps, id: nat, ghost k: Key, step: Step, o: Outcome)
    requires id < |trace.rows| && trace.rows[id] == Trace.RowOf(k, Trace.STARTED)
    modifies trace
    ensures trace.rows == old(trace.rows)[id := Trace.RowOf(k, Trace.EntryOf(step, o))]
  {
    assert Trace.STARTED.history + [Trace.Succeeded] == [Trace.Queued, Trace.Running, Trace.Succeeded];
    assert Trace.STARTED.history + [Trace.Failed] == [Trace.Queued, Trace.Running, Trace.Failed];
    match o
    case Output(v) =>
      trace.MarkSuccess(id, v);
    case FailedResult(m) =>
      trace.MarkFailed(id, m);
    case UnknownKind =>
      trace.MarkFailed(id, ErrorText(step, o));
    case Raised(_) =>
      assert trace.rows[id := trace.rows[id]] == trace.rows;
  }

  /** How the collected steps ended and what is recorded of them. */
  ghost predicate Accounted(c: Call, s: State, ended: map<Key, Outcome>) {
    && (forall k :: k in ended ==> k in c.steps && k in s.launched && k in s.completed)
    && (forall k :: k in ended && ended[k].Output? ==>
          k !in s.failed && k in s.results && s.results[k] == ended[k].value)
    && (forall k :: k in ended && !ended[k].Output? ==>
                      k in s.failed && k in s.failures && s.failures[k] == ErrorText(c.steps[k], ended[k]))
    && (forall k :: k in s.launched && k in s.completed ==> k in ended)
    && (NeverRaises(c) ==> forall k :: k in ended ==> !ended[k].Raised?)
  }

  /** Executors always return a result, be it a failed one. */
  ghost predicate NeverRaises(c: Call) {
    forall k, seen :: k in c.steps ==> !c.exec(c.steps[k], seen).Raised?
  }

  /**
   The trace of a finished, unaborted call against its outcome, key by key: the
   steps with a row are exactly those that succeeded, failed or were skipped, and
   the row shows the statuses that belong to it with the step's result or error. A
   failed step whose executor raised is the one exception: its row is left running.
   */
  ghost predicate TraceAgrees(c: Call, f: State, ended: map<Key, Outcome>, expected: map<Key, Trace.Entry>) {
    && ended.Keys == Succeeded(c, f) + f.failed
    && expected.Keys == Succeeded(c, f) + f.failed + f.skipped
    && (forall k :: k in Succeeded(c, f) ==>
          k in f.results && ended[k] == Output(f.results[k]) &&
          expected[k] == Trace.Entry([Trace.Queued, Trace.Running, Trace.Succeeded], Some(f.results[k]), None))
    && (forall k :: k in f.failed ==>
          k in f.failures && !ended[k].Output? &&
          expected[k] == if ended[k].Raised? then Trace.Entry([Trace.Queued, Trace.Running], None, None)
                         else Trace.Entry([Trace.Queued, Trace.Running, Trace.Failed], None, Some(f.failures[k])))
    && (forall k :: k in f.skipped ==>
          expected[k] == Trace.Entry([Trace.Queued, Trace.Skipped], None, Some("dependency failed")))
    && (NeverRaises(c) ==> forall k :: k in f.failed ==> !ended[k].Raised?)
  }

  lemma KeptTraceAgrees(c: Call, f: State, ended: map<Key, Outcome>, expected: map<Key, Trace.Entry>)
    requires Kept(c, f, ended, expected) && f.inflight == {} && !f.abort
    ensures TraceAgrees(c, f, ended, expected)
  {
    KeptKeys(c, f, ended, expected);
    assert forall k :: k in ended ==> RecordedAs(c, f, k, ended[k]);
  }

  lemma KeptKeys(c: Call, f: State, ended: map<Key, Outcome>, expected: map<Key, Trace.Entry>)
    requires Kept(c, f, ended, expected) && f.inflight == {} && !f.abort
    ensures ended.Keys == Succeeded(c, f) + f.failed
    ensures expected.Keys == Succeeded(c, f) + f.failed + f.skipped
    ensures forall k :: k in ended ==> (ended[k].Output? <==> k in Succeeded(c, f))
  {
    assert forall k :: k in ended ==> k !in f.skipped && k !in c.seedKeys;
  }

  /** What the rows of the call must show. */
  ghost predicate Shown(c: Call, s: State, ended: map<Key, Outcome>, expected: map<Key, Trace.Entry>) {
    && (forall k :: k in expected <==> k in s.launched || k in s.skipped)
    && (forall k :: k in ended ==> k in c.steps && k in expected && expected[k] == Trace.EntryOf(c.steps[k], ended[k]))
    && (forall k :: k in s.inflight ==> k in expected && expected[k] == Trace.STARTED)
    && (forall k :: k in s.skipped ==> k in expected && expected[k] == Trace.SKIPPED)
  }

  /** How the steps collected by `Collect` ended, on top of `ended`. */
  ghost function EndedAfter(c: Call, s: State, ended: map<Key, Outcome>, batch: seq<Key>): map<Key, Outcome>
    requires forall k :: k in batch ==> k in c.steps
    decreases |batch|
  {
    if batch == [] || s.abort then ended
    else EndedAfter(c, Finish(c, s, batch[0]), ended[batch[0] := c.exec(c.steps[batch[0]], s.results)], batch[1..])
  }

  /** What their rows show after `Collect`. */
  ghost function ShownAfter(c: Call, s: State, expected: map<Key, Trace.Entry>, batch: seq<Key>):
      map<Key, Trace.Entry>
    requires forall k :: k in batch ==> k in c.steps
    decreases |batch|
  {
    if batch == [] || s.abort then expected
    else
      var k := batch[0];
      var e := Trace.EntryOf(c.steps[k], c.exec(c.steps[k], s.results));
      ShownAfter(c, Finish(c, s, k), expected[k := e], batch[1..])
  }

  /** A state with what is recorded of it. */
  datatype Ledger = Ledger(s: State, ended: map<Key, Outcome>, expected: map<Key, Trace.Entry>)

  /** The ledger after collecting `k`. */
  ghost function Entered(c: Call, l: Ledger, k: Key): Ledger
    requires k in c.steps
  {
    var o := c.exec(c.steps[k], l.s.results);
    Ledger(Finish(c, l.s, k), l.ended[k := o], l.expected[k := Trace.EntryOf(c.steps[k], o)])
  }

  /** The steps of `rest` are in flight, and their rows show queued, then running. */
  ghost predicate Awaited(l: Ledger, rest: seq<Key>) {
    && Distinct(rest)
    && forall k :: k in rest ==> k in l.s.inflight && k in l.expected && l.expected[k] == Trace.STARTED
  }

  /** Collecting `rest` on top of `l` leads to where collecting `batch` on top of `l0` does. */
  ghost predicate SameEnd(c: Call, l: Ledger, rest: seq<Key>, l0: Ledger, batch: seq<Key>) {
    && (forall k :: k in rest ==> k in c.steps) && (forall k :: k in batch ==> k in c.steps)
    && (!l.s.abort ==> Awaited(l, rest))
    && Collect(c, l.s, rest) == Collect(c, l0.s, batch)
    && EndedAfter(c, l.s, l.ended, rest) == EndedAfter(c, l0.s, l0.ended, batch)
    && ShownAfter(c, l.s, l.expected, rest) == ShownAfter(c, l0.s, l0.expected, batch)
  }

  lemma SameEndStep(c: Call, l: Ledger, rest: seq<Key>, l0: Ledger, batch: seq<Key>)
    requires SameEnd(c, l, rest, l0, batch) == true && rest != [] && !l.s.abort
    ensures rest[0] in c.steps && rest[0] in l.s.inflight
    ensures rest[0] in l.expected && l.expected[rest[0]] == Trace.STARTED
    ensures SameEnd(c, Entered(c, l, rest[0]), rest[1..], l0, batch) == true
  {
  }

  /** At the end of the batch, or once an abort broke it off. */
  lemma SameEndReached(c: Call, l: Ledger, rest: seq<Key>, l0: Ledger, batch: seq<Key>)
    requires SameEnd(c, l, rest, l0, batch) == true && (rest == [] || l.s.abort)
    ensures forall k :: k in batch ==> k in c.steps
    ensures l.s == Collect(c, l0.s, batch) && l.ended == EndedAfter(c, l0.s, l0.ended, batch)
    ensures l.expected == ShownAfter(c, l0.s, l0.expected, batch)
  {
  }

  /** What the rows show after the top of a round. */
  ghost function ShownAtHead(c: Call, s: State, expected: map<Key, Trace.Entry>): map<Key, Trace.Entry>
    requires Known(c, s)
  {
    expected + Trace.Entries(DoomedKeys(c, s), Trace.SKIPPED)
             + Trace.Entries(ReadyKeys(c, SkipDoomed(c, s)), Trace.STARTED)
  }

  /** Everything a loop head keeps. */
  ghost predicate Kept(c: Call, s: State, ended: map<Key, Outcome>, expected: map<Key, Trace.Entry>) {
    ValidCall(c) && Inv(c, s) && Accounted(c, s, ended) && Shown(c, s, ended, expected)
  }

  lemma KeptInit(c: Call)
    requires ValidCall(c)
    ensures Kept(c, Init(c), map[], map[])
  {
    InvInit(c);
    InitAccounted(c);
  }

  lemma NothingShown(c: Call, s: State, expected: map<Key, Trace.Entry>)
    requires Known(c, s) && !c.policy.DependentFail?
    ensures expected + Trace.Entries(DoomedKeys(c, s), Trace.SKIPPED) == expected
  {
  }

  lemma KeptHead(c: Call, s: State, ended: map<Key, Outcome>, expected: map<Key, Trace.Entry>)
    requires Kept(c, s, ended, expected) && !s.abort
    ensures s.pending !! expected.Keys && s.pending !! s.inflight
    ensures Kept(c, Head(c, s), ended, ShownAtHead(c, s, expected)) && !Head(c, s).abort
  {
    PendingIsNew(c, s, ended, expected);
    SkipAccounted(c, s, ended, expected);
    InvSkip(c, s);
    var m := SkipDoomed(c, s);
    LaunchAccounted(c, m, ended, expected + Trace.Entries(DoomedKeys(c, s), Trace.SKIPPED));
    InvLaunch(c, m);
  }

  lemma {:induction false} KeptCollect(
      c: Call, s: State, ended: map<Key, Outcome>, expected: map<Key, Trace.Entry>, batch: seq<Key>)
    requires Kept(c, s, ended, expected) && Distinct(batch)
    requires !s.abort ==> forall k :: k in batch ==> k in s.inflight
    requires forall k :: k in batch ==> k in c.steps
    ensures Kept(c, Collect(c, s, batch), EndedAfter(c, s, ended, batch), ShownAfter(c, s, expected, batch))
    decreases |batch|
  {
    if batch != [] && !s.abort {
      var o := c.exec(c.steps[batch[0]], s.results);
      InvFinish(c, s, batch[0]);
      FinishAccounted(c, s, ended, expected, batch[0]);
      KeptCollect(c, Finish(c, s, batch[0]), ended[batch[0] := o],
                  expected[batch[0] := Trace.EntryOf(c.steps[batch[0]], o)], batch[1..]);
    }
  }

  lemma RoundIsWithin(c: Call, schedule: seq<seq<Key>>, s: State)
    requires ValidCall(c) && Reaches(c, Init(c), schedule, s) && (s.pending != {} || s.inflight != {})
    ensures |schedule| < |c.steps.Keys|
  {
    InvInit(c);
    RoundsAreBounded(c, Init(c), schedule, s);
    assert |s.pending| > 0 || |s.inflight| > 0;
  }

  lemma LeaveDone(c: Call, schedule: seq<seq<Key>>, s: State)
    requires Reaches(c, Init(c), schedule, s) && s.pending == {} && s.inflight == {}
    ensures Ends(c, Init(c), schedule, s)
  {
    EndsNow(c, s);
    ReachesThenEnds(c, Init(c), schedule, s, [], s);
    assert schedule + [] == schedule;
  }

  lemma LeaveIdle(c: Call, schedule: seq<seq<Key>>, s: State)
    requires Reaches(c, Init(c), schedule, s) && Known(c, s) && LoopOn(s) && Head(c, s).inflight == {}
    ensures Ends(c, Init(c), schedule, Head(c, s))
  {
    EndsNow(c, s);
    ReachesThenEnds(c, Init(c), schedule, s, [], Head(c, s));
    assert schedule + [] == schedule;
  }

  lemma KeptClear(c: Call, s: State, ended: map<Key, Outcome>, expected: map<Key, Trace.Entry>)
    requires Kept(c, s, ended, expected) && s.abort
    ensures Kept(c, s.(pending := {}), ended, expected)
  {
    assert Succeeded(c, s.(pending := {})) == Succeeded(c, s);
    assert Partition(c, s.(pending := {})) && Records(c, s.(pending := {})) && Launches(c, s.(pending := {}));
  }

  lemma LeaveByAbort(c: Call, schedule: seq<seq<Key>>, s: State)
    requires Reaches(c, Init(c), schedule, s) && Known(c, s)
    requires s.abort && (s.pending != {} || s.inflight != {})
    ensures Ends(c, Init(c), schedule, s.(pending := {}))
  {
    EndsNow(c, s);
    ReachesThenEnds(c, Init(c), schedule, s, [], s.(pending := {}));
    assert schedule + [] == schedule;
  }

  /** What one pass of the loop body makes of loop head `s`. */
  ghost predicate RoundMade(
      c: Call, s: State, ended: map<Key, Outcome>, expected: map<Key, Trace.Entry>,
      again: bool, done: seq<Key>,
      t: State, ended': map<Key, Outcome>, expected': map<Key, Trace.Entry>)
  {
    Known(c, s) &&
    if s.abort then
      !again && t == s.(pending := {}) && ended' == ended && expected' == expected
    else if Head(c, s).inflight == {} then
      !again && t == Head(c, s) && ended' == ended && expected' == ShownAtHead(c, s, expected)
    else BatchMade(c, Head(c, s), ended, ShownAtHead(c, s, expected), again, done, t, ended', expected')
  }

  /** What collecting a batch makes of the state `h` at `wait`. */
  ghost predicate BatchMade(
      c: Call, h: State, ended: map<Key, Outcome>, expected: map<Key, Trace.Entry>,
      again: bool, done: seq<Key>,
      t: State, ended': map<Key, Outcome>, expected': map<Key, Trace.Entry>)
  {
    && ValidBatch(h, done) && (forall k :: k in done ==> k in c.steps)
    && t == Collect(c, h, done) && again == !PauseReached(t)
    && ended' == EndedAfter(c, h, ended, done)
    && expected' == ShownAfter(c, h, expected, done)
  }

  lemma MadeAborted(c: Call, s: State, ended: map<Key, Outcome>, expected: map<Key, Trace.Entry>, t: State)
    requires Known(c, s) && s.abort && t == s.(pending := {})
    ensures RoundMade(c, s, ended, expected, false, [], t, ended, expected)
  {
  }

  lemma MadeIdle(c: Call, s: State, ended: map<Key, Outcome>, expected: map<Key, Trace.Entry>, t: State,
                 shown: map<Key, Trace.Entry>)
    requires Known(c, s) && !s.abort && t == Head(c, s) && t.inflight == {} && shown == ShownAtHead(c, s, expected)
    ensures RoundMade(c, s, ended, expected, false, [], t, ended, shown)
  {
  }

  lemma MadeBatch(
      c: Call, s: State, ended: map<Key, Outcome>, expected: map<Key, Trace.Entry>,
      h: State, shown: map<Key, Trace.Entry>, again: bool, done: seq<Key>,
      t: State, ended': map<Key, Outcome>, expected': map<Key, Trace.Entry>)
    requires Known(c, s) && !s.abort && h == Head(c, s) && h.inflight != {} && shown == ShownAtHead(c, s, expected)
    requires BatchMade(c, h, ended, shown, again, done, t, ended', expected')
    ensures RoundMade(c, s, ended, expected, again, done, t, ended', expected')
  {
  }

  lemma KeptIsFresh(c: Call, s: State, ended: map<Key, Outcome>, expected: map<Key, Trace.Entry>)
    requires Kept(c, s, ended, expected)
    ensures s.pending !! expected.Keys && s.pending !! s.inflight
    ensures forall k :: k in s.inflight ==> k in expected && expected[k] == Trace.STARTED
  {
    PendingIsNew(c, s, ended, expected);
  }

  lemma RoundKeeps(
      c: Call, s: State, ended: map<Key, Outcome>, expected: map<Key, Trace.Entry>,
      again: bool, done: seq<Key>,
      t: State, ended': map<Key, Outcome>, expected': map<Key, Trace.Entry>)
    requires Kept(c, s, ended, expected) && RoundMade(c, s, ended, expected, again, done, t, ended', expected')
    ensures Kept(c, t, ended', expected')
  {
    if s.abort {
      KeptClear(c, s, ended, expected);
    } else {
      KeptHead(c, s, ended, expected);
      if Head(c, s).inflight != {} {
        KeptCollect(c, Head(c, s), ended, ShownAtHead(c, s, expected), done);
      }
    }
  }

  lemma RoundExtends(
      c: Call, schedule: seq<seq<Key>>, s: State, ended: map<Key, Outcome>, expected: map<Key, Trace.Entry>,
      again: bool, done: seq<Key>,
      t: State, ended': map<Key, Outcome>, expected': map<Key, Trace.Entry>)
      returns (longer: seq<seq<Key>>)
    requires Reaches(c, Init(c), schedule, s) && Partition(c, s) && (s.pending != {} || s.inflight != {})
    requires RoundMade(c, s, ended, expected, again, done, t, ended', expected')
    ensures again ==> Reaches(c, Init(c), longer, t) && |longer| == |schedule| + 1 && Work(t) < Work(s)
    ensures !again ==> Ends(c, Init(c), longer, t)
  {
    if s.abort {
      LeaveByAbort(c, schedule, s);
      longer := schedule;
    } else if Head(c, s).inflight == {} {
      LeaveIdle(c, schedule, s);
      longer := schedule;
    } else if again {
      ReachesSnoc(c, Init(c), schedule, s, done);
      RoundShrinks(c, s, done);
      longer := schedule + [done];
    } else {
      LeavePaused(c, schedule, s, done);
      longer := schedule + [done];
    }
  }

  lemma LeavePaused(c: Call, schedule: seq<seq<Key>>, s: State, batch: seq<Key>)
    requires Reaches(c, Init(c), schedule, s) && Known(c, s) && LoopOn(s)
    requires ValidBatch(Head(c, s), batch) && forall k :: k in batch ==> k in c.steps
    requires PauseReached(After(c, s, batch))
    ensures Ends(c, Init(c), schedule + [batch], After(c, s, batch))
  {
    EndsPaused(c, s, batch);
    ReachesThenEnds(c, Init(c), schedule, s, [batch], After(c, s, batch));
  }

  lemma InitAccounted(c: Call)
    ensures Accounted(c, Init(c), map[]) && Shown(c, Init(c), map[], map[])
  {
  }

  lemma PendingIsNew(c: Call, s: State, ended: map<Key, Outcome>, expected: map<Key, Trace.Entry>)
    requires Inv(c, s) && Shown(c, s, ended, expected)
    ensures s.pending !! expected.Keys && s.pending !! s.inflight
  {
  }

  lemma SkipAccounted(c: Call, s: State, ended: map<Key, Outcome>, expected: map<Key, Trace.Entry>)
    requires Inv(c, s) && !s.abort && Accounted(c, s, ended) && Shown(c, s, ended, expected)
    ensures Accounted(c, SkipDoomed(c, s), ended)
    ensures Shown(c, SkipDoomed(c, s), ended, expected + Trace.Entries(DoomedKeys(c, s), Trace.SKIPPED))
  {
    assert DoomedKeys(c, s) <= s.pending;
    SkipKeepsAccount(c, s, SkipDoomed(c, s), DoomedKeys(c, s), ended, expected);
  }

  lemma SkipKeepsAccount(c: Call, s: State, t: State, doomed: set<Key>, ended: map<Key, Outcome>,
                         expected: map<Key, Trace.Entry>)
    requires Partition(c, s) && Launches(c, s) && Accounted(c, s, ended) && Shown(c, s, ended, expected)
    requires doomed <= s.pending && t.launched == s.launched && t.inflight == s.inflight
    requires t.completed == s.completed + doomed && t.skipped == s.skipped + doomed
    requires t.failed == s.failed && t.results == s.results && t.failures == s.failures + SkipTexts(doomed)
    ensures Accounted(c, t, ended)
    ensures Shown(c, t, ended, expected + Trace.Entries(doomed, Trace.SKIPPED))
  {
    assert Accounted(c, t, ended) by {
      AccountStays(c, s, t, ended);
    }
  }

  /** An account stays true while failures and results only grow elsewhere. */
  lemma AccountStays(c: Call, s: State, t: State, ended: map<Key, Outcome>)
    requires Accounted(c, s, ended) && (forall k :: k in s.launched ==> k in t.launched)
    requires s.completed <= t.completed && t.failed == s.failed && t.results == s.results
    requires forall k :: k in s.failures && k in s.failed ==> k in t.failures && t.failures[k] == s.failures[k]
    requires forall k :: k in t.launched && k in t.completed ==> k in s.launched && k in s.completed
    ensures Accounted(c, t, ended)
  {
  }

  lemma FinishAccounted(c: Call, s: State, ended: map<Key, Outcome>, expected: map<Key, Trace.Entry>, k: Key)
    requires Inv(c, s) && !s.abort && Accounted(c, s, ended) && Shown(c, s, ended, expected) && k in s.inflight
    ensures var o := c.exec(c.steps[k], s.results);
            Accounted(c, Finish(c, s, k), ended[k := o]) &&
            Shown(c, Finish(c, s, k), ended[k := o], expected[k := Trace.EntryOf(c.steps[k], o)])
  {
    assert k in s.launched && k !in s.completed && k !in s.skipped;
    FinishKeepsAccount(c, s, ended, k);
    FinishKeepsShown(c, s, ended, expected, k, c.exec(c.steps[k], s.results));
  }

  lemma FinishKeepsAccount(c: Call, s: State, ended: map<Key, Outcome>, k: Key)
    requires Accounted(c, s, ended) && k in c.steps && k in s.launched && k !in s.completed && s.failed <= s.completed
    ensures Accounted(c, Finish(c, s, k), ended[k := c.exec(c.steps[k], s.results)])
  {
    var ended' := ended[k := c.exec(c.steps[k], s.results)];
    forall j | j in ended'
      ensures RecordedAs(c, Finish(c, s, k), j, ended'[j])
    {
      if j != k {
        OtherStaysAccounted(c, s, ended, k, j);
      } else {
        NewIsAccounted(c, s, k);
      }
    }
    FinishCompletes(c, s, k);
  }

  /** What is recorded of a step that ended in `o`. */
  predicate RecordedAs(c: Call, t: State, k: Key, o: Outcome) {
    && (o.Output? ==> k !in t.failed && k in t.results && t.results[k] == o.value)
    && (!o.Output? ==> k in c.steps && k in t.failed && k in t.failures && t.failures[k] == ErrorText(c.steps[k], o))
  }

  lemma FinishCompletes(c: Call, s: State, k: Key)
    requires k in c.steps
    ensures Finish(c, s, k).completed == s.completed + {k} && Finish(c, s, k).launched == s.launched
  {
  }

  lemma NewIsAccounted(c: Call, s: State, k: Key)
    requires k in c.steps && k !in s.failed
    ensures RecordedAs(c, Finish(c, s, k), k, c.exec(c.steps[k], s.results))
  {
  }

  lemma OtherStaysAccounted(c: Call, s: State, ended: map<Key, Outcome>, k: Key, j: Key)
    requires Accounted(c, s, ended) && k in c.steps && k !in s.completed && j in ended && j != k
    ensures RecordedAs(c, Finish(c, s, k), j, ended[j])
  {
  }

  lemma FinishKeepsShown(c: Call, s: State, ended: map<Key, Outcome>, expected: map<Key, Trace.Entry>, k: Key,
                         o: Outcome)
    requires Shown(c, s, ended, expected) && k in c.steps && k in s.launched && k !in s.skipped
    ensures Shown(c, Finish(c, s, k), ended[k := o], expected[k := Trace.EntryOf(c.steps[k], o)])
  {
    assert Finish(c, s, k).inflight <= s.inflight - {k};
  }

  lemma LaunchedKeys(c: Call, s: State)
    requires Known(c, s)
    ensures forall k :: k in Launch(c, s).launched <==> k in s.launched || k in ReadyKeys(c, s)
  {
  }

  lemma LaunchAccounted(c: Call, s: State, ended: map<Key, Outcome>, expected: map<Key, Trace.Entry>)
    requires Inv(c, s) && !s.abort && Accounted(c, s, ended) && Shown(c, s, ended, expected)
    ensures Accounted(c, Launch(c, s), ended)
    ensures Shown(c, Launch(c, s), ended, expected + Trace.Entries(ReadyKeys(c, s), Trace.STARTED))
  {
    LaunchedKeys(c, s);
    LaunchKeepsAccount(c, s, Launch(c, s), ReadyKeys(c, s), ended, expected);
  }

  lemma LaunchKeepsAccount(c: Call, s: State, t: State, ready: set<Key>, ended: map<Key, Outcome>,
                           expected: map<Key, Trace.Entry>)
    requires Partition(c, s) && Launches(c, s) && Accounted(c, s, ended) && Shown(c, s, ended, expected)
    requires ready <= s.pending && forall k :: k in t.launched <==> k in s.launched || k in ready
    requires t.completed == s.completed && t.failed == s.failed && t.results == s.results && t.failures == s.failures
    requires t.skipped == s.skipped && t.inflight == s.inflight + ready
    ensures Accounted(c, t, ended)
    ensures Shown(c, t, ended, expected + Trace.Entries(ready, Trace.STARTED))
  {
    assert Accounted(c, t, ended) by {
      AccountStays(c, s, t, ended);
    }
  }

  lemma RemoveOneMore<V>(m: map<Key, V>, done: set<Key>, k: Key)
    ensures m - done - {k} == m - (done + {k})
  {
  }

  lemma SkipOneMore(m: map<Key, string>, done: set<Key>, k: Key)
    ensures (m + SkipTexts(done))[k := SKIP_TEXT] == m + SkipTexts(done + {k})
  {
  }

  lemma ShowOneMore(m: map<Key, Trace.Entry>, done: set<Key>, k: Key, h: Trace.Entry)
    ensures (m + Trace.Entries(done, h))[k := h] == m + Trace.Entries(done + {k}, h)
  {
  }

  /**
   `execute_plan`. For every plan, seed, executor and schedule: the returned
   record is the final state of a run of the transition system, the loop went round
   at most once per step it could run, and, when the call is traced, the rows it
   added are one per launched or skipped step, with statuses that agree with the
   outcome unless the call aborted.
   */
  method ExecutePlan(steps: seq<Step>, policy: Policy, params: Env, seed: Seed, exec: Executor,
                     trace: Trace.ExecutionSteps?)
      returns (r: PlanResult, rounds: nat, ghost schedule: seq<seq<Key>>, ghost f: State,
               ghost ended: map<Key, Outcome>, ghost expected: map<Key, Trace.Entry>, ghost rowOf: map<Key, nat>)
    modifies trace
    ensures var c := StartCall(steps, policy, params, seed, exec);
            && ValidCall(c) && Ends(c, Init(c), schedule, f) && f.inflight == {}
            && rounds <= |c.steps.Keys|
            && (!f.abort ==> TraceAgrees(c, f, ended, expected))
    ensures r == PlanResult(f.results, f.failures, f.skipped, f.paused, f.completed)
    ensures var c := StartCall(steps, policy, params, seed, exec);
            && (r.pausedAtStep.Some? <==>
                exists k :: LeftPending(c, r.completedStepKeys, r.errors, r.results, k))
            && (r.pausedAtStep.Some? ==>
                LeftPending(c, r.completedStepKeys, r.errors, r.results, r.pausedAtStep.value))
    ensures trace != null ==> Trace.RowsMatch(old(trace.rows), trace.rows, rowOf, expected)
  {
    var run := new PlanRun(steps, policy, params, seed, exec, trace);
    KeptInit(run.call);
    rounds, schedule := run.Execute();
    f, ended, expected, rowOf := run.Abs(), run.ended, run.expected, run.rowOf;
    RunIsOver(run.call, schedule, f, ended, expected);
    PausedIffLeftPending(run.call, schedule, f);
    r := PlanResult(run.results, run.failures, run.skipped, run.paused, run.completed);
  }

  lemma RunIsOver(c: Call, schedule: seq<seq<Key>>, f: State, ended: map<Key, Outcome>,
                  expected: map<Key, Trace.Entry>)
    requires ValidCall(c) && Ends(c, Init(c), schedule, f) && Kept(c, f, ended, expected)
    ensures f.inflight == {}
    ensures !f.abort ==> TraceAgrees(c, f, ended, expected)
  {
    InvInit(c);
    InvEnds(c, Init(c), schedule, f);
    if !f.abort {
      KeptTraceAgrees(c, f, ended, expected);
    }
  }
}
