/**
 Which steps ever run when none is skipped. A set of keys blocks itself when none
 of them is seeded and every step in it has a dependency in it. No member of such
 a set starts, and when nothing is conditional these are the only steps that do
 not. A step is in such a set exactly when a chain of dependencies leads from it
 to a cycle or to a disabled or unknown key. `Startable` is about dependent_fail.
 */
module Progress {
  import opened Conditions
  import opened Plans
  import opened PlanInvariants
  import opened Started
  import opened Sets

  ghost predicate SelfBlocking(c: Call, blocked: set<Key>) {
    forall k :: k in blocked ==> k !in c.seedKeys && (k in c.steps ==> DependsOnAny(c.steps[k], blocked))
  }

  ghost predicate Untouched(s: State, keys: set<Key>) {
    keys !! s.completed && forall k :: k in keys ==> k !in s.launched
  }

  lemma NothingSkipped(c: Call, s: State)
    requires Known(c, s) && !c.policy.DependentFail?
    ensures SkipDoomed(c, s) == s
  {
    assert DoomedKeys(c, s) == {};
    assert s.failures + SkipTexts(DoomedKeys(c, s)) == s.failures;
  }

  lemma LaunchLeaves(c: Call, s: State, blocked: set<Key>)
    requires Known(c, s) && SelfBlocking(c, blocked) && Untouched(s, blocked)
    ensures Untouched(Launch(c, s), blocked)
  {
    forall k | k in blocked && k in c.steps
      ensures k !in ReadyKeys(c, s)
    {
      assert DependsOnAny(c.steps[k], blocked);
    }
  }

  lemma {:induction false} CollectLeaves(c: Call, s: State, batch: seq<Key>, blocked: set<Key>)
    requires Untouched(s, blocked)
    requires forall k :: k in batch ==> k in c.steps && k !in blocked
    ensures Untouched(Collect(c, s, batch), blocked)
    decreases |batch|
  {
    if batch != [] && !s.abort {
      CollectLeaves(c, Finish(c, s, batch[0]), batch[1..], blocked);
    }
  }

  lemma HeadLeaves(c: Call, s: State, blocked: set<Key>)
    requires ValidCall(c) && Inv(c, s) && !s.abort && !c.policy.DependentFail?
    requires SelfBlocking(c, blocked) && Untouched(s, blocked)
    ensures Untouched(Head(c, s), blocked)
    ensures forall k :: k in Head(c, s).inflight ==> k !in blocked
  {
    NothingSkipped(c, s);
    LaunchLeaves(c, s, blocked);
    InvHead(c, s);
  }

  lemma {:induction false} EndsLeaves(c: Call, s: State, schedule: seq<seq<Key>>, f: State, blocked: set<Key>)
    requires ValidCall(c) && Inv(c, s) && !c.policy.DependentFail? && Ends(c, s, schedule, f)
    requires SelfBlocking(c, blocked) && Untouched(s, blocked)
    ensures Untouched(f, blocked)
    decreases |schedule|
  {
    if LoopOn(s) {
      HeadLeaves(c, s, blocked);
      if Head(c, s).inflight != {} {
        CollectLeaves(c, Head(c, s), schedule[0], blocked);
        InvAfter(c, s, schedule[0]);
        if !PauseReached(After(c, s, schedule[0])) {
          EndsLeaves(c, After(c, s, schedule[0]), schedule[1..], f, blocked);
        }
      }
    }
  }

  /** Blocked steps never start: neither conditions nor outcomes nor the schedule can change that. */
  lemma BlockedNeverStart(c: Call, schedule: seq<seq<Key>>, f: State, blocked: set<Key>)
    requires ValidCall(c) && !c.policy.DependentFail? && Ends(c, Init(c), schedule, f) && SelfBlocking(c, blocked)
    ensures forall k :: k in blocked ==> k !in f.launched && k !in f.completed
  {
    InvInit(c);
    EndsLeaves(c, Init(c), schedule, f, blocked);
  }

  ghost predicate Unconditional(c: Call) {
    forall k :: k in c.steps ==> c.steps[k].condition.Always?
  }

  ghost predicate Blocked(c: Call, k: Key) {
    exists blocked: set<Key> :: k in blocked && SelfBlocking(c, blocked)
  }

  /** Everything mentioned by the call: its steps and their dependencies. */
  ghost function Mentioned(c: Call): set<Key> {
    c.steps.Keys + set k, d | k in c.steps && d in c.steps[k].dependsOn :: d
  }

  /** When the loop ends by itself nothing that is left could have run, whatever the executors read. */
  lemma {:induction false} NothingReadyIsLeft(c: Call, s: State, schedule: seq<seq<Key>>, f: State)
    requires ValidCall(c) && Inv(c, s) && Ends(c, s, schedule, f) && f.paused.None? && !f.abort
    ensures forall k :: k in f.pending ==> k in c.steps && !IsReady(c, f, c.steps[k])
    decreases |schedule|
  {
    if LoopOn(s) {
      InvHead(c, s);
      if Head(c, s).inflight == {} {
        IdleHeadIsStuck(c, s);
      } else {
        InvAfter(c, s, schedule[0]);
        if !PauseReached(After(c, s, schedule[0])) {
          NothingReadyIsLeft(c, After(c, s, schedule[0]), schedule[1..], f);
        }
      }
    }
  }

  lemma IdleHeadIsStuck(c: Call, s: State)
    requires Known(c, s) && s.paused.None? && Head(c, s).inflight == {}
    ensures forall k :: k in Head(c, s).pending ==> k in c.steps && !IsReady(c, Head(c, s), c.steps[k])
  {
    var m := SkipDoomed(c, s);
    assert ReadyKeys(c, m) == {};
    forall k | k in Head(c, s).pending
      ensures k in c.steps && !IsReady(c, Head(c, s), c.steps[k])
    {
      assert k !in ReadyKeys(c, m);
    }
  }

  lemma LeftoverBlocksItself(c: Call, f: State)
    requires ValidCall(c) && Unconditional(c) && Inv(c, f) && f.inflight == {} && !f.abort
    requires forall k :: k in f.pending ==> k in c.steps && !IsReady(c, f, c.steps[k])
    ensures SelfBlocking(c, Mentioned(c) - f.completed)
  {
    var left := Mentioned(c) - f.completed;
    forall k | k in left && k in c.steps
      ensures DependsOnAny(c.steps[k], left)
    {
      assert k in f.pending;
      var d :| d in c.steps[k].dependsOn && d !in f.completed;
      assert d in Mentioned(c);
    }
  }

  lemma UnblockedCompletes(c: Call, schedule: seq<seq<Key>>, f: State, k: Key)
    requires ValidCall(c) && Unconditional(c) && Ends(c, Init(c), schedule, f) && f.paused.None? && !f.abort
    requires k in c.steps && k !in f.completed
    ensures Blocked(c, k)
  {
    InvInit(c);
    InvEnds(c, Init(c), schedule, f);
    NothingReadyIsLeft(c, Init(c), schedule, f);
    LeftoverBlocksItself(c, f);
    assert k in Mentioned(c) - f.completed;
  }

  lemma OnlyFailFastAborts(c: Call, schedule: seq<seq<Key>>, f: State)
    requires ValidCall(c) && Ends(c, Init(c), schedule, f) && !c.policy.FailFast?
    ensures !f.abort
  {
    InvInit(c);
    InvEnds(c, Init(c), schedule, f);
  }

  /**
   Progress, exactly: in a call without conditions that ends without a pause, a
   step is completed if and only if it is not blocked. Nothing is asked of the
   executors. fail_fast is included as long as nothing fails.
   */
  lemma CompletedUnlessBlocked(c: Call, schedule: seq<seq<Key>>, f: State, k: Key)
    requires ValidCall(c) && Unconditional(c) && !c.policy.DependentFail? && (c.policy.FailFast? ==> !f.abort)
    requires Ends(c, Init(c), schedule, f) && f.paused.None? && k in c.steps
    ensures k in f.completed <==> !Blocked(c, k)
  {
    if !c.policy.FailFast? {
      OnlyFailFastAborts(c, schedule, f);
    }
    if k !in f.completed {
      UnblockedCompletes(c, schedule, f, k);
    } else if Blocked(c, k) {
      var blocked: set<Key> :| k in blocked && SelfBlocking(c, blocked);
      BlockedNeverStart(c, schedule, f, blocked);
    }
  }

  // ---------------------------------------------------------------- chains of dependencies

  /** Each step of the chain depends on the next key. */
  predicate Chain(c: Call, path: seq<Key>) {
    path != [] && forall i :: 0 <= i < |path| - 1 ==> path[i] in c.steps && path[i + 1] in c.steps[path[i]].dependsOn
  }

  /** It ends in a key that is neither a step of the call nor seeded: a disabled or an unknown one. */
  predicate EndsUnmet(c: Call, path: seq<Key>)
    requires path != []
  {
    path[|path| - 1] !in c.steps && path[|path| - 1] !in c.seedKeys
  }

  /** It runs into itself: its last key occurred before. */
  predicate Loops(path: seq<Key>)
    requires path != []
  {
    path[|path| - 1] in path[..|path| - 1]
  }

  ghost predicate DeadEnd(c: Call, k: Key) {
    exists path :: Chain(c, path) && path[0] == k && (EndsUnmet(c, path) || Loops(path))
  }

  lemma ChainBlocksItself(c: Call, path: seq<Key>)
    requires ValidCall(c) && Chain(c, path) && (EndsUnmet(c, path) || Loops(path))
    ensures SelfBlocking(c, set k | k in path)
  {
    var keys := set k | k in path;
    forall k | k in keys
      ensures k !in c.seedKeys && (k in c.steps ==> DependsOnAny(c.steps[k], keys))
    {
      var last := |path| - 1;
      var i :| 0 <= i < |path| && path[i] == k;
      var j := if i == last && Loops(path) then IndexIn(path[..last], path[last]) else i;
      assert path[j] == k && (j < last || EndsUnmet(c, path));
      if j < last {
        assert path[j + 1] in c.steps[k].dependsOn && path[j + 1] in keys;
      }
    }
  }

  ghost function IndexIn(path: seq<Key>, k: Key): (i: nat)
    requires k in path
    ensures i < |path| && path[i] == k
  {
    var i :| 0 <= i < |path| && path[i] == k;
    i
  }

  lemma ChainSnoc(c: Call, path: seq<Key>, d: Key)
    requires Chain(c, path) && path[|path| - 1] in c.steps && d in c.steps[path[|path| - 1]].dependsOn
    ensures Chain(c, path + [d]) && (d in path ==> Loops(path + [d]))
  {
    var longer := path + [d];
    assert longer[..|path|] == path;
    forall i | 0 <= i < |longer| - 1
      ensures longer[i] in c.steps && longer[i + 1] in c.steps[longer[i]].dependsOn
    {
      assert longer[i] == path[i];
      assert i < |path| - 1 ==> longer[i + 1] == path[i + 1];
    }
  }

  /** From a key of a self-blocking set some chain inside the set reaches a dead end. */
  lemma {:induction false} BlockedChain(c: Call, blocked: set<Key>, path: seq<Key>, unseen: set<Key>)
      returns (whole: seq<Key>)
    requires SelfBlocking(c, blocked) && Chain(c, path) && path[|path| - 1] in blocked
    requires forall k :: k in c.steps && k !in path ==> k in unseen
    ensures Chain(c, whole) && whole[0] == path[0] && (EndsUnmet(c, whole) || Loops(whole))
    decreases |unseen|
  {
    var last := path[|path| - 1];
    whole := path;
    if last in c.steps {
      var d :| d in c.steps[last].dependsOn && d in blocked;
      ChainSnoc(c, path, d);
      whole := path + [d];
      if d in c.steps && d !in path {
        assert d in unseen;
        SubsetSize(unseen - {d}, unseen);
        whole := BlockedChain(c, blocked, path + [d], unseen - {d});
      }
    }
  }

  /** Blocked means: some chain of dependencies leads to a cycle, or to a disabled or unknown key. */
  lemma BlockedIffDeadEnd(c: Call, k: Key)
    requires ValidCall(c)
    ensures Blocked(c, k) <==> DeadEnd(c, k)
  {
    if Blocked(c, k) {
      var blocked: set<Key> :| k in blocked && SelfBlocking(c, blocked);
      var path := BlockedChain(c, blocked, [k], c.steps.Keys);
    }
    if DeadEnd(c, k) {
      var path :| Chain(c, path) && path[0] == k && (EndsUnmet(c, path) || Loops(path));
      ChainBlocksItself(c, path);
      assert k in set j | j in path;
    }
  }

  /** `rank` orders the dependencies of the call's steps, and every one of them can be met. */
  ghost predicate AcyclicBy(c: Call, rank: map<Key, nat>) {
    && c.steps.Keys <= rank.Keys
    && forall k, d :: k in c.steps && d in c.steps[k].dependsOn ==>
         d in c.seedKeys || (d in c.steps && rank[d] < rank[k])
  }

  lemma {:induction false} RankedIsNotBlocked(c: Call, rank: map<Key, nat>, blocked: set<Key>, k: Key)
    requires AcyclicBy(c, rank) && SelfBlocking(c, blocked) && k in c.steps
    ensures k !in blocked
    decreases rank[k]
  {
    if k in blocked {
      var d :| d in c.steps[k].dependsOn && d in blocked;
      RankedIsNotBlocked(c, rank, blocked, d);
    }
  }

  /** An acyclic plan whose dependencies are all enabled completes every step, whatever the executors read. */
  lemma AcyclicPlanCompletes(c: Call, rank: map<Key, nat>, schedule: seq<seq<Key>>, f: State)
    requires ValidCall(c) && Unconditional(c) && !c.policy.DependentFail? && (c.policy.FailFast? ==> !f.abort)
    requires AcyclicBy(c, rank) && Ends(c, Init(c), schedule, f) && f.paused.None?
    ensures c.steps.Keys <= f.completed
  {
    forall k | k in c.steps
      ensures k in f.completed
    {
      if Blocked(c, k) {
        var blocked: set<Key> :| k in blocked && SelfBlocking(c, blocked);
        RankedIsNotBlocked(c, rank, blocked, k);
      }
      CompletedUnlessBlocked(c, schedule, f, k);
    }
  }

  /** Closed under: enabled, all dependencies in the set, condition true on the given results. */
  ghost predicate ClosedSet(c: Call, keys: set<Key>, results: Env) {
    c.seedKeys <= keys &&
    forall k :: k in c.steps && DependsOnlyOn(c.steps[k], keys) && Holds(c.steps[k].condition, c.params, results) ==>
      k in keys
  }

  lemma CompletedIsClosed(c: Call, schedule: seq<seq<Key>>, f: State)
    requires ValidCall(c) && Ends(c, Init(c), schedule, f) && f.paused.None? && !f.abort
    ensures ClosedSet(c, f.completed, f.results)
  {
    InvInit(c);
    InvEnds(c, Init(c), schedule, f);
    NothingReadyIsLeft(c, Init(c), schedule, f);
    forall k | k in c.steps && IsReady(c, f, c.steps[k])
      ensures k in f.completed
    {
      assert k !in f.pending;
    }
  }

  lemma NoSmallerSetIsClosed(c: Call, schedule: seq<seq<Key>>, f: State, keys: set<Key>)
    requires ValidCall(c) && SeedsSettled(c) && !c.policy.DependentFail? && Ends(c, Init(c), schedule, f) && !f.abort
    requires ClosedSet(c, keys, f.results)
    ensures f.completed <= keys
  {
    var extra := f.completed - keys;
    StartedSteps(c, schedule, f);
    forall k | k in extra && k in c.steps
      ensures DependsOnAny(c.steps[k], extra)
    {
      assert k in f.launched;
      var d :| d in c.steps[k].dependsOn && d !in keys;
    }
    BlockedNeverStart(c, schedule, f, extra);
  }

  /**
   The completed set of a finished run that neither skips nor aborts is the least
   closed set. Nothing is asked of executors, and conditions may read any result.
   */
  lemma CompletedIsLeastClosedSet(c: Call, schedule: seq<seq<Key>>, f: State, keys: set<Key>)
    requires ValidCall(c) && SeedsSettled(c) && !c.policy.DependentFail? && (c.policy.FailFast? ==> !f.abort)
    requires Ends(c, Init(c), schedule, f) && f.paused.None?
    ensures ClosedSet(c, f.completed, f.results)
    ensures ClosedSet(c, keys, f.results) ==> f.completed <= keys
  {
    if !c.policy.FailFast? {
      OnlyFailFastAborts(c, schedule, f);
    }
    CompletedIsClosed(c, schedule, f);
    if ClosedSet(c, keys, f.results) {
      NoSmallerSetIsClosed(c, schedule, f, keys);
    }
  }
}
