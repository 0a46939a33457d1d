# Verified model of the plan scheduler, the expression layer and the billing gateway

This project models five parts of the repository and proves what they keep, for all
inputs, all schedules and all interleavings:

- **The plan scheduler** (`orchestration/services/orchestrator.py`). `Plans` gives one
  `execute_plan` call as a transition system: a round of the loop is a function of the state
  at the loop head and of the batch of steps that `wait` hands back, a run is the sequence of
  its batches, and an executor is an arbitrary function of the step and of the results.
  `Orchestrator` is the loop itself, a class whose fields are the code's variables and
  whose methods reassign them; it is proved to perform runs of the transition system.
  `PlanInvariants`, `ScheduleIndependence`, `Progress`, `Started`, `Startable`, `HumanGate`,
  `ReviewGate`, `Resume`, `ResumeFromResults`, `ResumeDependentFail`, `SecondReview` and `Outcomes`
  (what is recorded of each step, and which answers pause a call) hold the theorems.
- **The step trace** (`orchestration/services/execution_steps_repository.py`), in `StepTrace`:
  the table, whose rows keep every status they have held, driven by `Orchestrator`.
- **The expression layer** (`orchestration/services/expression.py`): `Rewrite` (the regular
  expression and its substitution), `RewriteLaws`, `Expression` (path lookup, `or` fallbacks,
  bindings), `Fallbacks` (what they yield, against a reader of segments), `Conditions`,
  `ConditionLaws` (the meaning of the operators) and `ConditionText` (the rewrite preserves meaning).
- **The billing catalog** (`KillBill/gateway/catalog-sync.js`, and `generateCatalogXML` of
  `KillBill/gateway/index.js`). `CatalogSync` is the merge on texts: index searches, patterns,
  splices, on arbitrary strings. `Xml`, `XmlSearch`, `CatalogDocs`, `CatalogNames` and
  `CatalogMerge` carry it over to documents (sequences of tags and character data), and the
  laws about nesting, places, dates, declared names, listed plans and repetition are in
  `CatalogLists`, `CatalogLaws`, `CatalogPlaces`, `CatalogDates`, `CatalogDeclarations`,
  `CatalogEntries`, `CatalogRepeat` and `CatalogPrint`. `CatalogReading` reads a document back as
  texts under tag paths; what a plan, a merged and a printed catalog say to that reader is in
  `CatalogReading`, `CatalogContents` and `CatalogPrinted`.
- **The gateway's trial claims and reminder mails** (`KillBill/gateway/index.js`): `Trials`, a
  transition system over overlapping requests with the handlers as methods of a class,
  `TrialRequests`, its theorems over requests and offers, and `Reminders`, the day arithmetic and
  the loops of one check.

`Wrappers`, `Json`, `Sequences`, `Sets`, `Text` and `Decimals` are shared helpers.
`dafny verify dfyconfig.toml` checks everything.

## Where the code differs from what it promises

Each of these is proved in the model, with the exact condition where there is one.

- `execute_plan` returns `completed_step_keys`, but the approval endpoint resumes with the keys
  of the stored results instead (`orchestration/services/main.py:1838-1841`). Failed steps have
  no result, so under every error policy some step runs a second time if and only if one had
  failed before the pause (`SomeStepRunsTwiceIffOneFailed`), against the promise that nothing
  runs again (`orchestration/services/main.py:1822-1826`). Over an execution that pauses and
  resumes any number of times, some step is handed out by two of its calls if and only if a call
  before the last one had a failure (`ExecutionRunsTwiceIffFailed`).
- A call may leave two reviews pending, and the approval of one resumes it. The resuming call
  takes the other one for finished too, so it hands out what waits for a review nobody decided.
  Without conditions this happens for some executors if and only if such a step is left that the
  plan lets start (`UndecidedReviewIsPassedIff`), and there are calls in which it always happens
  (`OneApprovalPassesBoth`).
- Under `dependent_fail` skipping counts as completing, so a step behind a pending review can
  run past it when the step between them is skipped (`SkippingSlipsPastReview`). Over all
  executors this happens in an acyclic plan without conditions if and only if some step behind
  the review can be skipped past it (`GateFailsIff`): failing steps that are not behind the
  review skip every dependency of it that is, and it depends on neither them nor the review.
- A resumed call has forgotten which steps failed (`ResumeForgetsFailures`). The rule that a
  step with a failed dependency never starts breaks in some resuming run if and only if the
  paused call left a step pending that has a failed dependency and that the resuming call can
  start (`RuleBreaksIff`); in an acyclic plan every such step will do (`AcyclicRuleBreaksIff`).
- A skip can also open a cycle: a step that waits in a cycle starts once the step it waits for
  is skipped (`SkipOpensCycle`), though no cycle ever starts under the other policies.
- An executor that raises instead of returning a failed result leaves its trace row at
  `running` (`orchestration/services/orchestrator.py:331-333`); `TraceAgrees` says so.
- The dotted-path rewrite does not look at quotes: it turns the text of a condition into the
  text of the same condition with bracket paths if and only if the regular expression matches
  nowhere in the text of a literal (`ConditionIsRewrittenIff`, `QuotedPathIsRewritten`).
- A new plan is declared and added to the default price list in two separate steps, and the
  second is left out without an error when its pattern finds nothing. A new plan is listed if
  and only if `<priceLists>` is followed by a default price list whose `<plans>` comes right
  after its start tag (`NewPlansAreListedIff`); with `<plans/>` there it is declared and never
  listed, not by a later merge either, because its id is known by then (`EmptyListIsNoList`,
  `NeverListed`).
- A second merge of the same plans changes only the date if and only if every active plan has
  an id and a product name (`MergeIsIdempotentIff`): an empty name is written but never
  extracted. The text that `generateCatalogXML` prints has no version element, so the merge
  returns null for it until the billing system serves it back (`PrintedTextIsNotMerged`).
- A connection error never gives a trial claim back (`ConnectionErrorUsesUpTrial`).
- The reminder check reads the clock twice per subscription, so with a threshold of one day it
  can send both mails in one check, exactly when the charged-through instant falls between the
  two readings (`BothMailsIff`).

## Model

| member | source | states |
|---|---|---|
| Conditions.HoldsReadsOnly | orchestration/services/expression.py:78-106 | A condition that names only some results has the same value in any two contexts that agree on those results. |
| Conditions.EvalReadsOnly | orchestration/services/expression.py:98-106 | The same for the value or the error of any expression. |
| Conditions.EvalGrows | orchestration/services/expression.py:78-106 | An expression that has a value keeps it when results are added: a value never rests on a missing result, which would be an error. |
| Conditions.HoldsGrows | orchestration/services/expression.py:98-106 | So a condition that holds still holds when results are added. |
| ConditionLaws.NumbersCompare | orchestration/services/expression.py:98-106 | When both sides evaluate to numbers x and y, booleans taken as 0 and 1, the six operators give x == y, x != y, x < y, x <= y, x > y and x >= y. |
| ConditionLaws.TextsCompare | orchestration/services/expression.py:98-106 | For texts the six operators give equality and the order of words in a dictionary: at the first place where they part, one ends or has the smaller character. |
| ConditionLaws.StringLessIffBefore | orchestration/services/expression.py:98-106 | The recursive text comparison is that order. |
| ConditionLaws.ListsCompare | orchestration/services/expression.py:98-106 | Lists compare by the first items that differ, and by their lengths if there are none. |
| ConditionLaws.EqualityIsSameness | orchestration/services/expression.py:98-106 | On any two values `==` and `!=` never fail: they ask whether the values are one once every boolean in them is written as a number. |
| ConditionLaws.NothingElseIsOrdered | orchestration/services/expression.py:98-106 | The order operators are errors on everything but two numbers, two texts or two lists. |
| ConditionLaws.EqualsTextIff | orchestration/services/expression.py:78-106 | `path == 'text'` holds if and only if the path evaluates to that text, and `!=` if and only if it evaluates to another value. |
| ConditionLaws.ConnectivesHold | orchestration/services/expression.py:98-106 | An `and` holds when both parts do, an `or` when one does and no failing part comes first, a `not` when its part evaluates and does not hold. |
| ConditionLaws.ConnectivesGive | orchestration/services/expression.py:98-106 | The value of an `and` or an `or` is the value of the part that decides. |
| ConditionLaws.FalseValues | orchestration/services/expression.py:103 | The values a condition takes for false are None, false, zero and the empty text, list and dictionary. |
| ConditionLaws.HoldsIff | orchestration/services/expression.py:85-106 | No condition holds always; a condition holds exactly when it evaluates to a value that is not false. |
| ConditionLaws.OneSegmentMore | orchestration/services/expression.py:88-102 | A path with one more segment is one field deeper, and an error where there is no such field. |
| Plans.PendingSteps | orchestration/services/orchestrator.py:83-85 | The steps a call may run: every enabled step outside the seed is there under its own key, and nothing else. |
| Plans.LastOfItsKeyIsKept | orchestration/services/orchestrator.py:83-85 | Of several enabled steps with one key the last is the one kept. |
| PlanInvariants.StatePartition | orchestration/services/orchestrator.py:83-91 | At every loop head of every run: before an abort the enabled non-seeded keys are pending, in flight, succeeded, failed and skipped together; these are disjoint; `completed` is the seed plus the last three; the error map's keys are the failed and skipped ones; no step is launched twice, and none that was launched is pending or skipped. |
| PlanInvariants.InvEnds | orchestration/services/orchestrator.py:97-223 | The same invariants hold of the state every run returns, whatever ended it. |
| PlanInvariants.RoundShrinks | orchestration/services/orchestrator.py:98-158 | Every round that collects a batch strictly shrinks pending plus in flight, under all policies and for cyclic plans too. |
| PlanInvariants.RoundsAreBounded | orchestration/services/orchestrator.py:98-103 | After any number of rounds, that many steps are no longer pending or in flight. |
| PlanInvariants.EndsWithin | orchestration/services/orchestrator.py:98-223 | A run has at most as many collecting rounds as the call has steps. |
| PlanInvariants.CanEnd | orchestration/services/orchestrator.py:98-223 | From every state a run can reach there is a schedule that brings the call to its end. |
| ScheduleIndependence.FinishedRunSolves | orchestration/services/orchestrator.py:105-138 | A finished run that neither paused nor aborted satisfies a schedule-free description of the call: for each step, whether it was skipped, ran, failed or stayed pending follows from its dependencies and from its condition on the final results. |
| ScheduleIndependence.RunsLieBelowSolutions | orchestration/services/orchestrator.py:98-223 | That description has a least solution: whatever any run does, under any policy and schedule and even when it pauses or aborts, lies within every solution and agrees with it. |
| ScheduleIndependence.ScheduleIndependence | orchestration/services/orchestrator.py:98-187 | With outcomes that depend on dependencies only and conditions that may read any step's result, two never-paused runs of one call under best_effort or dependent_fail return the same results, errors, completed, failed, skipped and started steps, in whatever order their steps finished. |
| ScheduleIndependence.DependentFailVerdict | orchestration/services/orchestrator.py:105-138 | Under dependent_fail a step is skipped exactly when a direct dependency failed, and then never starts; otherwise it starts exactly when all dependencies are finished and its condition holds; so a step whose dependencies were only skipped still runs. |
| ScheduleIndependence.PolicyDoesNotMatter | orchestration/services/orchestrator.py:193-217 | The policies that do not skip share the same solutions. |
| ScheduleIndependence.FailFastAgainstBestEffort | orchestration/services/orchestrator.py:193-203 | What a fail_fast run records a best_effort run records too; it aborts exactly when best_effort has a failure, then with exactly one failure; otherwise the two complete the same steps. |
| Progress.BlockedNeverStart | orchestration/services/orchestrator.py:128-149 | Except under dependent_fail, where it is false, no step of a set starts in which every step waits for another of the set, whatever conditions, outcomes and schedule do. |
| Progress.BlockedIffDeadEnd | orchestration/services/orchestrator.py:83-149 | A step is in such a set if and only if a chain of dependencies leads from it to a cycle or to a key that is neither enabled nor seeded. |
| Progress.CompletedUnlessBlocked | orchestration/services/orchestrator.py:83-149 | In a call without conditions and pause that neither skips nor aborts, a step completes if and only if it is not blocked in that sense, whatever the executors read. |
| Progress.AcyclicPlanCompletes | orchestration/services/orchestrator.py:83-149 | If the enabled steps of such a call are acyclic and depend on enabled or seeded steps only, all of them complete. |
| Progress.CompletedIsLeastClosedSet | orchestration/services/orchestrator.py:98-187 | The completed set of a finished run that neither skips nor aborts is the least set closed under "all dependencies in it and the condition true on the final results", whatever executors and conditions read. |
| Started.StartedSteps | orchestration/services/orchestrator.py:128-146 | In the final state of every run, under every policy, each started step's dependencies are finished and its condition holds, and would hold without the answers of the reviews left pending. |
| Startable.StartedMayStart | orchestration/services/orchestrator.py:105-146 | Under dependent_fail every run, with conditions too, starts only steps that its failures hold back in no set: sets in which every step waits for another, and for every failed step it depends on. |
| Startable.StartsIffCanStart | orchestration/services/orchestrator.py:105-146 | Without conditions, on every dependency graph, a step starts in some run for some executors if and only if some choice of failing steps holds it back in no set. |
| Startable.StartsIffMayRun | orchestration/services/orchestrator.py:105-146 | For every policy: without conditions a step starts in some run for some executors if and only if some choice of failing steps holds it back in no set (dependent_fail) or it is not blocked (every other policy). |
| Startable.SkipOpensCycle | orchestration/services/orchestrator.py:105-122 | Under dependent_fail a step in a cycle can start, once the step it waits for is skipped. |
| Outcomes.PausedIffLeftPending | orchestration/services/orchestrator.py:160-181 | In the final state of every run the call is paused if and only if some human_review step succeeded in it with a dictionary whose status is exactly pending_human_review, and then at such a step. |
| Outcomes.PausedAtLastReview | orchestration/services/orchestrator.py:153-181 | Of several such steps the call names the one that was collected last. |
| Outcomes.OtherAnswersNeverPause | orchestration/services/orchestrator.py:174-176 | A call whose reviews all answer another status never pauses, under any policy and schedule. |
| Outcomes.ResultsAndErrors | orchestration/services/orchestrator.py:105-192 | Every result of the call is what the step's executor answered on some results, and every error is the message of a failed result or an exception, names the unknown kind, or says that the step was skipped. |
| HumanGate.NothingSubmittedAfterReview | orchestration/services/orchestrator.py:128-181 | From the round that collects a pending review on, the call submits no step. |
| HumanGate.PausedLaunchesNothing | orchestration/services/orchestrator.py:124-146 | A paused state launches nothing in any continuation. |
| HumanGate.DirectDependentsWait | orchestration/services/orchestrator.py:163-181 | No direct dependent of a pending review starts, under any policy and schedule. |
| HumanGate.NothingBehindReviewStarts | orchestration/services/orchestrator.py:128-181 | In a call that does not skip, fresh or resumed, no step starts from which the pending review is reachable through depends_on by a path that does not lead through a seeded step. |
| HumanGate.SkippingSlipsPastReview | orchestration/services/orchestrator.py:105-146 | Under dependent_fail the reachability claim fails for a whole family of calls: a skipped step counts as finished and lets a step past the review. |
| HumanGate.ReviewDemoIsABypass | orchestration/services/orchestrator.py:105-146 | A concrete call of that family. |
| ReviewGate.StartsBeforeReviewIff | orchestration/services/orchestrator.py:105-181 | Under dependent_fail, without conditions and on every dependency graph, a step starts in some run that leaves the review pending, for some executors, if and only if some choice of failing steps holds back neither the review nor, while the review is not finished, that step. |
| ReviewGate.GateFailsIff | orchestration/services/orchestrator.py:105-181 | In an acyclic plan some step behind the review does so if and only if there are failing steps, none behind the review and none depending on another, and a step behind the review that depends on none of them and not directly on the review, each of whose dependencies behind the review depends on one of them. |
| ReviewGate.StartedIsSkippedPast | orchestration/services/orchestrator.py:105-181 | The keeping half holds with conditions and on every dependency graph: if the plan has no such step, no step behind the review starts while the review is left pending. |
| ReviewGate.BypassIsSkippedPast | orchestration/services/orchestrator.py:105-181 | Every call of the four-step family of `SkippingSlipsPastReview` meets that condition, with one failing step. |
| Resume.DrainIsOneBatch | orchestration/services/orchestrator.py:128-158 | Once paused, all remaining rounds together are one batch of collections. |
| Resume.PendingAfterSeed | orchestration/services/orchestrator.py:83-85 | Building the pending steps from the whole plan with a larger seed leaves those of the first call outside that seed: the resuming call has the steps the model gives it. |
| Resume.ResumeSimulatesOneRun | orchestration/services/orchestrator.py:61-88 | A run that paused at the one review, and any run that resumes it from its completed keys and patched results, together are an uninterrupted run of the call in which the review answers the patched output at once. Executors may read every result, but only dependents of the review may look at its result. |
| Resume.NoStepRunsTwice | orchestration/services/orchestrator.py:61-88 | Resumed with its completed keys, a call runs no step a second time, for every policy, any number of reviews and whatever executors and conditions read; the one exception is a step that a fail_fast abort abandoned in flight. |
| Resume.ResumeIsInvisible | orchestration/services/orchestrator.py:61-88 | With outcomes that depend on dependencies only and conditions that may read any step's result, every uninterrupted run returns what the paused and resumed pair returns. |
| ResumeFromResults.OnlyFailedStepsRunTwice | orchestration/services/main.py:1832-1842 | Under every policy, resumed with the keys of its results, only steps that had failed before can run again, and those a fail_fast abort abandoned. The call may be a resumed one, and any review may be the approved one. |
| ResumeFromResults.FirstFailureRunsAgain | orchestration/services/main.py:1832-1842 | Every failed step none of whose dependencies failed or was skipped does run again, under every policy and in every resuming run, whatever its condition reads. |
| ResumeFromResults.SomeStepRunsTwiceIffOneFailed | orchestration/services/main.py:1821-1842 | Under every policy, for a first call and for a resumed one, in every pair of a paused and a resuming run some step runs twice if and only if a step had failed before the pause. |
| ResumeFromResults.SeedsAgreeIffNoFailure | orchestration/services/main.py:1838-1841 | The two ways of seeding are the same call if and only if nothing failed. |
| ResumeFromResults.ReseededIsSeededByResults | orchestration/services/main.py:1838-1841 | The resuming call starts like the one it resumes, from the stored results and their keys, so all of this holds for it again. |
| ResumeFromResults.ExecutionRunsTwiceIffFailed | orchestration/services/main.py:1821-1842 | Over an execution of any number of calls, each but the last leaving a review pending whose approval starts the next one, some step is handed out by two calls if and only if a call before the last one had a failure. |
| ResumeDependentFail.ResumeStartsWhatWasPending | orchestration/services/orchestrator.py:84-88 | A resuming run starts every pending step whose dependencies are finished and whose condition holds, failed dependencies or not. |
| ResumeDependentFail.ResumeForgetsFailures | orchestration/services/orchestrator.py:79-88 | Under dependent_fail there is a paused run after which every resuming run starts a step whose dependency had failed. |
| ResumeDependentFail.StartsAfterFailureIff | orchestration/services/orchestrator.py:79-122 | In every resuming run the steps that start although a dependency failed, before or after the pause, are the started ones among those left pending with a failed dependency. |
| ResumeDependentFail.RuleBreaksIff | orchestration/services/orchestrator.py:79-122 | Without conditions some resuming run starts such a step, for some executors, if and only if a step left pending with a failed dependency can start in the resuming call. |
| ResumeDependentFail.AcyclicRuleBreaksIff | orchestration/services/orchestrator.py:79-122 | In an acyclic plan: if and only if some step was left pending with a failed dependency. |
| SecondReview.UndecidedReviewIsPassed | orchestration/services/main.py:1916-1934 | If two reviews are left pending and one is approved, every resuming run under every policy starts each step that waits for the other one and is ready otherwise, while that review's result still asks for a decision. |
| SecondReview.UndecidedReviewIsPassedIff | orchestration/services/main.py:1916-1934 | Without conditions, on every dependency graph, for every policy and both ways of seeding, some resuming run starts a direct dependent of the undecided review for some executors if and only if one is left that the plan lets start. |
| SecondReview.AcyclicUndecidedReviewIsPassedIff | orchestration/services/orchestrator.py:83-181 | In an acyclic plan resumed with its completed keys: if and only if the undecided review has a dependent that the first call did not skip. |
| SecondReview.OneApprovalPassesBoth | orchestration/services/main.py:1916-1934 | In every call with two independent reviews and a step behind one of them, a run leaves both pending, and after the approval of the other one every resuming run starts that step. |
| StepTrace.ExecutionSteps.CreateStepRun | orchestration/services/execution_steps_repository.py:16-39 | Inserts one queued row and changes no other. |
| StepTrace.ExecutionSteps.MarkRunning | orchestration/services/execution_steps_repository.py:42-48 | Overwrites the status of the addressed row, or nothing if there is none. |
| StepTrace.ExecutionSteps.MarkSuccess | orchestration/services/execution_steps_repository.py:51-75 | The same, with the response. |
| StepTrace.ExecutionSteps.MarkFailed | orchestration/services/execution_steps_repository.py:78-102 | The same, with the error. |
| StepTrace.ExecutionSteps.MarkSkipped | orchestration/services/execution_steps_repository.py:105-117 | The same, with the reason. |
| StepTrace.InsertMatches | orchestration/services/execution_steps_repository.py:16-39 | Inserting the row of a key that has none keeps the table in one-to-one agreement with what is expected of each key: status history, response and error. |
| StepTrace.OverwriteMatches | orchestration/services/execution_steps_repository.py:42-117 | Overwriting one key's row keeps that agreement and every other row. |
| Orchestrator.PlanRun.SkipDoomedSteps | orchestration/services/orchestrator.py:105-122 | The skipping loop moves exactly the steps with a failed dependency, and writes queued and skipped for each. |
| Orchestrator.PlanRun.SubmitReadySteps | orchestration/services/orchestrator.py:128-146 | The submitting loop launches exactly the ready steps, and none while paused, and writes queued and running for each. |
| Orchestrator.PlanRun.CollectStep | orchestration/services/orchestrator.py:154-217 | Collecting one finished step makes the transition system's step and writes the end status its outcome calls for. |
| Orchestrator.PlanRun.CollectBatch | orchestration/services/orchestrator.py:153-217 | Collecting a batch in order is the transition system's batch, cut short by a fail_fast abort. |
| Orchestrator.PlanRun.Round | orchestration/services/orchestrator.py:98-223 | One pass of the loop body is one round of the transition system. |
| Orchestrator.PlanRun.Execute | orchestration/services/orchestrator.py:97-223 | The loop performs a run of the transition system that ends, goes round at most once per step, and keeps the trace in agreement. |
| Orchestrator.ExecutePlan | orchestration/services/orchestrator.py:76-237 | For every plan, seed, executor and schedule the returned record is the final state of a run; it is paused exactly when, by the record's own results, a human_review step is left waiting for a decision, and then at such a step; unless the call aborted, the rows it added are one for each key with the history, response and error the run calls for. |
| Orchestrator.KeptTraceAgrees | orchestration/services/orchestrator.py:239-333 | When nothing is in flight and nothing aborted: success rows are queued, running, success, belong to the succeeded steps and hold their results; failed rows end in failed unless the executor raised and hold the text of the error map; skipped rows are queued, skipped, with the reason `dependency failed`. |
| Rewrite.MatchLenIsTheMatch | orchestration/services/expression.py:52-54 | The scan finds the regular expression's longest match at a position, and none only where there is none. |
| RewriteLaws.OnlyPathsChange | orchestration/services/expression.py:57-75 | For every text: it is cut into leftmost-longest path matches and single characters, the matches are replaced and every other character is copied. |
| RewriteLaws.RewriteGrows | orchestration/services/expression.py:68-75 | The rewrite never shortens a text. |
| RewriteLaws.SameLengthIsSameText | orchestration/services/expression.py:68-75 | A rewrite that keeps the length keeps the text. |
| RewriteLaws.RewriteSeam | orchestration/services/expression.py:52-75 | At a seam no match can cross, the rewrite works part by part. |
| RewriteLaws.UnchangedIffNoPath | orchestration/services/expression.py:57-75 | The rewrite leaves a text alone if and only if the regular expression matches nowhere in it. |
| RewriteLaws.RewriteIsIdempotent | orchestration/services/expression.py:57-75 | Rewriting a rewritten text changes nothing, for every text. |
| Expression.EvalPath | orchestration/services/expression.py:12-29 | The lookup loop computes the walk along the segments: missing keys, non-dictionaries and bad indices give None, a non-numeric index raises. |
| Expression.EvalExpr | orchestration/services/expression.py:32-43 | The value is that of the first alternative that is not None, empty text or empty list; an exception counts only before such a value; None if there is none. What an alternative yields is pinned by the rows of Fallbacks. |
| Expression.EvalBindings | orchestration/services/expression.py:46-47 | Every binding gets the value of its own expression, None when no alternative is present; an exception of one is the exception of all. |
| Expression.SplitOrJoins | orchestration/services/expression.py:38 | Splitting at " or " loses nothing: joining gives the expression back. |
| Expression.PartsAreFreeOfOr | orchestration/services/expression.py:38 | No part contains " or ". |
| Expression.StripSplits | orchestration/services/expression.py:38 | A text is white space, its stripped form and white space, and the stripped form neither starts nor ends with any. |
| Fallbacks.SpaceCharacters | orchestration/services/expression.py:38 | White space is Python's, by code point. |
| Fallbacks.DottedPathGives | orchestration/services/expression.py:12-43 | A dotted path of identifiers yields the value its subscripts lead to, and None when a segment is missing or the value is None, empty text or empty list. |
| Fallbacks.AlternativesGive | orchestration/services/expression.py:12-43 | Paths joined by " or ", of names and of names with a decimal index, yield what the first path leads to that fails or leads to something other than None, empty text and empty list, and None if there is no such path; negative indices count from the end. |
| Fallbacks.NumberReads | orchestration/services/expression.py:17 | An index is read as a number when it is decimal digits with an optional sign, and white space around them. |
| Fallbacks.OnlyNumbersRead | orchestration/services/expression.py:17 | And only then. |
| Fallbacks.NoNumberFails | orchestration/services/expression.py:17 | An index that is no number is an error whatever the context holds. |
| ConditionText.DottedBecomesBracketed | orchestration/services/expression.py:68-75 | A path of identifiers becomes, as a whole, its bracket form. |
| Fallbacks.PathsSpelledOut | orchestration/services/expression.py:68-73 | The dotted and the bracketed form of a path, spelled out segment by segment. |
| Fallbacks.IdentifierCharacters | orchestration/services/expression.py:52-54 | The characters of an identifier, by code point. |
| ConditionText.RewriteKeepsMeaning | orchestration/services/expression.py:12-29 | Subscripting along the rewritten path succeeds exactly when every segment exists and then gives the value the dotted lookup gives; a missing segment is an error there and None here. |
| ConditionText.RewriteOfCondition | orchestration/services/expression.py:57-75 | A whole condition text becomes the same condition with bracket paths, and with its literals rewritten as texts. |
| ConditionText.ConditionIsRewrittenIff | orchestration/services/expression.py:57-75 | So the text becomes the text of the same condition with bracket paths if and only if the regular expression matches nowhere in the text of a literal. |
| ConditionText.QuotedPathIsRewritten | orchestration/services/expression.py:68-75 | A quoted literal that is a dotted path is changed inside its quotes. |
| ConditionText.ReachedFailureIsError | orchestration/services/expression.py:98-106 | A failing lookup that short-circuit evaluation comes across makes the whole condition an error. |
| ConditionText.ErrorIsReachedFailure | orchestration/services/expression.py:98-106 | Every error but that of an ill-typed comparison comes from such a lookup. |
| ConditionText.MissingSegmentIsFalse | orchestration/services/expression.py:98-106 | So a condition that comes across a missing segment is false, even under "not" or before "or". |
| XmlSearch.IndexOfTag | KillBill/gateway/catalog-sync.js:127-138 | `indexOf` of a start or end tag in a printed document is the position of the first such tag of the document, and -1 exactly when there is none. |
| XmlSearch.LastIndexOfTag | KillBill/gateway/catalog-sync.js:100-142 | `lastIndexOf` is the position of the last one. |
| CatalogNames.ExtractedNames | KillBill/gateway/catalog-sync.js:110-115 | The name patterns extract from a printed document exactly the non-empty names its tags declare, in order. |
| CatalogSync.MatchIsFoundAgain | KillBill/gateway/catalog-sync.js:159-166 | Looking the matched text up again finds the match itself, for every text. |
| CatalogSync.ActivesOfMore | KillBill/gateway/catalog-sync.js:109 | The active plans keep the order of the plans: one more plan at the end is one more at the end, or none. |
| CatalogSync.UnlistedOfMore | KillBill/gateway/catalog-sync.js:117 | So do the plans whose id is not known. |
| CatalogSync.MissingOfMore | KillBill/gateway/catalog-sync.js:121-123 | And the product names that are not known. |
| CatalogSync.FirstAppearance | KillBill/gateway/catalog-sync.js:118-120 | The distinct product names stand in the order of their first appearance. |
| CatalogSync.MergeInto | KillBill/gateway/catalog-sync.js:109-181 | The reassignments of `inner` compute the four steps one after the other, with the new names determined before the first. |
| CatalogSync.AppendPlansToCatalog | KillBill/gateway/catalog-sync.js:97-184 | The whole operation on arbitrary text, with each of its null results; what the written elements say is in CatalogContents. |
| CatalogMerge.MergeOnDoc | KillBill/gateway/catalog-sync.js:109-181 | On the text of a document the index-based merge fails exactly when the document merge does, and else returns the text of its result: every search lands on the intended tag. |
| CatalogMerge.ServedBody | KillBill/gateway/catalog-sync.js:100-107 | The text between the last version tags is the text of the last version element's contents. |
| CatalogMerge.MergeOfServed | KillBill/gateway/catalog-sync.js:97-184 | What the operation returns for a catalog document, in terms of the document merge of its current version. |
| CatalogPrint.MergedTextIsCatalog | KillBill/gateway/catalog-sync.js:97-184 | The returned text is that of a whole, well-formed document, one catalog element around the merged body, and well nested if the body it was given nests. |
| CatalogLists.EntriesAddedIff | KillBill/gateway/catalog-sync.js:153-174 | For new plans the third step inserts something if and only if, after a `<priceLists>`, a tag that starts like a default price list is followed by white space and `<plans>`. |
| CatalogLists.SpliceKeepsList | KillBill/gateway/catalog-sync.js:125-151 | Inserting products or plans before an end tag neither makes nor breaks such a list. |
| CatalogLists.DateKeepsList | KillBill/gateway/catalog-sync.js:176-181 | Nor does setting the date. |
| CatalogDates.MergeIsAdditive | KillBill/gateway/catalog-sync.js:125-181 | The result is the original body with the new date and the fragments inserted, products before `</products>`, plans before `</plans>`, entries after `<plans>`, the entries exactly when the original body has a list for them: taking the fragments out gives the dated body back. |
| CatalogDates.FirstDateIsSet | KillBill/gateway/catalog-sync.js:176-181 | Where there is a date element, the first one, and no other, becomes the given date. |
| CatalogDates.DateOfParts | KillBill/gateway/catalog-sync.js:178-181 | Setting the date of two parts no match can cross changes the first part if it has a date and else the second. |
| CatalogLaws.MergeKeepsNesting | KillBill/gateway/catalog-sync.js:125-181 | The merged body nests exactly as the original one, whatever elements are open around it. |
| CatalogPlaces.MergePlaces | KillBill/gateway/catalog-sync.js:125-174 | In a well nested body whose plans are at the top before the price lists, the new products are inside a products element, the new plans directly inside the top-level plans element, and the new entries at the front of the plans of the first default price list after `<priceLists>`, right behind its `<plans>` tag, exactly when the body has such a list. |
| CatalogReading.PlanBodyShows | KillBill/gateway/catalog-sync.js:40-86 | What a plan template says to a reader that lists the texts of a document under their tags, wherever it stands and for both margins: exactly the listed data, constants included. |
| CatalogReading.ProductBodyShows | KillBill/gateway/catalog-sync.js:88-95 | The same for a product. |
| CatalogReading.PlanTexts | KillBill/gateway/catalog-sync.js:65-86 | Among a plan's data, the texts at `finalPhase/recurring/recurringPrice/price/value` are its price alone, those at `currency` its currency or `INR`, and those at `product` its product. |
| CatalogReading.TrialIff | KillBill/gateway/catalog-sync.js:42-63 | There is a trial phase if and only if the trial days are positive, and the digits of its `number` read back as that number. |
| Decimals.DecimalReadsBack | KillBill/gateway/catalog-sync.js:49 | A number's digits read back as the number, without a leading zero. |
| CatalogReading.SpacesAreDropped | KillBill/gateway/catalog-sync.js:41 | The product of a module is its text with exactly the spaces removed, character by character. |
| CatalogContents.MergedPlansSay | KillBill/gateway/catalog-sync.js:109-151 | After a merge the elements that declare an id unknown before are those of the active plans with that id, in order, each with that name and exactly its plan's data. |
| CatalogContents.NewPlanIsBilled | KillBill/gateway/catalog-sync.js:40-86 | So in the merged catalog every new active plan has an element with its price, its currency or `INR`, its product and, if it has trial days, their number. |
| CatalogContents.MergedProductsSay | KillBill/gateway/catalog-sync.js:109-134 | The elements that declare a product name unknown before: one, with exactly a product's data, if an active plan needs it, and else none. |
| CatalogDeclarations.PlansDeclared | KillBill/gateway/catalog-sync.js:109-117 | Afterwards an id the body declared is declared as often as before, and any other as often as active plans carry it. |
| CatalogDeclarations.ProductsDeclared | KillBill/gateway/catalog-sync.js:113-123 | A product name the body declared is declared as often as before, and any other once if an active plan needs it and else not at all. |
| CatalogDeclarations.DeclaredExactlyOnce | KillBill/gateway/catalog-sync.js:109-123 | With distinct ids and an unrepeated body every active plan and its product are declared exactly once, and no inactive plan's id is added. |
| CatalogDeclarations.NothingNewIff | KillBill/gateway/catalog-sync.js:117-123 | For a body that declares every non-empty name, nothing is new if and only if all active plans have an id and a product name. |
| CatalogEntries.EntriesOfMerge | KillBill/gateway/catalog-sync.js:153-174 | The entries of price lists afterwards are those of before and, if the body has a list, one for each new plan. |
| CatalogEntries.PlansListed | KillBill/gateway/catalog-sync.js:117-174 | How often an id is listed afterwards: more often than before only if the body has a list and did not declare it, and then by the number of active plans that carry it. |
| CatalogEntries.NewPlansAreListedIff | KillBill/gateway/catalog-sync.js:153-174 | A new plan is listed if and only if the body has a list. |
| CatalogEntries.DeclaredGetsNoEntry | KillBill/gateway/catalog-sync.js:117-174 | An id that the body declares gets no further entry, whatever lists there are. |
| CatalogEntries.NeverListed | KillBill/gateway/catalog-sync.js:97-184 | A plan merged into a body without a list is declared, and neither that merge nor a merge after it lists it. |
| CatalogEntries.EmptyListIsNoList | KillBill/gateway/catalog-sync.js:157-174 | A body whose default price list holds `<plans/>`: every list of plans merges into it, its named active plans are declared, and none is listed. |
| CatalogRepeat.MergeSucceedsIff | KillBill/gateway/catalog-sync.js:126-143 | A merge succeeds exactly when `</plans>` precedes the first price lists and, if there are new products, `</products>` exists. |
| CatalogRepeat.LastDateStays | KillBill/gateway/catalog-sync.js:177-181 | Of two dates set one after the other the last one stays. |
| CatalogRepeat.OnlyDateChangesIff | KillBill/gateway/catalog-sync.js:117-181 | A merge changes only the date if and only if no product and no plan is new. |
| CatalogRepeat.MergeIsIdempotentIff | KillBill/gateway/catalog-sync.js:109-181 | Merging the same plans into the merged body gives what one merge at the later time gives, if and only if every active plan has an id and a product name. |
| CatalogRepeat.MergeServedBackIff | KillBill/gateway/catalog-sync.js:97-184 | The same for the texts the operation returns when the merged body is served back as the current version. |
| CatalogRepeat.LaterMergeSucceeds | KillBill/gateway/catalog-sync.js:126-143 | A merge in between does not change whether a later one succeeds. |
| CatalogRepeat.LaterMergeDeclares | KillBill/gateway/catalog-sync.js:109-123 | Merging a list and later a list that extends it declares the same products, and with distinct ids the same plans, equally often as merging the larger list once. |
| CatalogPrint.PrintThenExtract | KillBill/gateway/index.js:243-371 | The merge's patterns extract from the printed catalog the non-empty active ids in order and the distinct product names in order of first appearance. |
| CatalogPrint.PrintsWellNested | KillBill/gateway/index.js:315-371 | The printed catalog is well formed and well nested. |
| CatalogPrinted.PrintedSays | KillBill/gateway/index.js:243-371 | The printed catalog says exactly this, in order: the date, the heading, a product for each distinct module of an active plan, the rules, every active plan with its data, and the default price list naming the active plans. |
| CatalogPrint.PrintThenMergeIff | KillBill/gateway/index.js:243-371 | Merging the printed plans into the printed body gives the body printed at the later time, if and only if every active plan has an id and a product name. |
| CatalogPrint.PrintedHasList | KillBill/gateway/index.js:363-369 | The printed body has a list for entries, so what is merged into it later is listed. |
| CatalogPrint.PrintedTextIsNotMerged | KillBill/gateway/index.js:315-371 | The merge returns null for the printed text itself, for any plans: it has no version element. |
| Trials.AlwaysSafe | KillBill/gateway/index.js:1253-1310 | After every sequence of events, with failing database calls too, each holder of a key has its row and no key has two holders. |
| Trials.ExactStepIff | KillBill/gateway/index.js:67-78 | An event keeps "every row has a holder" if and only if it is not a failed release. |
| Trials.RowIffHeld | KillBill/gateway/index.js:55-78 | With a working database a row exists exactly when it is from before or exactly one request holds its key: in flight, answered 201, or ended by a connection error. |
| Trials.OneTrialEach | KillBill/gateway/index.js:1253-1310 | Over every interleaving at most one request for an account and module is answered 201, and none if the row was there before. |
| Trials.TurnedAwayIff | KillBill/gateway/index.js:1253-1265 | A free-plan request is answered 409 exactly when the row is from before or some request holds the key. |
| Trials.ConnectionErrorUsesUpTrial | KillBill/gateway/index.js:1322-1324 | After a connection error of the holder, in every continuation the row stays, nobody is answered 201 and every later request is turned away. |
| Trials.RefusalFreesTrial | KillBill/gateway/index.js:1308-1310 | After an answer other than 201 the claim is given back for good: whatever else happens until the next request for the key, that request gets through. |
| TrialRequests.ClaimIff | KillBill/gateway/index.js:1253-1265 | A request has to claim an account and module exactly when it posts to /subscriptions with a body, a named account and a plan whose first offer with that id has price 0 and that module. |
| TrialRequests.OneFreeSubscription | KillBill/gateway/index.js:1247-1310 | Over every sequence of handled requests, answers and connection errors at most one request of an account for plans of price 0 of a module is answered 201, and none if the table knew them before. |
| TrialRequests.TrialIsTurnedAwayIff | KillBill/gateway/index.js:1253-1265 | With a working database such a request is turned away exactly when the table knew the key before or another request holds it. |
| TrialRequests.OthersPass | KillBill/gateway/index.js:1249-1266 | A request for a plan of another price or of no known id, without account or body, with another verb or another url is passed on and changes no row, whatever the table holds and even when it fails. |
| TrialRequests.OthersChangeNoRow | KillBill/gateway/index.js:1301-1324 | Nor does its answer or the end of its connection, in any run. |
| Trials.Gateway.TryClaimTrial | KillBill/gateway/index.js:55-67 | Claims exactly when the row was absent and the call works; inserts that row and nothing else. |
| Trials.Gateway.ReleaseTrialClaim | KillBill/gateway/index.js:68-78 | Removes that row and nothing else, or nothing if the call fails. |
| Trials.Gateway.OnRequest | KillBill/gateway/index.js:1247-1267 | The handler up to the proxied call is the arrival event, with the claim only a free plan and a named account need; which requests those are is in TrialRequests. |
| Trials.Gateway.OnResponse | KillBill/gateway/index.js:1301-1320 | The end of the response is the response event. |
| Trials.Gateway.OnError | KillBill/gateway/index.js:1322-1324 | A connection error is the breaking event. |
| Reminders.ADayLater | KillBill/gateway/index.js:1403-1422 | A day later the ceilings give one day less left and one day more overdue. |
| Reminders.LeftAndOverdue | KillBill/gateway/index.js:1403-1422 | At one instant the two counts add up to zero on a whole number of days and to one otherwise. |
| Reminders.TrialMailDueIff | KillBill/gateway/index.js:1398-1417 | When a trial-ending mail is due, in milliseconds: for an active trial on the last day that rounds up to the threshold. |
| Reminders.OverdueMailDueIff | KillBill/gateway/index.js:1419-1437 | When an overdue mail is due: for an active subscription within seven days after its date, unless its evergreen price is 0 or null. |
| Reminders.BothMailsIff | KillBill/gateway/index.js:1402-1437 | For thresholds of at least one day, both mails go out in one check if and only if the threshold is one and the charged-through instant lies between the two clock readings of an active paid trial. |
| Reminders.NeverBothAtOnce | KillBill/gateway/index.js:1402-1437 | At one instant no subscription is due for both. |
| Reminders.BothPossibleIff | KillBill/gateway/index.js:1402-1437 | Both can be due at one instant exactly for the thresholds from minus seven to zero. |
| Reminders.TrialMailsExactly | KillBill/gateway/index.js:1402-1417 | Over checks a day apart an active trial gets one trial-ending mail if the threshold day is among them and else none. |
| Reminders.OverdueMailsExactly | KillBill/gateway/index.js:1419-1437 | Over checks a day apart the exact number of overdue mails. |
| Reminders.MailBounds | KillBill/gateway/index.js:1402-1437 | At most one trial-ending and at most seven overdue mails; seven exactly when the checks meet all seven days of a paid active subscription. |
| Reminders.RunPaymentReminderCheck | KillBill/gateway/index.js:1366-1446 | The nested loops send the specified mails in order, and the summary counts them by kind. |
| Reminders.CheckSubscription | KillBill/gateway/index.js:1397-1438 | The innermost loop body appends the mails due for one subscription and counts them. |
| Reminders.MailsAreAddressed | KillBill/gateway/index.js:1366-1438 | Every mail goes to the address of its place's account and names the plan of its place's subscription. |
| Reminders.MailsSentExactly | KillBill/gateway/index.js:1366-1438 | For every place and kind exactly one mail if the account has an address and the subscription is due, and else none. |

## Left out

- Executors, their registry and their external calls: an executor is an arbitrary function of the step and of a set of results; an executor that changes shared data is not modelled.
- Thread pool, metrics, logging, commits and sharing of the database connection: only the order in which steps finish is kept. A worker's trace writes appear as two atomic parts, at submission and at collection.
- The moment at which a running worker reads the live results dictionary: the model shows it the results at its collection. The theorems that compare schedules ask that its outcome depend on its dependencies' results only, which are there from its submission on.
- Step timeouts: they apply to futures that are already done and do not affect scheduling.
- Failing trace writes: each is logged and ignored by the code; the model lets them succeed.
- Rows of steps in flight at a fail_fast abort: their workers may still finish and write; the trace theorem is about runs that do not abort.
- The `kind`, step payload and timestamp columns of trace rows, and row ids: an id is the row's position. A row's error is its message, and a response is the step's output.
- Orchestrator.Wait: returns one step in flight, one admissible choice; the theorems about runs quantify over all non-empty batches in all orders.
- Duplicate step keys: the pending map keeps the last step of a key, as the code's dictionary does; the order of a dictionary is not modelled.
- `asteval`: a condition is a tree of lookups, comparisons, and, or, not, with any error making it false; its text is the fully parenthesised rendering, and literals bring their own text. Other syntax that `asteval` accepts is not modelled.
- Python's `int` on underscores between digits and on non-ASCII digits. Which non-ASCII characters are word characters is left open, and the rewrite laws hold for every choice.
- Resume.ResumeSimulatesOneRun: about calls with a single pausing step and a policy that neither skips nor aborts; what several reviews do is in NoStepRunsTwice, ResumeFromResults and SecondReview.
- Startable.StartsIffCanStart: about calls without conditions, as are StartsIffMayRun, StartsBeforeReviewIff, GateFailsIff, RuleBreaksIff, AcyclicRuleBreaksIff, UndecidedReviewIsPassedIff and its acyclic form; over all executors, because what one executor does is not part of a plan. The halves that say what cannot start hold with conditions too (StartedMayStart, StartedIsSkippedPast), and so does UndecidedReviewIsPassed.
- ResumeFromResults.FirstFailureRunsAgain: about the approval of a review that this call left pending, as are SomeStepRunsTwiceIffOneFailed and ExecutionRunsTwiceIffFailed. A review left pending by an earlier call has its answer in the seed, where a condition may have read it, so approving it later can make such a condition false. OnlyFailedStepsRunTwice holds for it all the same.
- ScheduleIndependence.ScheduleIndependence: asks that no condition read a seeded result of a step that the call may run again and does not depend on. First calls and both ways of resuming seed no such result.
- CatalogEntries.EntriesOfMerge: an entry is a plan element without attributes around one run of character data.
- XML beyond tags, declarations and character data: comments and CDATA sections with markup, and attribute values with angle brackets. The text merge itself is defined on every string; the laws are about texts of documents.
- CatalogDocs.Plan: ids, module names, currencies and prices are texts without markup characters and quotes, because the code never escapes them; trial days are whole numbers and a price is its number's text.
- The wording of the catalog element's namespace attributes and of the XML declaration: constants taken over from the code, in both catalogs; no theorem tells them from other attributes.
- CatalogContents.NewPlanIsBilled: about an id that no tag of the catalog declares; a declared id's elements stay as they are (CatalogDates.MergeIsAdditive).
- CatalogDeclarations.DeclaredExactlyOnce: about plans with an id and a product name; an empty name is written but never extracted.
- HTTP requests, files and the debug copy around the merge and the sync, and what the billing system does with an uploaded catalog beyond serving its body back.
- Prices of plans that JavaScript's `Number` converts from texts: a plan has a number or none.
- Reminders.TrialMailsExactly: about one fixed charged-through date, as is OverdueMailsExactly; a check reads the clock once in these two.
- A mail that fails to be sent ends the check in the code; the model lets mails succeed. Mail templates and the display name of a plan are not modelled.
- `plan_repository.py`, `intent_plan_mappings_repository.py`, `domain_pack_plans.py`, the other gateway routes, the front ends and the mock services: routing, thin SQL or constants that would only add easy members.
