# The TIOJ judge, modelled and verified

The TIOJ judge takes programs from a web server, compiles them, runs them on many testdata in a
sandbox and reports verdicts and scores. This project models its scheduler and the parts around
it, and proves what the scheduler is for: the result of a submission does not depend on the
schedule, every submission is finished and reported once, and nothing runs before its inputs
are there.

`dafny verify dfyconfig.toml` checks everything.

## How the model is built

* `Types`, `TestdataRun`, `TaskGraph`, `Totals`: what a submission is, what each task does to the
  result of a testdata, which task waits for which, and how totals are formed. `TestdataRun.Chain` is
  the reference: one testdata judged alone.
* `Lifecycle`, `LifecycleInv`, `Outcomes`, `GroupSkip`, `Closing`: one submission as a transition
  system. Tasks are dispatched, skipped and completed in any order the graph allows. The invariant ties
  every state to the reference.
* `Causes`, `Effects`, `Acceptance`: what an outcome means, said of its fields, verdict by verdict; what each
  task does to the record of its submission, field by field; when the default judge accepts. These tables do
  not use the functions of the transition system, which are proved to agree with them, and a table leaves no
  choice: two records that satisfy it are the same.
* `World`, `Arrivals`, `Draining`, `Finishing`, `Serial`, `SerialRuns`, `Resubmission`, `Collision`,
  `Verdicts`: the whole judge, many submissions, any number of workers, arrivals at any time. Results are about all runs.
* `SerialSkipping`, `ReportedTotals`, `OneWorker`, `Overtaking`, `ManyWorkers`: for which submissions group
  skipping leaves acceptance, the scores of groups and the reported total as they would be if every testdata
  were judged - exactly, for one worker and for more. `IgnoredTestdata` and `PartialScores` are concrete
  runs in which it does not.
* `Layering`, `TaskList`, `GraphBuilder`, `TaskPool`, `Scheduler`: the code in its own, imperative form.
  `Scheduler.Scheduler` holds the variables of `submission.cpp` as fields; every method refines a step of
  `World` (through `Snapshot`, `SnapshotSteps`, `SnapshotMoves` and `Offers`), and what the work loop does
  is a path of `World`. `Service.Serve` puts it to use: a new scheduler, any sequence of submissions, and
  each accepted one is finished with the report that is proved of runs.
* `Comparers`, `Texts`, `SandboxCodec`, `TestdataSync`, `Base64`: the default judge, the sandbox protocol, the
  local copy of testdata, and the decoding of submitted code.

The outcome of a process (resource usage, exit status, what a judge program wrote) comes from an
arbitrary function, `Oracle`, of submission, task and state of the testdata. A task completes at most
once, so nothing is lost by using a function; every theorem holds for all of them.

## Reading of the source

* Tasks are named by submission and task instead of by a running counter. `submission_id_map` is keyed
  by external id but erased by internal id (submission.cpp:936); the model does the same, and shows
  what follows (`Resubmission`, `Collision`).
* Entries that compare equal may leave the priority queue in any order.
* With the special judge type SKIP the scoring task is finalized with an empty process result
  (submission.cpp:516-520), so it counts as a failed judge run. The model keeps that.
* A summary program is started unless the verdict is JCE (submission.cpp:821), also after its own
  compilation ended with JE; no claim about inputs is made for summary programs.
* Submissions may arrive while the worker waits without the lock (submission.cpp:996, 1005-1007). In the
  work loop of the model they arrive just before a round begins and just before a result is fetched;
  neither touches what the other uses. The loop of the model ends when no submission is left to come.
* An ignored testdata that fails gives up its groups like any other (submission.cpp:780-783), and a group
  without a counted result counts as full (submission.cpp:900-903). Together they let a wrong submission
  pass: `IgnoredTestdata` shows the run, `OneWorker` and `ManyWorkers` say exactly when it can happen.
* The scheduler takes RunTask and select to succeed, and the number of workers is at most 100, the number of user ids.
  Internal ids are new, group indices and problem program stages in range, as server_io.cpp
  establishes them.

## Model

| member | source | states |
|---|---|---|
| World.ScheduleIndependence | src/tioj/submission.cpp:990-1013 | Two runs of the judge, with any numbers of workers, any interleavings and any other submissions, end a submission (not superseded, no group skipping, no summary program) with the same overall verdict, score, time and memory |
| World.SkippingIsSafe | src/tioj/submission.cpp:780-783 | In every run with group skipping: acceptance is that of judging everything if ignored testdata alone cannot have a counted one given up; so is the total if no group that has a weight can lose a counted testdata without a failure of its own (0/100 scoring) or at all (any scoring) |
| World.SkippingIsSafeIfAllCount | src/tioj/submission.cpp:780-783 | Without ignored testdata every run has the acceptance of judging everything, and with 0/100 scoring its total |
| World.KeptGroupsKeepScores | src/tioj/submission.cpp:890-903 | In every run, whatever the scores, a group that was not given up ends with the score it has when every testdata is judged |
| ManyWorkers.AcceptsIff | src/tioj/submission.cpp:780-783 | With two workers or more, whatever the order of testdata: acceptance is right in every run and for all outcomes if and only if each counted testdata has no group or one without ignored testdata; the same holds for the runs that never wait while something can be started |
| ManyWorkers.ScoresIff | src/tioj/submission.cpp:890-903 | Likewise, with 0/100 outcomes the score of a group is right if and only if each counted member has a group in which everyone counts and belongs to that group |
| ManyWorkers.PartialScoresIff | src/tioj/submission.cpp:890-903 | Likewise, with any outcomes of a special judge it is if and only if each counted member has a group of its own |
| ManyWorkers.TotalsIff | src/tioj/submission.cpp:900-906 | Likewise, with 0/100 outcomes the reported total is right if and only if every group with a weight satisfies the condition of ScoresIff |
| ManyWorkers.PartialTotalsIff | src/tioj/submission.cpp:900-906 | Likewise, with any outcomes of a special judge it is if and only if every group with a weight satisfies that of PartialScoresIff |
| Overtaking.Overtakes | src/tioj/submission.cpp:996-1011 | With two workers or more there is an eager run in which one testdata is overtaken by all others, given up, and never scored: it is a run for both of two outcomes that differ only in how that testdata is scored |
| Overtaking.AllGroupsGivenUp | src/tioj/submission.cpp:780-783 | When only the first task of a testdata is running and nothing can be started, all of its groups are given up, if each has another testdata that is not accepted |
| OneWorker.OneWorkerAcceptsIff | src/tioj/submission.cpp:780-783 | With one worker and given numbers acceptance is right in every run if and only if each counted testdata has no group or one in which everyone with a smaller number counts |
| OneWorker.OneWorkerScoresIff | src/tioj/submission.cpp:890-903 | The same for the score of a group and 0/100 outcomes |
| OneWorker.OneWorkerPartialScoresIff | src/tioj/submission.cpp:890-903 | The same for the score of a group and any outcomes of a special judge: each counted member comes first in one of its groups |
| OneWorker.OneWorkerTotal | src/tioj/submission.cpp:900-906 | The reported total of a run with one worker is right wherever all groups that have a weight are, whatever the weights |
| OneWorker.OneWorkerTotalIff | src/tioj/submission.cpp:900-906 | With one worker, given numbers and 0/100 outcomes the reported total is right in every run if and only if every group with a weight keeps its score |
| OneWorker.OneWorkerPartialTotalIff | src/tioj/submission.cpp:900-906 | The same for any outcomes of a special judge |
| ReportedTotals.TotalIff | src/tioj/submission.cpp:900-906 | Both, on the function that a serial run computes |
| ReportedTotals.TotalsApart | src/tioj/submission.cpp:900-906 | Results of which one is nowhere better and gives a group with a weight nothing instead of the full score have different totals, also after rounding |
| OneWorker.JudgedByItself | src/tioj/submission.cpp:990-1013 | For every submission, numbering, outcomes and number of workers there is a run that finishes it, never waits while something can be started, and waits for a given task only if nothing else is running |
| SerialSkipping.AcceptanceIff | src/tioj/submission.cpp:813-820 | The condition for one worker, on the function that a serial run computes, judge type SKIP included |
| SerialSkipping.ScoreIff | src/tioj/submission.cpp:890-903 | The two conditions on scores, on that function |
| IgnoredTestdata.AcceptedThoughWrong | src/tioj/submission.cpp:780-783 | A concrete submission whose ignored testdata gives up the group of the only counted one: a run with one worker reports AC and 100, judging everything gives WA and 0 |
| IgnoredTestdata.OneWorkerAcceptsIt | src/tioj/submission.cpp:780-783 | Every run with one worker says so |
| PartialScores.TotalsDiffer | src/tioj/submission.cpp:780-783 | Two concrete runs with two workers, the same submission and outcomes: totals 0 and 30 |
| Draining.Drains | src/tioj/submission.cpp:997-1011 | From every state of the judge, with any number of workers, a path without arrivals leads to the end of all submissions; it never waits while something can be started, and puts off a given task as long as anything else is running |
| World.ExactlyOnce | src/tioj/submission.cpp:924-937 | In every run a finished submission has emitted exactly one overall report, with a verdict, or none; none only if a later push carried the same external id |
| World.NoDeadlock | src/tioj/submission.cpp:997-1011 | While a submission is in the judge some task of that submission runs or may be taken |
| World.LeavesOnce | src/tioj/submission.cpp:941-956 | A task that was there and is gone left in exactly one step of the run, at a moment when it waited for nothing, and never comes back |
| World.StepRemovesOne | src/tioj/submission.cpp:193-198 | Each step keeps the remaining tasks of a submission or removes one that waits for nothing |
| World.StepWInv | src/tioj/submission.cpp:958-978 | Arrival, dispatch and completion keep the invariant of the whole judge |
| World.RunKeepsPushes | src/tioj/submission.cpp:1148-1153 | In every run the id map leads to submissions that did arrive, and nobody is cancelled without a later arrival of the same external id |
| Finishing.EveryArrivalIsJudged | src/tioj/submission.cpp:1032-1159 | In every run that ends with nothing left, every submission that came in is finished as itself with one report (or superseded), and a plain one with the reference report |
| Finishing.NothingRunsWithoutInputs | src/tioj/submission.cpp:352-411 | In every run a started program was compiled by a compiler that was not stopped, exited with status 0 and left a regular file; stage j > 0 follows a stage j - 1 that really ran; a started special judge was compiled so, too |
| Finishing.ReadsAreInBounds | src/tioj/submission.cpp:488-505 | In every run the guarded reads of td_results in SetupExecute (later stages) and SetupScoring are in bounds |
| Finishing.EachTestdataReportedOnce | src/tioj/submission.cpp:798-806 | In every run each testdata of a compiled, not superseded submission without skipping and intermediate reports is reported once, with its final verdict |
| Finishing.TimesAndLimits | src/tioj/submission.cpp:442-478 | In every run with the default judge and without skipping: the time of a testdata is the sum over the stages that ran, and AC means that sum within the limit and every stage within the memory limits |
| Verdicts.AcceptedExactly | src/tioj/submission.cpp:452-478 | In every run without skipping that compiled: the default judge accepts a testdata if and only if it exits with status 0, leaves its verdict and finds the output right, and every stage before it was neither stopped nor signalled, exited with status 0 and kept the limits on time so far and memory - or judge_abnormally_terminated is set |
| Verdicts.AcceptedRanClean | src/tioj/submission.cpp:452-478 | In every run without judge_abnormally_terminated: of a testdata accepted by the default judge exactly the stages before the first scoring were started, and each ended with timekill 0, no oomkill, no signal and status 0 |
| Verdicts.CompileErrorsAreReported | src/tioj/submission.cpp:294-312 | In every run (no summary program, not superseded) the report is less severe than CE if and only if every compiler succeeded; otherwise it is the most severe verdict that one of them is to blame for, with score, time and memory zero |
| Verdicts.BrokenProgramIsReported | src/tioj/submission.cpp:300-309 | In every run a submission whose program's compiler exits with a status other than zero, or leaves no file, is reported with CE or worse |
| Verdicts.TakenFirst | src/tioj/submission.cpp:158-161 | In every run whoever is taken has the highest priority of all tasks that may be taken, among equal priorities the smallest internal id, and within its submission the smallest task order, which is 0 for compilations and the summary |
| Verdicts.TakeInRun | src/tioj/submission.cpp:958-974 | In every run taking a task does to the record of its submission what Effects.IsTaken says of the fields, and nothing to any other |
| Verdicts.ReturnInRun | src/tioj/submission.cpp:941-956 | In every run so does the end of a process, by Effects.IsCompleted, whatever its outcome |
| Acceptance.AcceptedIff | src/tioj/submission.cpp:722-751 | Judged alone: the condition of AcceptedExactly |
| Acceptance.SettledByDefaultJudge | src/tioj/submission.cpp:775-776 | With judging between stages the default judge settles a testdata after its first stage: later stages never run |
| Finishing.SkippedStagesAreFinal | src/tioj/submission.cpp:775-776 | In every run, a result with skip_stage has a verdict and never changes again |
| Finishing.RunsOn | src/tioj/submission.cpp:993-1012 | Rounds of the work loop add up to one run |
| SerialRuns.SerialOrder | src/tioj/submission.cpp:158-161 | With one worker, when a task of a testdata is taken, testdata with smaller numbers have no task left |
| SerialRuns.DroppedExactlyWhenLost | src/tioj/submission.cpp:200-208 | With one worker, a testdata is dropped before its first stage if and only if it has groups and each contains an earlier testdata judged and not accepted |
| SerialRuns.SerialDeterminism | src/tioj/submission.cpp:998-1001 | With one worker the overall report is a function of submission, numbering and outcomes, group skipping and partial scores included |
| Resubmission.ArrivalKeepsUniqueIff | src/tioj/submission.cpp:1149-1153 | An arrival keeps "one uncancelled submission per external id" if and only if the id map leads to every live uncancelled submission with that id |
| Resubmission.StepKeepsUniqueIff | src/tioj/submission.cpp:1149-1153 | Starting, skipping and finishing tasks keep it always: only arrivals can break it |
| Resubmission.UniqueSoFarIff | src/tioj/submission.cpp:936 | In every run it holds at every moment so far if and only if at each arrival so far the id map led to every live uncancelled submission with that external id |
| Resubmission.UniqueInEveryRun | src/tioj/submission.cpp:936 | If internal and external ids never coincide, uniqueness holds in every state of every run |
| Arrivals.SupersededBy | src/tioj/submission.cpp:1149-1153 | A submission that is cancelled in a run is followed by an arrival with its external id |
| Collision.UniquenessCanFail | src/tioj/submission.cpp:936 | A concrete run in which two uncancelled submissions with one external id are live together, because the id map is erased by internal id; the last of them arrives while the worker waits |
| Closing.ReportIsReference | src/tioj/submission.cpp:885-907 | The report of a plain submission is the reference report, computed without any scheduler |
| Closing.ReportWithSkipping | src/tioj/submission.cpp:885-907 | The report with skipping: acceptance and total as the reference, each under its own condition |
| Closing.GroupKeepsScore | src/tioj/submission.cpp:890-899 | A group that was not given up has its reference score |
| Closing.ReportedOnce | src/tioj/submission.cpp:924-931 | One overall report with a verdict, or none for a cancelled submission |
| Closing.TestdataReportedOnce | src/tioj/submission.cpp:798-806 | One final report per testdata, carrying the result it ends with |
| Outcomes.SummaryIsReference | src/tioj/submission.cpp:809-821 | When the summary is dispatched it reports the reference verdict and totals |
| Outcomes.ResultsAtEnd | src/tioj/submission.cpp:413-483 | At the end every testdata has the result it has when judged alone |
| Outcomes.ProgramHasInputs | src/tioj/submission.cpp:379-408 | Inputs of a started program: its compiler exited with status 0, not stopped, and left a file, and the previous stage ran |
| Outcomes.JudgeHasInputs | src/tioj/submission.cpp:507-511 | The compiler of a started special judge exited with status 0, not stopped, and left a file |
| Outcomes.ResultIsThere | src/tioj/submission.cpp:362-363 | td_results is long enough when it is read |
| Outcomes.SummaryFacts | src/tioj/submission.cpp:1108-1147 | When nothing blocks the summary, everything else is gone |
| GroupSkip.SkippingPreservesResult | src/tioj/submission.cpp:813-820 | The summary of a submission with skipping: accepted exactly when everything would be, with the same total, each under its condition on the groups |
| GroupSkip.OwnGroupsKeepScore | src/tioj/submission.cpp:780-783 | Whatever the scores, a group keeps its score if each of its counted members has a group of its own |
| LifecycleInv.ArrivedInv | src/tioj/submission.cpp:1088-1148 | A new submission satisfies the invariant |
| LifecycleInv.DispatchInv | src/tioj/submission.cpp:958-974 | Dispatching a task, started or skipped, keeps the invariant of its submission; a summary that is skipped ends it and is treated in Closing |
| LifecycleInv.CompleteInv | src/tioj/submission.cpp:941-956 | Finalizing a finished task keeps it, whatever the outcome; a finished summary ends it and is treated in Closing |
| LifecycleInv.CancelInv | src/tioj/submission.cpp:1151 | So does being superseded |
| LifecycleInv.NotDroppedNotFrozen | src/tioj/submission.cpp:356-360 | The checks made by Setup are right: a task is dropped exactly if a compilation failed or the submission or all its groups are cancelled |
| TestdataRun.StageNeedsPrevious | src/tioj/submission.cpp:363 | A stage that starts follows a stage that started |
| TestdataRun.FinalHasVerdict | src/tioj/submission.cpp:777-779 | A testdata that ran to its end has a verdict |
| TestdataRun.RuntimeOnly | src/tioj/submission.cpp:452-478 | Results hold verdicts of a run and bounded scores |
| TestdataRun.OneReport | src/tioj/submission.cpp:802-805 | Along the tasks of a testdata there is exactly one report: when it is settled, with its final result |
| TestdataRun.ZeroOrFullChain | src/tioj/submission.cpp:767-779 | 0/100 scoring of each outcome carries over to final results |
| Causes.ExecVerdictIs | src/tioj/submission.cpp:452-478 | For each of NUL, EE, MLE, TLE, OLE, SIG and RE the exact condition on timekill, oomkill, signal, exit status, memory and time under which a run leaves it; no other verdict is left |
| Causes.ExecuteMeans | src/tioj/submission.cpp:442-478 | The result after a run: that verdict, time added up, the larger memory, afresh at the first stage; skip_stage as before |
| Causes.CompileOutcomeIs | src/tioj/submission.cpp:296-309 | The exact condition for each verdict of a compilation: NUL only for timekill 0, no oomkill, status 0 and a regular file; CE, CLE, JCE and JE otherwise |
| Causes.CompileMeans | src/tioj/submission.cpp:296-310 | The verdict of the submission stays exactly for a successful compiler, and is otherwise the more severe of the old and the new one; JE replaces any |
| Causes.ScoringMeans | src/tioj/submission.cpp:722-779 | The result after scoring, by judge type: which exit statuses count as success, what a failed judge leaves, what a successful one may set, when NUL becomes WA and when skip_stage is set |
| Causes.FailedJudge | src/tioj/submission.cpp:725-735 | A failed judge run leaves JRE, or WA exactly with specjudge_re_as_wa, on a result without a verdict; an earlier verdict is kept; the score is zero |
| Causes.ExecutedToOne | src/tioj/submission.cpp:442-478 | Only one result satisfies the table of a run |
| Causes.ScoredToOne | src/tioj/submission.cpp:760-779 | Only one result satisfies the table of a scoring |
| Causes.CompiledToOne | src/tioj/submission.cpp:296-310 | Only one verdict satisfies the table of a compilation |
| Causes.CodeRanks | include/tioj/submission.h:73-89 | Verdicts are compared by the order NUL, AC, WA, TLE, MLE, OLE, RE, SIG, JRE, EE, CE, CLE, JCE, JE |
| Effects.StartsIff | src/tioj/submission.cpp:228-234 | A process is started exactly for a compilation that is not superseded; a run, or a scoring, of a testdata that is still to be judged and without verdict or skip_stage (scorings also with judge_abnormally_terminated, never with judge type SKIP); a summary program unless the overall verdict is JCE |
| Effects.OverallMeans | src/tioj/submission.cpp:813-820 | The verdict found by the summary is that of the compilations, or else the most severe one of a counted testdata, or AC |
| Effects.ScoringIs | src/tioj/submission.cpp:753-807 | A scoring changes one result, gives up the groups of a testdata exactly with skip_group and a verdict other than AC, and is reported exactly if it is the last, ends the testdata or intermediate reports are wanted, and never for a superseded submission |
| Effects.ExecuteIs | src/tioj/submission.cpp:413-450 | A run changes one result and lengthens td_results if needed |
| Effects.SummaryIs | src/tioj/submission.cpp:879-931 | What is reported: zero score from CE on; otherwise total, sum of times and peak of memory; a summary program that fails leaves JRE and no time or memory, one that succeeds replaces what it gives |
| Effects.TakeMeans | src/tioj/submission.cpp:958-974 | A dispatched task: started, dropped without a trace, or recorded at once |
| Effects.CompleteMeans | src/tioj/submission.cpp:941-956 | A finished task: its table, and the task leaves the graph |
| Effects.TakenToOne | src/tioj/submission.cpp:958-974 | Only one record satisfies the table of a dispatch, up to history |
| Effects.CompletedToOne | src/tioj/submission.cpp:941-956 | Only one record satisfies the table of a completion, up to history |
| TaskGraph.EdgeRaisesRank | src/tioj/submission.cpp:1088-1147 | The dependency graph has no cycles |
| TaskGraph.SummaryIsLast | src/tioj/submission.cpp:1108 | The summary is unblocked only as the last remaining task |
| TaskGraph.SomeUnblocked | src/tioj/submission.cpp:195 | While a task remains, some remaining task waits for nothing |
| TaskGraph.ProgramIsCompiled | src/tioj/submission.cpp:1119-1131 | An unblocked execute task has the compilation of its program behind it |
| TaskGraph.JudgeIsCompiled | src/tioj/submission.cpp:1132-1137 | Likewise a scoring task and the judge |
| TaskGraph.TasksAreNeeded | src/tioj/submission.cpp:1088-1146 | The tasks of a submission: a program is compiled exactly if some stage runs it, judge and summary program if there is one |
| TaskGraph.EdgesAreWaits | src/tioj/submission.cpp:1088-1142 | Exactly what each task waits for, said from the side of the waiting task |
| TaskList.LinkCounts | src/tioj/submission.cpp:189-192 | Linking keeps every in-degree equal to the number of edges into the entry |
| TaskList.RemovedEntryOk | src/tioj/submission.cpp:193-198 | Removing an entry keeps edges and in-degrees of the others right |
| TaskList.ZeroIsUnblocked | src/tioj/submission.cpp:187 | In-degree zero means waiting for nothing |
| GraphBuilder.BuildGraph | src/tioj/submission.cpp:1088-1147 | The loops of PushSubmission build exactly the tasks and edges of the dependency graph, with matching in-degrees |
| GraphBuilder.AddAlternating | src/tioj/submission.cpp:1093-1099 | Entries of a testdata judged between stages |
| GraphBuilder.AddRuns | src/tioj/submission.cpp:1100-1107 | Entries of a testdata judged after its last stage |
| GraphBuilder.AddCompile | src/tioj/submission.cpp:1119-1142 | A compilation and its edges, to the summary if no testdata waits for it |
| GraphBuilder.FindFirstNonProblemStage | src/tioj/submission.cpp:1111-1118 | The loop finds the first stage of the user program |
| Totals.NormalizeIsRoundDiv | src/tioj/submission.cpp:210-215 | Clamp, scale and round is division by 10^8 to the nearest integer, halves away from zero, clamped |
| Totals.GroupScoreIsMin | src/tioj/submission.cpp:890-899 | A group score is the sentinel exactly for a group without counted members, else the minimum of their scores |
| Totals.TotalIsRoundedSum | src/tioj/submission.cpp:900-906 | The total in integers |
| Totals.TotalMonotone | src/tioj/submission.cpp:887-906 | With nonnegative weights, raising a testdata score never lowers the total |
| Totals.TotalInRange | src/tioj/submission.cpp:887-906 | With scores in [0, 10^8] the total lies between 0 and the sum of the weights |
| Totals.WorstVerdictIsMax | src/tioj/submission.cpp:813-820 | The overall verdict is the largest counted verdict, or AC |
| Totals.TimeAddsUp | src/tioj/submission.cpp:892-895 | Another result for one testdata changes the reported time by exactly the difference of their times if it counts, and not at all if it is ignored |
| Totals.NoTime | src/tioj/submission.cpp:889-895 | If nothing counted took time, in particular if nothing counts, the reported time is zero |
| Totals.MemoryIsPeak | src/tioj/submission.cpp:894 | The reported memory bounds that of every counted testdata and is that of one of them, or zero |
| Totals.WeightsAddUp | src/tioj/submission.cpp:901-905 | Results that differ in the score of one group differ in the sum by its weight times the difference |
| Totals.NothingScored | src/tioj/submission.cpp:900-905 | If no group has a score the sum is zero |
| Totals.EffectiveIsMin | src/tioj/submission.cpp:896-903 | What a group counts for: the minimum of its counted members, or the full score without any |
| Totals.RoundDivIsNearest | src/tioj/submission.cpp:210-215 | Rounding goes to the nearest integer, halves away from zero |
| Layering.LayersDescend | src/tioj/submission.cpp:1065-1078 | Each layer contains all later layers |
| Layering.LowerBound | src/tioj/submission.cpp:1068-1074 | Binary search finds the first layer that misses one of the groups, as a linear scan does |
| Layering.EarlierLayersCover | src/tioj/submission.cpp:1075-1077 | Every layer touches all groups of every testdata placed in a later layer |
| Layering.LayerZeroTouchesAll | src/tioj/submission.cpp:1049-1057 | The layer judged first touches every group that has a testdata |
| Layering.JudgingOrderIsLayered | src/tioj/submission.cpp:1080-1083 | The judging order is a permutation sorted by layer, stable within a layer |
| Layering.TdOrderNumbers | src/tioj/submission.cpp:1084 | td_order is the inverse permutation |
| Layering.AssignOrder | src/tioj/submission.cpp:1048-1087 | The code computes that td_order: the inverse of the one greedy order (IsGreedyOrder) |
| Layering.MoreGroupsFirst | src/tioj/submission.cpp:1059-1064 | Every testdata is scanned once; one is scanned before another exactly if it has more groups, or equally many and a smaller index |
| Layering.LayersAreGreedy | src/tioj/submission.cpp:1065-1078 | Every testdata is in the first layer to which it adds a group that those scanned before it did not bring there, or in a new one |
| Layering.OneLayering | src/tioj/submission.cpp:1065-1078 | That determines the layers |
| Layering.OrderIsGreedy | src/tioj/submission.cpp:1048-1087 | The judging order goes by layer, then by index; without skip_group by index alone |
| Layering.OneGreedyOrder | src/tioj/submission.cpp:1048-1087 | That determines the order |
| Layering.JudgedFirst | src/tioj/submission.cpp:1059-1083 | The first of the testdata that have the most groups is in layer zero; the one judged first is in layer zero, with a smaller index than anyone else there |
| Layering.LargerFirst | src/tioj/submission.cpp:1059-1084 | A testdata of one group, listed before one that has this group and another, is judged after it |
| Serial.EarlierAreFinished | src/tioj/submission.cpp:1095-1096 | Within one submission: a task at the top means testdata with smaller numbers are finished |
| Serial.LostAreSpoiled | src/tioj/submission.cpp:780-783 | Groups lost so far are those with an earlier testdata judged and not accepted |
| Serial.SerialSummary | src/tioj/submission.cpp:809-820 | The summary of a serial run reports the serial reference |
| SnapshotMoves.TakeStarts | src/tioj/submission.cpp:975-977 | Starting a task is one step of the judge and leaves exactly the ready tasks queued |
| SnapshotMoves.TakeSkips | src/tioj/submission.cpp:971-974 | So is skipping one |
| SnapshotMoves.Returns | src/tioj/submission.cpp:1006-1009 | So is getting one back |
| SnapshotMoves.Pushes | src/tioj/submission.cpp:1143-1153 | So is taking a submission in |
| SnapshotMoves.GreatestIsTop | src/tioj/submission.cpp:169-173 | The top of the queue is the task the judge has to take next |
| SnapshotMoves.NothingLeft | src/tioj/submission.cpp:997 | With nothing queued and nothing running no task and no submission is left |
| SnapshotMoves.RunningCount | src/tioj/submission.cpp:996-1009 | As many tasks run as there are handles |
| Snapshot.ReadyIsCanStart | src/tioj/submission.cpp:186-196 | In-degree zero and not running is the same as being allowed to start |
| Snapshot.OutcomeIsExpected | src/tioj/submission.cpp:980-985 | What a task returns does not depend on what happened while it ran |
| SnapshotSteps.RemoveKeepsQueue | src/tioj/submission.cpp:193-198 | After a removal the queue holds each ready task once and nothing else |
| Scheduler.Scheduler.constructor | src/tioj/submission.cpp:165-180 | The empty judge |
| Scheduler.Scheduler.Conservation | src/tioj/submission.cpp:996-1009 | task_running = running + finished = handles, and a user id is left for every task that may still be started |
| Scheduler.Scheduler.Remove | src/tioj/submission.cpp:193-198 | Counts down and erases; pushes exactly the successors that became ready |
| Scheduler.Scheduler.IsCancelled | src/tioj/submission.cpp:200-208 | Superseded, or every one of its groups (and it has some) given up |
| Scheduler.Scheduler.SetupCompile | src/tioj/submission.cpp:227-232 | Starts unless superseded |
| Scheduler.Scheduler.SetupExecute | src/tioj/submission.cpp:352-411 | Decides like the transition system, reading td_results only in bounds |
| Scheduler.Scheduler.SetupScoring | src/tioj/submission.cpp:488-520 | Likewise, finalizing at once what needs no judge |
| Scheduler.Scheduler.SetupSummary | src/tioj/submission.cpp:809-821 | Stores the overall verdict, decides whether a summary program runs |
| Scheduler.Scheduler.FinalizeCompile | src/tioj/submission.cpp:285-350 | One move of the transition system; the verdict stays exactly for a successful compiler and rises to CE, CLE, JCE or JE under the conditions of Causes.CompilerLeaves |
| Scheduler.Scheduler.FinalizeExecute | src/tioj/submission.cpp:413-483 | One move of the transition system; td_results grows if needed, and the result satisfies the table of a run, RunLeaves for its verdict |
| Scheduler.Scheduler.FinalizeScoring | src/tioj/submission.cpp:753-807 | One move of the transition system; result, given-up groups and report satisfy the table of a scoring |
| Scheduler.Scheduler.FinalizeSummary | src/tioj/submission.cpp:879-938 | One move of the transition system; what is reported satisfies the table of a summary, and the submission is erased |
| Scheduler.GroupScores | src/tioj/submission.cpp:890-899 | The array of group minima |
| Scheduler.SumUp | src/tioj/submission.cpp:887-906 | The three totals; the memory is the peak of the counted testdata, time and score add up by Totals.TimeAddsUp and Totals.WeightsAddUp |
| Scheduler.OverallVerdict | src/tioj/submission.cpp:813-820 | The worst counted verdict |
| Scheduler.GreatestOf | src/tioj/submission.cpp:999 | An entry that no other one exceeds |
| Scheduler.Scheduler.FinalizeTask | src/tioj/submission.cpp:941-956 | Finalizes and removes |
| Scheduler.Scheduler.DispatchTask | src/tioj/submission.cpp:958-978 | Refines one dispatch step of the judge, started or skipped |
| Scheduler.Scheduler.WaitTask | src/tioj/submission.cpp:980-986 | Returns a finished task and its outcome, and drops its handle |
| Scheduler.Scheduler.CollectTask | src/tioj/submission.cpp:1006-1009 | Refines one completion step of the judge |
| Scheduler.Scheduler.PushSubmission | src/tioj/submission.cpp:1032-1159 | Refused exactly when the queue is full; otherwise refines one arrival with td_order as numbering |
| Scheduler.Scheduler.InsertTaskList | src/tioj/submission.cpp:183-188 | All entries in, the ready ones queued |
| Scheduler.Scheduler.Round | src/tioj/submission.cpp:996-1011 | The inner loop ends, is a path of the judge, and leaves no handle and no queued task |
| Scheduler.Scheduler.WorkLoop | src/tioj/submission.cpp:990-1013 | The work loop, for as long as submissions come: it is a path of the judge whose arrivals are exactly the accepted submissions in order, refused were exactly those that found a full queue, and no task, handle or submission is left |
| Service.Serve | src/tioj/submission.cpp:990-1159 | A new scheduler answers every submission; each accepted one is finished with one report - the reference report if nothing is skipped, the serial one with a single worker - or withdrawn for a later one |
| Service.AcceptedIsServed | src/tioj/submission.cpp:990-1159 | What the result of Serve says about one submission |
| TaskPool.LendsCount | src/tioj/tasks.cpp:396-403 | Free and lent resources add up |
| TaskPool.Pool.constructor | src/tioj/tasks.cpp:396-403 | All user ids and pinned cpus are free |
| TaskPool.Pool.RunTask | src/tioj/tasks.cpp:434-476 | A free user id and, if there is one, a free cpu are lent; the outcome is pending; nothing changes if pipe or fork fails |
| TaskPool.Pool.Wait | src/tioj/tasks.cpp:405-430 | False if select fails or nothing runs; else exactly the selected tasks become finished, their resources go back, nothing pending changes |
| TaskPool.Pool.WaitAnyResult | src/tioj/tasks.cpp:478-486 | Fetches one pending outcome, none exactly when nothing is pending |
| TaskPool.Pool.UidsLeft | src/tioj/tasks.cpp:438-439 | The user id pool is empty exactly when 100 tasks are running |
| TaskPool.Pool.NothingShared | src/tioj/tasks.cpp:441-448 | No two running tasks share a user id or a pinned cpu |
| Comparers.AgreeIffTrimmed | tools/default-scoring.cpp:43-79 | Equal as far as both go and only blanks behind: the same as equality without trailing blanks |
| Comparers.LineCompare | tools/default-scoring.cpp:39-80 | What line comparison accepts, for all its options |
| Comparers.LinesAgreeIffSameForm | tools/default-scoring.cpp:39-80 | With the default options: equality of the right-stripped lines without blank lines at the end |
| Comparers.WordCompare | tools/default-scoring.cpp:111-161 | Accepts exactly if the word lists of the lines agree up to wordless lines at the end |
| Comparers.SameWords | tools/default-scoring.cpp:120-145 | The inner loop decides equality of the word lists of two lines |
| Comparers.WordsAgreeIffSameForm | tools/default-scoring.cpp:207 | White-diff is equality of the canonical word forms |
| Comparers.StrictCompare | tools/default-scoring.cpp:82-109 | Accepts exactly equal contents, for every positive buffer size |
| Comparers.StrictLineWords | tools/default-scoring.cpp:202-207 | Strict equality implies line equality implies white-diff equality |
| Texts.LinesAre | tools/default-scoring.cpp:46-47 | A newline ends a line, and what follows the last newline is a line, too: this determines the lines of every text |
| Texts.StrippedParts | tools/default-scoring.cpp:41-51 | A stripped line is the line without blank, newline, carriage return and tab at its end, and nothing else is taken away |
| Texts.WordsAre | tools/default-scoring.cpp:120-145 | Words are what stands between blank, newline, carriage return, tab, vertical tab and form feed: this determines the words of every line |
| SandboxCodec.LongRoundTrip | src/tioj/sandbox.cpp:10-14 | Eight bytes give back every 64-bit integer |
| SandboxCodec.ByteAt | src/tioj/sandbox.cpp:62-67 | Integers are written with the lowest byte first, as a little-endian machine stores them |
| SandboxCodec.Serialize | src/tioj/sandbox.cpp:56-100 | The encoding of the record, nothing for a user or group out of range |
| SandboxCodec.Deserialize | src/tioj/sandbox.cpp:8-48 | From an encoding the record comes back, and the buffer is used up exactly |
| SandboxCodec.DeserializeLimits | src/tioj/sandbox.cpp:37-47 | The last fields are read and the buffer is used up exactly |
| SandboxCodec.ReadFull | src/tioj/sandbox_io.h:10-22 | Succeeds exactly if the data are there and no call fails, under any short reads and interruptions; then it has read them |
| SandboxCodec.WriteFull | src/tioj/sandbox_io.h:24-36 | Everything arrives, under any short writes and interruptions, exactly unless a call fails or writes nothing; then a part of it has |
| SandboxCodec.SendOptions | src/tioj/sandbox_exec.cpp:35-38 | Sends length and record exactly if user and group are in range, the record has at most 2^20 bytes and no write fails; else sends nothing, or a part if a write fails |
| SandboxCodec.ReceiveOptions | src/tioj/sandbox_main.cpp:22-27 | Rebuilds the record that was sent, unless a read fails |
| SandboxCodec.Transfer | src/tioj/sandbox_main.cpp:21-29 | Through any pipe the sandbox gets the record the judge has sent, exactly if it can be sent and no call fails |
| TestdataSync.SyncIsRebuildIff | src/server_io.cpp:513-557 | A sync by difference leaves what a full rebuild would if and only if no dropped testdata comes back with its old timestamp or old position |
| TestdataSync.SyncsSoFarIff | src/server_io.cpp:513-557 | In every history, whatever failed in between, all successful syncs so far left what full rebuilds would if and only if each of them gave whatever it listed again after a removal a new timestamp and a new position |
| TestdataSync.HistoryRows | src/server_io.cpp:513-519 | The database remembers timestamp and position of the last successful listing of each testdata |
| TestdataSync.EverySyncIsRebuild | src/server_io.cpp:579-631 | If dropped testdata are never listed again, every successful sync in every history is a rebuild, whatever failed in between |
| TestdataSync.RelistingBreaks | src/server_io.cpp:531-536 | A concrete history in which a dropped testdata comes back unchanged and its files are missing |
| TestdataSync.Store.Compare | src/server_io.cpp:520-553 | Which testdata to download and which positions to relink |
| TestdataSync.Store.Relink | src/server_io.cpp:609-624 | Links after the update |
| TestdataSync.Store.Sync | src/server_io.cpp:510-631 | Fails while downloading and changes nothing, or runs to the end |
| Base64.OutputBase64 | src/server_io.cpp:413-431 | The loop and the code behind it decode group by group |
| Base64.RoundTrip | src/server_io.cpp:399-431 | Decoding undoes the encoding of sections 4 and 5 of RFC 4648, padded or not |

## Left out

- TestdataRun.JudgeResult: the text formats of the special judges are not parsed; a judge may rewrite the result to any verdict of a run and any bounded score.
- TaskPool.Pool.Wait: ready handles are visited in any order, not by number; which user id is lent next depends on it, nothing else does.
- Scheduler.Scheduler.DispatchTask: calls of RunTask that fail, of which the source takes no notice.
- TaskPool.Pool.WaitAnyResult: a select that fails while nothing is finished, a case the source does not handle.
- Comparers.Stream.GetLine: files that cannot be opened; the verbose messages of the comparers.
- Totals.NormalizeScore: `long double` is taken as exact.
- Scheduler.Scheduler.WorkLoop: the condition variable itself; a round begins when a submission has come.
- SandboxCodec.Deserialize: buffers that Serialize did not make; the source reads them without checks.
- TestdataSync.Store.Sync: input and output file of a testdata are one; renames, removals and links are taken to succeed, the database to hold one problem.
- Base64.Encoded: text that is not an encoding is decoded by the model as by the source, but nothing is claimed for it.
- OneWorker.OneWorkerTotalIff: weights below zero, where wrong scores of two groups can cancel each other, and sums of weights over 10^12, where the total is clamped and a wrong score can be lost; OneWorker.OneWorkerTotal and World.SkippingIsSafe, which say what is enough, have neither restriction. The same goes for ManyWorkers.TotalsIff.
- ManyWorkers.AcceptsIff: judge type SKIP, which accepts nothing, is left to World.SkippingIsSafe and OneWorker.OneWorkerAcceptsIff.
- OneWorker.OneWorkerScoresIff: scores given by judge type SKIP, of which every one is 0.
- Messages of compilers, report callbacks other than results and overall results, and the file system: boxes, permissions, mounts, copies.
- fork, chroot and cjail themselves, compiler command lines, limits passed to the sandbox.
- Floating-point word comparison, which rests on library parsing.
- Websocket, HTTP, JSON, database and configuration, and the queue of outgoing requests.
