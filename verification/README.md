# QA control plane: a verified model

This project models the parts of the QA control plane that keep real state or
run real algorithms, and proves what they promise over all inputs and all runs.

| module | what it models |
|---|---|
| `Reducer`, `Subsequences` | the delta-debugging reducer of failing action sequences |
| `BugIds`, `BugStore`, `FeatureRegistry`, `RegressionProtection`, `RegressionPolicy` | bug lifecycle, feature stability and run planning, which together decide what may be skipped |
| `PostgresCluster`, `DatabaseWorkflows`, `DemoTarget` | the disposable-database workflows on a cluster of databases, and what the demo database can hold |
| `PreviewDocker`, `PreviewManager` | the preview environments on a Docker daemon |
| `JobRunner` | a background job against concurrent cancel requests |
| `KioskClient`, `KioskServer`, `OfflineBurst`, `OfflineBurstRun` | the kiosk's offline queue, the server contract its scenarios assert, and the burst of N kiosks |
| `Qualification`, `CertificationPolicy`, `Coverage` | attempts, scenarios, suites, runs, certification decisions and coverage |
| `ConsistencyOracle` | the comparison of session sums with projections |

Code that changes state in place is a class whose methods are proved against a
specification function or relation; theorems about whole runs are lemmas about
sequences of those steps.  Calls that leave the process (PostgreSQL, Docker, HTTP,
drivers, invariant checkers, job processes) read their outcome from a function of
the call number, so a theorem covers every pattern of failures; `Reliable` and
`Works` say that none occurs, and under them the operations are shown to succeed.

## What the proofs found

Where the code does less than its comments or names say, the code is modelled and
the exact condition proved.

- A source change of a BROKEN feature is dropped (`feature_registry.py:252-265`); an
  otherwise promotable one then needs its PASS results alone to become STABLE:
  `PassesAloneReachStable`, and exactly `ChangeBlocksExactlyWhenRegistered`.
- `mark_regression_risk` is called nowhere in production code, and FAST plans never
  look at bugs, so a STABLE feature whose bug regresses is still skipped in FAST
  plans: `FastIgnoresBugs`.
- `regression_policy.py:79` tests a different set than line 77 when it words the
  reason; the decision itself is unaffected, and only the reason is modelled so.
- QA reset drops a target that fails verification; demo preparation and demo reset
  do not (`agent.py:678-680`, `agent.py:706-709`).
- A demo preparation that fails while cleaning leaves a half-cleaned template, and the
  check that a later demo reset makes looks at four tables only (`agent.py:453-519`).
  The reset then reports success with uncleaned data in the demo database:
  `FailedPreparationReachesTheTarget`, `ResetExposesHalfCleaned`, and with a single
  audit record under the default names `AuditRecordReachesTheDemo`; exactly when is
  `ResetAfterFailureIsSafeExactlyWhen`.  The demo database is clean when nobody resets
  after a failed preparation (`DemoTargetIsCleanOrOld`), and when no source passes the
  check half-cleaned (`DemoTargetIsCleanWhenChecked`).
- Delete refuses once the app container is gone (`preview_manager.py:328-337`), so
  such an environment cannot be deleted through the manager; and it swallows Docker
  errors, so a row can say DELETED while resources remain: `DeletionLeaks`, and for
  each resource exactly when in `DoDelete`.
- `begin_start` does not refuse a DELETED row.  Ports stay unique over a run exactly
  when no step brings back a row whose port was given away: `PortsStayUnique`, and
  for `begin_start` alone `StartBreaksPorts`.
- The comment that the job thread never overwrites an operator's cancel
  (`api.py:94-98`) holds only outside the window between the read-back and the final
  write, and not on the exception path: `CancelWinsOutsideTheWindow`,
  `FailureOverwritesCancel`, `CancelLostInTheWindow`.
- An exception during a kiosk replay loses everything still pending:
  `ReplayLosesNothing`.
- The burst's session count selects the operations of every burst by name, so sessions
  of an earlier burst make a converged run fail: `ConvergencePhasePasses`, `RunBurst`.
- A scenario whose driver raises stays RUNNING and does not keep its suite from
  PASSED: `SuitePassesExactlyWhen`, `CrashedScenarioIsInvisible`.
- The run row is a snapshot: a scenario that fails after the run was finished leaves
  it PASSED (`UncleanRunNeverPassesAgain`, `PassedRunOutlivesItsSuite`), and
  `finish_run` replaces CANCELLED
  (`StoredCancelExactlyWhen`).  `first_failing_step` names the last failed attempt.
- A rework source without `rework_qty` makes the WIP check raise instead of report.

## Model

| member | source | states |
|---|---|---|
| `Reducer.TryChunks` | current/engine/replay.py:34-39 | one pass over the chunks finds exactly the first removable one, and asks the oracle exactly the pass's questions |
| `Reducer.ShrinkActions` | current/engine/replay.py:27-45 | terminates for every input and oracle; result and oracle calls are those of the reference reduction; the result is a minimal reproduction and the calls stay under the bound |
| `Reducer.ShrunkIsMinimalReproduction` | current/engine/replay.py:27-45 | the result is an in-order subsequence, non-empty when the input is, still reproduces when the input does, and is 1-minimal |
| `Reducer.ShrunkReproduces` | current/engine/replay.py:40-42 | reproduction, order and non-emptiness hold from any granularity |
| `Reducer.ShrunkIsOneMinimal` | current/engine/replay.py:27-45 | with two or more actions left, removing any single one no longer reproduces |
| `Reducer.MonotoneMinimum` | current/engine/replay.py:27-45 | for an oracle closed under adding actions, 1-minimal is globally minimal: no non-empty proper subsequence of the result reproduces |
| `Reducer.NeededActionsOnly` | current/tests/test_behavioral_engine.py:71-78 | for an oracle that asks for a set of needed actions the result holds exactly those, once each |
| `Reducer.QueriesAreReductions` | current/engine/replay.py:34-39 | the oracle is only ever shown non-empty proper reductions of the input |
| `Reducer.QueryBudget` | current/engine/replay.py:29-44 | amortised bound: from any state the remaining oracle calls fit a potential paid for by granularity growth and by removals |
| `Reducer.QueryBound` | current/engine/replay.py:27-45 | at most n(n+7)/2 - 4 oracle calls on n >= 2 actions, none below that |
| `BugIds.FromToHex` | current/engine/bug_store.py:55-62 | hexadecimal rendering reads back to the same number |
| `BugIds.Hex4Injective` | current/engine/bug_store.py:55-62 | the padded count never collides, also beyond four digits |
| `BugIds.IssuedIdsAreDistinct` | current/engine/bug_store.py:55-62 | ids made from a date and the count of that date's ids are pairwise distinct in every table that only grows |
| `BugIds.IssueOneMore` | current/engine/bug_store.py:55-62 | the next id is new on any day and keeps that invariant |
| `BugStore.BugTable.RecordBug` | current/engine/bug_store.py:65-127 | creates or de-duplicates by fingerprint as the table step says; a created row never meets a taken id |
| `BugStore.BugTable.Transition` | current/engine/bug_store.py:168-221 | fixing, ready-for-verify, verify and ignore succeed exactly when accepted and change exactly one row |
| `BugStore.ReachableTables` | current/engine/bug_store.py:55-221 | in every reachable table ids and fingerprints are unique, and RESOLVED or REGRESSION has a passing verify with a time |
| `BugStore.TableRefinesLog` | current/engine/bug_store.py:80-127 | refinement: a fingerprint has a row exactly when it was reported, occurrences counts its reports, and the evidence is the last ten of them in order |
| `BugStore.StatusStep` | current/engine/bug_store.py:117-221 | every status change is an edge of the lifecycle; RESOLVED is entered exactly by a passing verify of a READY_FOR_VERIFY bug |
| `BugStore.TrailIsLegal` | current/engine/bug_store.py:117-221 | over every run the history of a bug is a walk in the lifecycle graph from OPEN to its stored status |
| `BugStore.ResolvedOnlyThroughVerify` | current/engine/bug_store.py:168-221 | each entry into RESOLVED follows fixing and ready-for-verify since the bug was last OPEN or REGRESSION; IGNORED is absorbing |
| `BugStore.EventsAreEntries` | current/engine/bug_store.py:117-211 | the status history enters RESOLVED once per accepted passing verify and REGRESSION once per report that finds the bug RESOLVED |
| `BugStore.ResolutionsBalanceRegressions` | current/engine/bug_store.py:117-221 | over every run accepted passing verifies of a bug minus the reports that found it RESOLVED is 0 or 1, and 1 exactly while its last resolution stands |
| `FeatureRegistry.Registry.UpsertFeature` | current/engine/feature_registry.py:100-127 | insert with defaults or update of the given fields only |
| `FeatureRegistry.Registry.AttachRegressionTestCase` | current/engine/feature_registry.py:143-154 | the test case is attached, once, creating the feature if needed |
| `FeatureRegistry.Registry.CheckCoverageGap` | current/engine/feature_registry.py:173-185 | refreshes the gap flag; unknown features are an error that changes nothing |
| `FeatureRegistry.Registry.DeclareBehavior` | current/engine/feature_registry.py:157-166 | adds the tag once and refreshes the gap |
| `FeatureRegistry.Registry.RecordResult` | current/engine/feature_registry.py:188-225 | logs the run, counts or resets the streak, moves the status and promotes when everything holds; anything but PASS or FAIL is refused |
| `FeatureRegistry.Registry.EvaluateStability` | current/engine/feature_registry.py:228-249 | promotes to STABLE exactly when the feature is promotable |
| `FeatureRegistry.Registry.MarkFeatureChanged` | current/engine/feature_registry.py:252-265 | a source change resets the streak and asks for a regression run, except on BROKEN features |
| `FeatureRegistry.Registry.ClearPendingRegression` | current/engine/feature_registry.py:268-273 | clears the pending run and re-evaluates |
| `FeatureRegistry.Registry.MarkRisk` | current/engine/feature_registry.py:276-285 | sets REGRESSION_RISK except on BROKEN and CHANGED features |
| `FeatureRegistry.Registry.ComputeImpact` | current/engine/feature_registry.py:299-318 | marks and reports exactly the features that map a changed file; a failed diff changes nothing |
| `FeatureRegistry.TouchedIsExact` | current/engine/feature_registry.py:299-318 | the impacted list holds a feature exactly when one of its sources changed, without repetition |
| `FeatureRegistry.RunFromConcat` | current/engine/feature_registry.py:143-166 | composite operations are runs of the elementary ones |
| `RegressionProtection.StreakIsExact` | current/engine/feature_registry.py:188-285 | in every interleaving the stored streak is the number of PASS results since the last FAIL or source change; STABLE has no pending run and BROKEN no streak |
| `RegressionProtection.PromotionNeedsEverything` | current/engine/feature_registry.py:228-249 | STABLE is entered only with tests, sources, the minimum streak, no unresolved bug, no gap and no pending run |
| `RegressionProtection.MinimumHonouredStep` | current/engine/feature_registry.py:100-127 | a step keeps "STABLE has its minimum streak" if and only if it does not raise the minimum of a STABLE feature above its streak |
| `RegressionProtection.MinimumHonouredOverRuns` | current/engine/feature_registry.py:188-273 | over every run STABLE features have their minimum streak all along if and only if no upsert raises the minimum of a STABLE feature above its streak |
| `RegressionProtection.ChangeBlocksStable` | current/engine/feature_registry.py:252-273 | after a registered source change no run reaches STABLE before the pending run is cleared |
| `RegressionProtection.PassesAloneReachStable` | current/engine/feature_registry.py:188-265 | after a source change a BROKEN feature that lacks only passes becomes STABLE by its minimum of PASS results alone, with nothing else in the store changed |
| `RegressionProtection.BrokenForgetsChange` | current/engine/feature_registry.py:252-265 | from any BROKEN feature without a pending run, whatever its bugs, tests and minimum, some continuation reaches STABLE without clearing a run |
| `RegressionProtection.ChangeBlocksExactlyWhenRegistered` | current/engine/feature_registry.py:252-273 | exact: a source change keeps a feature out of STABLE until its run is cleared, in every continuation, if and only if the feature was not BROKEN or already had a pending run |
| `RegressionProtection.VerifyBug` | current/agent.py:2420-2435 | the verify route is the verify step followed, on a passing verify with feature and test case, by attaching, recording the PASS and clearing the pending run |
| `RegressionPolicy.CasesByFeature` | current/engine/regression_policy.py:25-34 | groups the regression tests of bugs by feature, without duplicates and without losing any |
| `RegressionPolicy.DecideIsRight` | current/engine/regression_policy.py:67-106 | the branch chain decides RUN exactly when the mode's rule says so |
| `RegressionPolicy.DecideAll` | current/engine/regression_policy.py:51-111 | one decision per feature, and mandatory tests exactly those of the features whose history counts |
| `RegressionPolicy.ComputeRunPlan` | current/engine/regression_policy.py:51-111 | the plan has exactly one decision per feature, the exact mandatory tests and the exact counts; unknown modes are refused |
| `RegressionPolicy.PlansAreNested` | current/engine/regression_policy.py:51-111 | RUN sets satisfy FAST within REGRESSION within FULL; mandatory tests satisfy FAST within REGRESSION, equal to FULL |
| `RegressionPolicy.NoUnearnedSkip` | current/engine/regression_policy.py:51-111 | end to end over every run: no plan of any mode skips a feature with a pending run nor, unless an upsert raised the minimum of a STABLE feature above its streak, one with fewer passes than its minimum since the last FAIL or change |
| `RegressionPolicy.FailureForcesRuns` | current/engine/regression_policy.py:51-111 | too short a streak puts the feature into every plan, under the same proviso |
| `RegressionPolicy.FastIgnoresBugs` | current/engine/regression_policy.py:86-104 | remark: FAST decisions do not depend on the bug table |
| `PostgresCluster.CascadeIsDependence` | current/agent.py:640-643 | TRUNCATE CASCADE empties a table if and only if a chain of foreign keys leads from it to the root |
| `PostgresCluster.CleanContents` | current/agent.py:629-649 | the cleaned clone: runtime closure empty, QA/demo employees gone, every other row kept |
| `PostgresCluster.CleanTwice` | current/agent.py:629-649 | cleaning is idempotent |
| `PostgresCluster.RealEmployeesTwice` | current/agent.py:645-648 | the employee filter keeps exactly the rows without a QA/demo number |
| `PostgresCluster.Cluster.VerifyBaseline` | current/agent.py:453-519 | verified exactly when the database the URL reaches meets the minima and, if asked, has no runtime rows |
| `DatabaseWorkflows.ResetQaDatabase` | current/agent.py:522-551 | refuses without a change, or works only on its target; ends with the verified template, or absent when verification fails; succeeds when nothing fails |
| `DatabaseWorkflows.TruncateDisposableClone` | current/agent.py:629-649 | turns the clone into the cleaned source, or fails with the clone cleaned up to some root and nothing else touched |
| `DatabaseWorkflows.PrepareDemo` | current/agent.py:651-684 | on success target and template are the cleaned, checked clone of the source; at any failure only those two may differ, and a failing statement for one root leaves exactly the source cleaned up to there in the template |
| `DatabaseWorkflows.ResetDemo` | current/agent.py:687-710 | the target is made again from a template that passed its check, and nothing else changes |
| `DatabaseWorkflows.FrameOverRuns` | current/agent.py:522-710 | over every run, configuration and point of failure a database that no step may write is unchanged |
| `DatabaseWorkflows.ProtectedForever` | current/agent.py:361-425 | no workflow, however configured, ever changes mesflow, postgres, template0 or template1 |
| `DatabaseWorkflows.DemoRoundTrip` | current/agent.py:651-710 | after a successful preparation any writes and failed resets, then a successful reset, give exactly what the preparation gave |
| `DatabaseWorkflows.QaTargetNeverHalfMade` | current/agent.py:522-551 | after any number of QA resets failing anywhere the target is as it was, absent, or a copy of the template |
| `DemoTarget.DemoTargetIsCleanOrOld` | current/agent.py:629-710 | over every run of preparations and resets failing anywhere the demo target is absent, holds what target or template held at the start, or a clean and checked copy of an earlier source, as long as nobody resets while the latest preparation is one that failed |
| `DemoTarget.DemoTargetIsCleanWhenChecked` | current/agent.py:629-710 | the same with no condition on the history: resets at any time are harmless if every source the cluster ever holds is one that the baseline check cannot pass half-cleaned |
| `DemoTarget.ResetAfterFailureIsSafeExactlyWhen` | current/agent.py:629-710 | from every starting cluster, a reset after a failed preparation can leave something neither clean nor held at the start in the target if and only if the source, cleaned up to some root, passes the check without being clean or equal to the old target or template |
| `DemoTarget.FailedPreparationReachesTheTarget` | current/agent.py:629-710 | the run for each such root: the reset reports success and the target holds the source cleaned up to there |
| `DemoTarget.ResetExposesHalfCleaned` | current/agent.py:651-710 | the same by the workflows themselves: the statement for one root fails, every other call works, and the preparation ends in failure and the reset in success |
| `DemoTarget.UncheckedRowsSlipThrough` | current/agent.py:453-519 | the check looks at four runtime tables only: once those are empty, any root that still has rows makes such a source |
| `DemoTarget.AuditRecordsSlipThrough` | current/agent.py:453-519 | a concrete one: a single audit record |
| `DemoTarget.AuditRecordReachesTheDemo` | current/agent.py:629-710 | the concrete run: from a cluster of one source with one audit record, under the default names and minima of zero, the demo database ends with that record |
| `DatabaseWorkflows.TruncatePresent` | current/agent.py:634-643 | each root's statement commits on its own, so a failure leaves a prefix of the roots truncated |
| `DatabaseWorkflows.ResetTargetPasses` | current/agent.py:522-551 | remark: read off the relation, a successful QA reset leaves a target that itself passes the baseline |
| `PreviewDocker.Docker.SafeRemoveContainer` | current/engine/preview_manager.py:240-243 | removes at most the named container, and only when it is labelled |
| `PreviewDocker.Docker.SafeSetRunning` | current/engine/preview_manager.py:230-238 | stops or starts at most the named container, and only when it is labelled |
| `PreviewDocker.Docker.SafeRemoveNetwork` | current/engine/preview_manager.py:245-248 | removes at most the named network, and only when it is labelled |
| `PreviewDocker.Docker.SafeRemoveVolume` | current/engine/preview_manager.py:195-201 | removes at most the named volume, and only when both its labels match the environment |
| `PreviewManager.Manager.GuardDestructive` | current/engine/preview_manager.py:328-337 | passes only when name, environment flag and label are all right |
| `PreviewManager.Manager.AllocatePort` | current/engine/preview_manager.py:307-318 | the first bindable port of the range that no live row uses, or none exactly when there is none |
| `PreviewManager.Manager.DoBeginCreate` | current/engine/preview_manager.py:368-395 | adds one row with the names of its id and a free port, or changes nothing |
| `PreviewManager.Manager.DoFinishCreate` | current/engine/preview_manager.py:397-458 | brings up labelled resources of this id only; READY exactly on success, FAILED otherwise; succeeds when nothing fails |
| `PreviewManager.Manager.DoStop` | current/engine/preview_manager.py:491-497 | stops this environment's containers and nothing else, keeping all resources |
| `PreviewManager.Manager.DoBeginStart` | current/engine/preview_manager.py:506-510 | only sets the status of the row, also of a DELETED one |
| `PreviewManager.Manager.DoFinishStart` | current/engine/preview_manager.py:512-526 | starts this environment's containers; READY exactly on success |
| `PreviewManager.Manager.DoResetReseed` | current/engine/preview_manager.py:528-557 | reseeds behind the guards, keeping all resources |
| `PreviewManager.Manager.DoDelete` | current/engine/preview_manager.py:559-581 | succeeds exactly when the guard holds and every removal ends well or in a swallowed DockerError; then each resource is still there exactly when its own removal had such an error without effect; impossible once the app container is gone |
| `PreviewManager.ReliableDeletionLeavesNothing` | current/engine/preview_manager.py:559-581 | without errors a deletion of a complete environment succeeds and leaves nothing |
| `PreviewManager.DeletionLeaks` | current/engine/preview_manager.py:559-581 | one error while labels are read ends with status DELETED and the labelled container still there |
| `PreviewManager.NamesAreDisjoint` | current/engine/preview_manager.py:376-383 | different environments never share a resource name |
| `PreviewManager.UnlabelledUntouched` | current/engine/preview_manager.py:195-248 | over every run with failures at any Docker call nothing without the preview label is removed, stopped, started or made again |
| `PreviewManager.OtherEnvironmentsUntouched` | current/engine/preview_manager.py:328-581 | operations on other environments leave an environment's resources and row exactly as they were |
| `PreviewManager.VolumeSurvives` | current/engine/preview_manager.py:409-415 | without Delete the data volume itself survives every operation and failure |
| `PreviewManager.ReuseKeepsResources` | current/engine/preview_manager.py:491-557 | any number of stops, starts and reseeds never creates, recreates or removes a resource |
| `PreviewManager.PortsStayUnique` | current/engine/preview_manager.py:303-318 | over every run, live environments have different ports in every world if and only if no step takes its row out of DELETED while its port is taken |
| `PreviewManager.StartBreaksPorts` | current/engine/preview_manager.py:506-510 | the exact condition under which starting breaks that: the row is DELETED and its port was given away |
| `JobRunner.TerminalIsForever` | current/qualification/api.py:62-107 | in every schedule of one runner and any number of cancels a terminal status never returns to QUEUED or RUNNING |
| `JobRunner.CancelWinsOutsideTheWindow` | current/qualification/api.py:76-102 | normal path, exact: the job ends CANCELLED if and only if some cancel is written before the read-back or after the verdict; otherwise the exit code decides |
| `JobRunner.FailureOverwritesCancel` | current/qualification/api.py:103-104 | exception path, exact: a cancel survives if and only if it is written after the failure |
| `JobRunner.CancelLostInTheWindow` | current/qualification/api.py:94-102 | a concrete schedule in which an accepted cancel is overwritten by SUCCESS |
| `JobRunner.DoneIsFinal` | current/qualification/api.py:105-107 | once the thread is gone and no cancel is under way the record never changes |
| `JobRunner.DoneIsTerminal` | current/qualification/api.py:76-107 | a finished thread leaves a terminal status, except exactly when writing the failure failed and nobody cancelled |
| `JobRunner.StatusBeforeReadBack` | current/qualification/api.py:76-99 | until the read-back only cancels write: the status is CANCELLED exactly when one did |
| `JobRunner.JobThread.CancelJob` | current/qualification/api.py:421-430 | accepted exactly when the process is registered and can be terminated; then the status is CANCELLED and nothing else is lost |
| `JobRunner.JobThread.RunJob` | current/qualification/api.py:76-107 | the thread itself, interrupted between any two steps, always deregisters its process and ends as those theorems say |
| `KioskClient.Kiosk.Bootstrap` | current/qualification/kiosk_emulator.py:55-61 | takes the reported state and touches neither queue nor sequence number |
| `KioskClient.Kiosk.Send` | current/qualification/kiosk_emulator.py:63-76 | offline bodies go to the end of the queue, online ones are posted; conservation and order are kept |
| `KioskClient.Kiosk.ReconnectAndReplay` | current/qualification/kiosk_emulator.py:94-100 | delivers the queue in order up to the first exception; without one delivered plus queued equals submitted and online means an empty queue |
| `KioskClient.Kiosk.Enqueue` | current/qualification/offline_burst.py:136-144 | a body put straight into the queue keeps conservation and order |
| `KioskClient.ReplayLosesNothing` | current/qualification/kiosk_emulator.py:94-100 | the exact condition: a replay loses nothing if and only if no post raises, or only the last one does after reaching the server |
| `KioskClient.SubseqKeepsOrder` | current/qualification/kiosk_emulator.py:63-76 | whatever is lost, what remains is in device sequence order |
| `KioskServer.RedeliveryChangesNothing` | current/qualification/kiosk_emulator.py:268-314 | exactly-once effect: any log leaves the server as its first deliveries alone would |
| `KioskServer.RetryGetsTheSameReply` | current/qualification/kiosk_emulator.py:538-568 | a body sent again, however much later, gets its first reply and does nothing |
| `OfflineBurst.QueueShift` | current/qualification/offline_burst.py:129-145 | one kiosk queues its four events and the duplicate, in order |
| `OfflineBurst.QueuePhase` | current/qualification/offline_burst.py:125-148 | every kiosk goes offline and holds exactly its burst queue; counts are 4n and n |
| `OfflineBurst.ReplayIsFollowed` | current/qualification/offline_burst.py:151-165 | along every interleaving with any redeliveries the server follows each worker's progress exactly |
| `OfflineBurst.EveryReplyAccepts` | current/qualification/offline_burst.py:168-187 | no event of the burst is ever rejected, duplicates included |
| `OfflineBurst.BurstConverges` | current/qualification/offline_burst.py:168-205 | for every interleaving of N kiosks each operation ends with done quantity exactly 1 from exactly one session |
| `OfflineBurst.ConvergencePhase` | current/qualification/offline_burst.py:168-214 | the checks in order: replies, done quantities, sessions of every operation with the burst prefix, domain invariants |
| `OfflineBurst.OtherOperationsStay` | current/qualification/offline_burst.py:78-105 | a burst touches no operation but those of its workers |
| `OfflineBurst.SessionsWithout` | current/qualification/offline_burst.py:201-202 | the session count does not depend on the order of the rows |
| `OfflineBurst.SessionsAfterBurst` | current/qualification/offline_burst.py:201-205 | the query counts one session per worker plus those of other bursts |
| `OfflineBurst.ConvergencePhasePasses` | current/qualification/offline_burst.py:168-214 | for every interleaving, on the replies its devices get, the phase's verdict is Converged if and only if the invariants hold and no other burst's operation has a session |
| `OfflineBurstRun.AnsweredReplayArrives` | current/qualification/kiosk_emulator.py:94-100 | a device whose posts are answered as the server answers it along the log delivers its whole queue, in order |
| `OfflineBurstRun.MergeInterleaves` | current/qualification/offline_burst.py:153-165 | whatever order the replaying threads reach the server in, the log is an interleaving of the workers' shifts |
| `OfflineBurstRun.ReconnectPhase` | current/qualification/offline_burst.py:153-165 | every queue ends empty, and results are kept for exactly the kiosks before the first whose replay raises |
| `OfflineBurstRun.BrokenBurstCrashes` | current/qualification/offline_burst.py:168-174 | a replay that raised never ends as a converged burst: the last phase crashes on its missing results |
| `OfflineBurstRun.AnsweredBurstConverges` | current/qualification/offline_burst.py:150-214 | kiosks answered along any merge of their queues deliver all of it, and their burst converges if and only if the invariants hold and no other burst has a session |
| `OfflineBurstRun.RunBurst` | current/qualification/offline_burst.py:125-214 | the three phases in a row, with both results above for every network |
| `Qualification.AttemptsShape` | current/qualification/runner.py:72-95 | attempts are FAILED* or FAILED* PASSED, at most retries + 1, each as the driver behaved |
| `Qualification.StatusTellsTheAttempts` | current/qualification/runner.py:96 | PASSED, FLAKY and FAILED each hold exactly when first, a later, or no attempt passes |
| `Qualification.FailingStepIsOfTheLastFailure` | current/qualification/runner.py:83-87 | the step stored as the first failing one is that of the last failed attempt |
| `Qualification.ScenarioPassesExactly` | current/qualification/runner.py:72-115 | a scenario passes exactly when its first attempt does and every named invariant has a checker that holds |
| `Qualification.UncleanScenarioIsForever` | current/qualification/runner.py:116-120 | once a scenario failed or passed only on a retry, its suite is never PASSED again and finishing its run would not give PASSED, in any history |
| `Qualification.UncleanRunNeverPassesAgain` | current/qualification/service.py:141-169 | the stored run row: after such a scenario it is PASSED exactly when it already was and nothing has finished the run since |
| `Qualification.PassedRunOutlivesItsSuite` | current/qualification/service.py:141-169 | the history in which a suite fails after its run was finished and the run still says PASSED |
| `Qualification.StoredPassExactlyWhen` | current/qualification/service.py:141-169 | over every history a run is stored as PASSED exactly when its last finish found every suite passed and no invariant failed |
| `Qualification.StoredCancelExactlyWhen` | current/qualification/service.py:164-183 | over every history a run is stored as CANCELLED exactly when it was cancelled while RUNNING and not finished since |
| `Qualification.EveryHistoryRemembers` | current/qualification/runner.py:116-120 | in every history a suite is never better than its worst finished scenario |
| `Qualification.EverySuiteIsExact` | current/qualification/runner.py:116-120 | in every history a suite with a finished scenario has the status of its worst finished one |
| `Qualification.SuitePassesExactlyWhen` | current/qualification/runner.py:116-120 | so it is PASSED exactly when all its finished scenarios are, those whose driver raised being ignored |
| `Qualification.CrashedScenarioIsInvisible` | current/qualification/runner.py:62-121 | the history in which a scenario crashed and suite and run still end PASSED |
| `Qualification.RunPassesExactlyWhenAllPassed` | current/qualification/service.py:141-158 | a run is PASSED exactly when it has suites, all of them passed, required or not, and no invariant failed |
| `Qualification.AtMostOneActiveRun` | current/qualification/service.py:107-112 | at most one run per artifact and environment is RUNNING, in every history |
| `Qualification.QualificationStore.RunAttempts` | current/qualification/runner.py:72-95 | the loops compute the attempts and the failing step; raised exactly when the driver raises on the way |
| `Qualification.QualificationStore.CheckInvariants` | current/qualification/runner.py:99-109 | one row per checker, a missing one counting as failed, up to one that raises |
| `Qualification.QualificationStore.RunScenario` | current/qualification/runner.py:62-121 | the whole scenario: its row, its invariant rows and its suite's status, or a row left RUNNING exactly when something raises |
| `Qualification.QualificationStore.RunCommandSuite` | current/qualification/runner.py:26-60 | PASSED exactly for exit code 0; a timeout is FAILED; an exception leaves RUNNING |
| `Qualification.QualificationStore.StartRun` | current/qualification/service.py:96-122 | refuses in order an unknown artifact, an unknown environment, an invalid kind and a second active run, changing nothing |
| `Qualification.QualificationStore.FinishRun` | current/qualification/service.py:141-169 | stores PASSED exactly under the condition above |
| `Qualification.QualificationStore.MarkCancelled` | current/qualification/service.py:171-184 | changes only a RUNNING run |
| `CertificationPolicy.SortByStart` | current/qualification/policy.py:105 | the pooled rows in order of start, ties in row order |
| `CertificationPolicy.LatestRows` | current/qualification/policy.py:101-106 | exactly the latest row of every suite key |
| `CertificationPolicy.Decide` | current/qualification/policy.py:89-129 | the reasons are exact and eligibility holds if and only if the pooled evidence meets the policy |
| `CertificationPolicy.StricterPolicyImplies` | current/qualification/policy.py:89-129 | evidence that meets a policy meets every policy it covers |
| `CertificationPolicy.CoversExactlyWhenImplied` | current/qualification/policy.py:89-129 | the order is exact: a policy covers another if and only if all evidence meeting the one meets the other |
| `CertificationPolicy.UncoveredPolicyDiffers` | current/qualification/policy.py:89-129 | otherwise evidence that separates the two is constructed |
| `CertificationPolicy.TiersAreOrdered` | current/qualification/policy.py:10-86 | EXTENDED implies STRONG V2 implies STRONG V1 implies FAST |
| `CertificationPolicy.FailedInvariantBlocksForever` | current/qualification/policy.py:111-124 | once any run of an artifact has a failed invariant no later history makes a zero-tolerance policy eligible |
| `CertificationPolicy.UncleanSuiteNeverCertifies` | current/qualification/policy.py:107-124 | a scenario failed or passed on retry at any time blocks every policy while its suite is the latest required row of its key |
| `CertificationPolicy.RetryOnlyPassNeverCertifies` | current/qualification/runner.py:77-120 | end to end from the driver's answers: when the first attempt fails, no retry makes the suite certify |
| `CertificationPolicy.CertificationStore.Evaluate` | current/qualification/policy.py:132-154 | certifies exactly when eligible on the runs of that artifact and environment, and changes one certification row |
| `CertificationPolicy.EvaluateTier` | current/qualification/policy.py:157-178 | pools every run of the artifact; an unknown artifact meets no tier |
| `Coverage.MoreRunsNeverHurt` | current/qualification/coverage.py:79-128 | pooling more runs never lowers a feature's state: COVERED stays, nothing becomes UNCOVERED |
| `Coverage.ArtifactCoverageContainsRunCoverage` | current/qualification/coverage.py:131-165 | artifact coverage contains the coverage of each of its runs |
| `Coverage.CreditsNeverSatisfyDrivers` | current/qualification/coverage.py:27-32 | whatever the credit table and suites say, a required driver needs a passed scenario of its own |
| `Coverage.CreditLayers` | current/qualification/coverage.py:93-103 | credited layers are exactly those of the credits whose suite passed |
| `Coverage.MatchRows` | current/qualification/coverage.py:107-114 | layers, drivers and failures of the matching scenarios, exactly |
| `Coverage.Report` | current/qualification/coverage.py:79-128 | one exact detail per registered feature and exact counts |
| `Coverage.FullCriticalCoverage` | current/qualification/coverage.py:121-127 | the critical counts agree exactly when every critical feature is covered |
| `Coverage.CountsAddUp` | current/qualification/coverage.py:183-185 | the four state counts always sum to the total |
| `Coverage.SnapshotPersists` | current/qualification/coverage.py:168-218 | a snapshot of a run is replaced by no later snapshot of other runs |
| `Coverage.SnapshotStore.ReadSnapshot` | current/qualification/coverage.py:209-218 | returns the report that the last snapshot of the run stored, whatever the rows have become |
| `Coverage.SnapshotStore.TakeSnapshot` | current/qualification/coverage.py:168-206 | stores the coverage of exactly one run with its counts, or nothing for an unknown run |
| `ConsistencyOracle.AdditionNeverRaises` | current/engine/state_model.py:59-68 | the running sum of valid rows is valid, so the checked addition never fails |
| `ConsistencyOracle.TotalIgnoresOrder` | current/engine/consistency_oracle.py:49-54 | sum, number of invalid rows and abort do not depend on row order |
| `ConsistencyOracle.ReportsNothingExactlyWhenConsistent` | current/engine/consistency_oracle.py:44-66 | no failure if and only if every closed session is valid and every present projection is valid and equals their sum |
| `ConsistencyOracle.VerdictIgnoresOrder` | current/engine/consistency_oracle.py:44-66 | the reported failures do not depend on row order |
| `ConsistencyOracle.SumSessions` | current/engine/consistency_oracle.py:49-54 | the session loop computes that sum and one failure per invalid closed row |
| `ConsistencyOracle.CheckOperation` | current/engine/consistency_oracle.py:44-66 | the failures, in order, or an exception exactly when a field converts to nothing the check catches |
| `ConsistencyOracle.CheckWip` | current/engine/consistency_oracle.py:68-74 | fails exactly when more is consumed than supplied; a rework source without an amount raises |

## Left out

- Texts, timestamps and encodings: JSON and SQLite storage, wall-clock fields other
  than the bug's resolved time, messages, log tails, percentages and their rounding.
- Fingerprint normalisation and redaction: the fingerprint is an input; nothing is
  claimed about when two texts share one.
- The order of listed features, sorted outputs and set-valued results: only contents
  are stated.
- HTTP routes, Flask, Playwright, subprocesses, sockets and sleeping: replaced by
  steps that may fail; the kiosk server is not in the repository, so `KioskServer`
  states the contract its scenarios assert and nothing more.
- Identity restart of truncated tables, constraint details of DELETE, session
  termination before DROP, and an admin URL that reaches another cluster.
- What seeding writes into a preview database, image selection, passwords and
  container logs; a label that changes between its check and the guarded call.
- Interleavings within one environment: `finish_create`, `finish_start` and the other
  operations are single steps, so a background thread that is overtaken by another
  operation on the same id is excluded.
- Two concurrent `begin_create` calls that pick the same port before either inserts.
- A job file that is torn or unreadable on disk; several jobs share no state, so one
  is modelled.
- Coverage.MoreRunsNeverHurt: pools of runs over the same rows; a credited suite
  that fails later loses its credit, because the credit is read from its status.
- OfflineBurst.BurstConverges: assumes that the events carry distinct ids, as fresh
  UUIDs and device names give them, and that every post gets through with HTTP 200.
- OfflineBurstRun.ReconnectPhase: the race in which the pool cancels a replay that no
  thread has taken up yet, because another one has already raised.
- Float and boolean quantities in oracle rows; the fixed transition graphs of
  `state_model.py`; readers that raise.
- `deployment.py` and the suite runners built on it, the demo runner, scenario
  generator, coverage runner and evidence store: orchestration or easy members only.
- Suite rows that other runners write: "in every history" speaks of the rows that
  `runner.py` and `service.py` write.  The offline burst (`offline_burst.py:221`), the
  kiosk emulator (`kiosk_emulator.py:678`), `browser.py:130`, `live.py:615` and the other
  suite runners store a suite status of their own, which `Qualification` does not cover.
