# Dinky task service — a Dafny model

This project models the task lifecycle and versioning core of Dinky's task
service (`TaskServiceImpl`): a Flink task moves through the steps CREATE,
DEVELOP, RELEASE, ONLINE and CANCEL. Releasing a task stores a version
snapshot in an append-only per-task log, and a rollback copies a stored
version back onto the task. Going online submits the task to the engine,
resuming from a savepoint chosen by the task's strategy or from the last
completed checkpoint of its previous job.

The model has seven modules:

- `TaskTypes` (types.dfy): the task row, its configuration, lifecycle steps,
  dialects, savepoint strategies, and the replies and engine outcomes.
- `JavaStrings` (java_strings.dfy): the Java string behaviour the service
  relies on: `StringUtils.isBlank`, `String.split("\n")` (trailing empty
  pieces dropped) and `String.contains`.
- `TaskVersions` (task_versions.dfy): the version log, the snapshot decision
  of `createTaskVersionSnapshot`, and the rollback copy.
- `SavepointResolver` (savepoints.dfy): `buildSavepoint`,
  `findTheConditionSavePoint` and the decision of `selectSavepointOnLineTask`.
- `JobSubmission` (job_submission.dfy): `buildEnvSql`, the savepoint part of
  `buildJobConfig`, the redaction loop of `exportSql`, and the error lines
  `submitTask` logs.
- `CatalogueWalker` (catalogue.dfy): `childrenNodeParse` over a tree datatype,
  and `getTaskPathByTaskId`'s walk up the parent links.
- `TaskServices` (task_service.dfy): the class `TaskService`. It holds the
  task, statement, version, job-instance and savepoint tables as maps, and
  its methods are the lifecycle operations.

The execution engine, the JDBC drivers and the explain pass are not modelled.
Their answers are method parameters: the `JobResult` of a submission, the
`StopReply` of a stop request, the explain results, and the SQL the engine
renders for an export. Each method states the whole new state of the tables
for every outcome. Each lifecycle operation also keeps the store invariant
`TaskServices.StoresValid`: every task has a statement row, version logs are
numbered 1, 2, … without gaps, and a task's version pointer is empty exactly
before its first release and then names a stored version.
`CreateTaskVersionSnapshot` is a step inside the release: it keeps the log
numbered 1, 2, … and returns a pointer into it, and the release stores that
pointer on the task row.

## Model

| member | source | states |
|---|---|---|
| JavaStrings.SplitLines | dinky-admin/src/main/java/org/dinky/service/impl/TaskServiceImpl.java:233-234 | Java's split on "\n": a text without a newline is its own single line; otherwise the lines, followed by the dropped trailing empty pieces and joined with newlines, give the text back, the last line is not empty, and no line contains a newline |
| JavaStrings.Pieces | dinky-admin/src/main/java/org/dinky/service/impl/TaskServiceImpl.java:233 | the pieces between newlines, one more than there are newlines, contain no newline and join back to the text |
| TaskVersions.Lookup | dinky-admin/src/main/java/org/dinky/service/impl/TaskServiceImpl.java:704-705 | the version-number map finds a stored row carrying the requested number |
| TaskVersions.MaxId | dinky-admin/src/main/java/org/dinky/service/impl/TaskServiceImpl.java:708-709 | the maximum of the version numbers is one of them and bounds all of them |
| TaskVersions.Capture | dinky-admin/src/main/java/org/dinky/service/impl/TaskServiceImpl.java:688-694 | the snapshot carries the task's name, dialect, type and configuration, the given statement and the given version number; the step, pointer and job-instance column are not part of it; what this buys is stated by `RestoreVersion` (capturing a restored task gives the version back) and by `TakeSnapshot` (a release compares captures) |
| TaskVersions.TakeSnapshot | dinky-admin/src/main/java/org/dinky/service/impl/TaskServiceImpl.java:681-715 | stored rows are never changed and at most one row is appended; nothing is appended exactly when the pointed-to version equals the snapshot, and then the pointer stays; a first release is version 1; a new version is numbered the largest stored number plus one, above every stored one |
| TaskVersions.ApplyVersion | dinky-admin/src/main/java/org/dinky/service/impl/TaskServiceImpl.java:735-742 | the rolled-back task takes the version's definition, is DEVELOP, points at the version and keeps its job-instance column; a fragment flag or environment reference the version leaves unset keeps the task's value, as the update by id skips null columns |
| TaskTypes.Overwrite | dinky-admin/src/main/java/org/dinky/service/impl/TaskServiceImpl.java:737-742 | the single statement of the update-by-id rule that a null value leaves the stored column and a given one replaces it; the property it serves is stated by `ApplyVersion` (rollback) and `TaskServices.Edited` (task update) |
| TaskVersions.RestoreVersion | dinky-admin/src/main/java/org/dinky/service/impl/TaskServiceImpl.java:735-742 | the intended rollback: the task captures back to exactly the version it came from, is DEVELOP and keeps its job-instance column |
| TaskVersions.LookupFinds | dinky-admin/src/main/java/org/dinky/service/impl/TaskServiceImpl.java:684-705 | in a log without repeated numbers, looking up a row's number returns that row |
| TaskVersions.GaplessMax | dinky-admin/src/main/java/org/dinky/service/impl/TaskServiceImpl.java:708-709 | in a log numbered 1..n the largest number is n, so a new version is n+1 |
| TaskVersions.GaplessUnique | dinky-admin/src/main/java/org/dinky/service/impl/TaskServiceImpl.java:684-685 | a gapless log has no repeated numbers, so building the version map does not throw |
| TaskVersions.SnapshotKeepsLogGapless | dinky-admin/src/main/java/org/dinky/service/impl/TaskServiceImpl.java:681-715 | a snapshot keeps the log numbered 1, 2, … and leaves the pointer on a stored version |
| TaskVersions.ReleaseIdempotent | dinky-admin/src/main/java/org/dinky/service/impl/TaskServiceImpl.java:681-715 | releasing twice without edits stores one version: the second snapshot returns the first's log and pointer |
| TaskVersions.RollbackThenReleaseAddsNothing | dinky-admin/src/main/java/org/dinky/service/impl/TaskServiceImpl.java:718-749 | after a rollback a release appends nothing exactly when every setting the version leaves unset is unset on the task too, and then it points at that version |
| TaskVersions.RollbackOverSetEnvAppends | dinky-admin/src/main/java/org/dinky/service/impl/TaskServiceImpl.java:735-742 | a version without environment reference rolled back onto a task with reference 5 leaves reference 5, and the next release appends version 2 |
| TaskVersions.RestoreThenReleaseAddsNothing | dinky-admin/src/main/java/org/dinky/service/impl/TaskServiceImpl.java:735-742 | with the intended rollback, releasing again appends nothing and points at the restored version |
| SavepointResolver.BuildSavepoint | dinky-admin/src/main/java/org/dinky/service/impl/TaskServiceImpl.java:943-958 | CUSTOM gives the configured path verbatim; NONE gives no savepoint; LATEST and EARLIEST give the last or first stored savepoint, and none exactly when nothing is stored |
| SavepointResolver.NewSavepointIsLatest | dinky-admin/src/main/java/org/dinky/service/impl/TaskServiceImpl.java:943-949 | a newly stored savepoint becomes the LATEST one and leaves the EARLIEST one unchanged |
| SavepointResolver.Chosen | dinky-admin/src/main/java/org/dinky/service/impl/TaskServiceImpl.java:1336-1356 | the chosen history entry is within the history and COMPLETED |
| SavepointResolver.ChosenIsFirstGreatestCompleted | dinky-admin/src/main/java/org/dinky/service/impl/TaskServiceImpl.java:1336-1356 | the choice is the COMPLETED entry with the greatest id, the first one on a tie; there is none exactly when no entry is COMPLETED |
| SavepointResolver.HistoryExample | dinky-admin/src/main/java/org/dinky/service/impl/TaskServiceImpl.java:1336-1356 | FAILED 1, COMPLETED 2 "A", COMPLETED 3 "B" resumes from "B" |
| SavepointResolver.TieExample | dinky-admin/src/main/java/org/dinky/service/impl/TaskServiceImpl.java:1347-1349 | on equal ids the strict comparison keeps the earlier entry |
| SavepointResolver.FindTheConditionSavePoint | dinky-admin/src/main/java/org/dinky/service/impl/TaskServiceImpl.java:1336-1356 | the one-pass loop returns the path of the first greatest COMPLETED entry, and a path exactly when some entry is COMPLETED |
| SavepointResolver.SelectSavepointOnLine | dinky-admin/src/main/java/org/dinky/service/impl/TaskServiceImpl.java:1296-1328 | a task is left alone exactly when its last instance is not done; a savepoint path is used only with LATEST_CHECKPOINT and a history, and it is the chosen checkpoint; a done instance with a completed checkpoint always resumes from one |
| JobSubmission.EnvStatement | dinky-admin/src/main/java/org/dinky/service/impl/TaskServiceImpl.java:983-989 | there is an environment statement exactly when the reference is set, non-zero, names a task with a statement, and that statement is non-empty; it is that task's statement |
| JobSubmission.BuildEnvSql | dinky-admin/src/main/java/org/dinky/service/impl/TaskServiceImpl.java:973-991 | the prologue starts and ends with the line separator; when fragments are on and the fragment SQL is non-null and non-empty, the separator is followed by that SQL and another separator; it ends with the environment statement and a separator when there is one; its length is one separator plus each present part with its separator, so nothing else is in it |
| JobSubmission.BuildJobConfig | dinky-admin/src/main/java/org/dinky/service/impl/TaskServiceImpl.java:917-941 | a SQL task's statement is buildEnvSql's prologue followed by the statement, a packaged-artifact statement is kept; a resolved savepoint becomes the savepoint path and is put under "execution.savepoint.path" in the options, with no other option changed; without one both are left as configured |
| JobSubmission.CustomPathSubmittedVerbatim | dinky-admin/src/main/java/org/dinky/service/impl/TaskServiceImpl.java:925-958 | a CUSTOM strategy submits the configured path in both places whatever is stored; NONE leaves the options untouched |
| JobSubmission.RedactionIdempotent | dinky-admin/src/main/java/org/dinky/service/impl/TaskServiceImpl.java:612-619 | redacting twice equals redacting once, and every sensitive key ends up hidden |
| JobSubmission.RedactVariables | dinky-admin/src/main/java/org/dinky/service/impl/TaskServiceImpl.java:612-619 | the loop keeps the keys, hides exactly the sensitive values and keeps the others; a null map stays null |
| JobSubmission.CausedByLines | dinky-admin/src/main/java/org/dinky/service/impl/TaskServiceImpl.java:234-236 | the kept lines are exactly the lines that contain "Caused by", in order, each as often as it occurs; a single line is kept exactly when it contains "Caused by" |
| JobSubmission.CausedByLinesAppend | dinky-admin/src/main/java/org/dinky/service/impl/TaskServiceImpl.java:234-236 | the kept lines of two blocks of lines are those of the first followed by those of the second |
| JobSubmission.ErrorSummary | dinky-admin/src/main/java/org/dinky/service/impl/TaskServiceImpl.java:232-236 | the report is empty exactly when the split has no line; otherwise it is the first line followed by the "Caused by" lines in order; after the first line it holds only "Caused by" lines, and every one of them |
| JobSubmission.SubmitErrorLog | dinky-admin/src/main/java/org/dinky/service/impl/TaskServiceImpl.java:233-236 | the report as written: it throws (no report) exactly when the split has no line; otherwise it is the first line followed by the "Caused by" lines in order |
| JobSubmission.SubmitErrorLogAgrees | dinky-admin/src/main/java/org/dinky/service/impl/TaskServiceImpl.java:232-236 | where the report as written does not throw, it equals the intended report |
| JobSubmission.SplitLinesEmpty | dinky-admin/src/main/java/org/dinky/service/impl/TaskServiceImpl.java:233 | the split returns no line exactly for a non-empty error text of newlines only |
| JobSubmission.SubmitErrorLogThrowsOnNewlinesOnly | dinky-admin/src/main/java/org/dinky/service/impl/TaskServiceImpl.java:233 | the report as written throws exactly for a non-empty error text made only of newlines |
| JobSubmission.BareNewlineThrows | dinky-admin/src/main/java/org/dinky/service/impl/TaskServiceImpl.java:233 | the error text "\n" makes the report as written throw |
| CatalogueWalker.FlattenListsEveryNode | dinky-admin/src/main/java/org/dinky/service/impl/TaskServiceImpl.java:1280-1293 | the pre-order id list names exactly the ids of the tree's nodes and has one entry per node |
| CatalogueWalker.ChildrenNodeParse | dinky-admin/src/main/java/org/dinky/service/impl/TaskServiceImpl.java:1280-1293 | the recursive walk appends the pre-order ids of the node's subtrees, children in order, to the given list |
| CatalogueWalker.ScopeIds | dinky-admin/src/main/java/org/dinky/service/impl/TaskServiceImpl.java:1254-1262 | the folder scope of the online-task query is the folder's id and then all its descendants': exactly the ids in its tree |
| CatalogueWalker.PrefixFuelIrrelevant | dinky-admin/src/main/java/org/dinky/service/impl/TaskServiceImpl.java:1205-1222 | once the parent walk ends, the folder prefix does not depend on the step bound |
| CatalogueWalker.TaskPath | dinky-admin/src/main/java/org/dinky/service/impl/TaskServiceImpl.java:1205-1222 | a task without a catalogue row has its name as path; otherwise the path is the folder names root first, each followed by "/", then the task's name |
| TaskServices.Edited | dinky-admin/src/main/java/org/dinky/service/impl/TaskServiceImpl.java:460-470 | an edited task is DEVELOP, takes the draft's name, dialect, type, strategy, path and options, keeps its version pointer and instance column; each nullable setting (checkpoint, parallelism, cluster, fragment, environment) takes the draft's value when given and keeps the stored one when null |
| TaskServices.Created | dinky-admin/src/main/java/org/dinky/service/impl/TaskServiceImpl.java:477-495 | a new task is CREATE, without version or instance, with checkpoint 0, parallelism 1 and cluster 0 where the draft has none, and the draft's name, dialect, type, strategy, path, fragment, environment and options |
| TaskServices.CheckJobInstanceId | dinky-admin/src/main/java/org/dinky/service/impl/TaskServiceImpl.java:791-793 | a task has a live job instance exactly when its job-instance column is non-zero; the guards that depend on it are stated by `TaskService.LiveInstanceId`, `OnLineTask` (refused with a live instance) and `ReOnLineTask` (stops a live instance first) |
| TaskServices.StopKind | dinky-admin/src/main/java/org/dinky/service/impl/TaskServiceImpl.java:825-827 | a null or empty stop kind becomes CANCEL; any other kind is passed on unchanged |
| TaskServices.Recorded | dinky-admin/src/main/java/org/dinky/service/impl/TaskServiceImpl.java:896-903 | one savepoint row per reported path, in order, named after the stop kind |
| TaskServices.StopThenRestartResumesFromIt | dinky-admin/src/main/java/org/dinky/service/impl/TaskServiceImpl.java:293-319 | after a stop that reports savepoints, a restart with a blank path resumes from the last reported savepoint |
| TaskServices.Submission | dinky-admin/src/main/java/org/dinky/service/impl/TaskServiceImpl.java:275-291 | a task run by a JDBC driver gets no job configuration; any other gets buildJobConfig's |
| TaskServices.ReOnlineOverride | dinky-admin/src/main/java/org/dinky/service/impl/TaskServiceImpl.java:803-806 | a non-blank path becomes the CUSTOM savepoint path; a blank one changes nothing; no other field changes |
| TaskServices.RestartOverride | dinky-admin/src/main/java/org/dinky/service/impl/TaskServiceImpl.java:304-310 | a blank path selects LATEST, a non-blank one CUSTOM with that path; no other field changes |
| TaskServices.GivenPathIsResumedFrom | dinky-admin/src/main/java/org/dinky/service/impl/TaskServiceImpl.java:796-818 | a re-online or restart with a non-blank path resumes from exactly that path in both places |
| TaskServices.TaskService.LiveInstanceId | dinky-admin/src/main/java/org/dinky/service/impl/TaskServiceImpl.java:409-414 | non-zero exactly when the task's latest instance exists, is not done, and has a non-zero id; then it is that instance's id |
| TaskServices.TaskService.Info | dinky-admin/src/main/java/org/dinky/service/impl/TaskServiceImpl.java:392-416 | the stored row with the live instance id (0 when none); checkJobInstanceId holds exactly when there is a live instance |
| TaskServices.TaskService.AfterStop | dinky-admin/src/main/java/org/dinky/service/impl/TaskServiceImpl.java:868-906 | without a live instance, for a "canceljob" stop, or when the engine reports no job information, the savepoint table is unchanged; otherwise the task's list gains one row per reported path after its stored ones; no other task's list changes |
| TaskServices.TaskService.SaveOrUpdateTask | dinky-admin/src/main/java/org/dinky/service/impl/TaskServiceImpl.java:460-496 | saving a missing task fails and saving a RELEASE, ONLINE or CANCEL task is refused, both without change; otherwise the task is overwritten as DEVELOP (null settings keep their stored values), with the statement when given; a new task is inserted under a fresh id with defaults and a statement row |
| TaskServices.TaskService.CreateTaskVersionSnapshot | dinky-admin/src/main/java/org/dinky/service/impl/TaskServiceImpl.java:681-715 | the task's log becomes the snapshot's log and the returned task carries the snapshot's pointer; a log numbered 1, 2, … stays so with the pointer inside it; no other table changes |
| TaskServices.TaskService.ReleaseTask | dinky-admin/src/main/java/org/dinky/service/impl/TaskServiceImpl.java:655-679 | a non-DEVELOP task succeeds unchanged; a failing explain result fails without change (except for Kubernetes applications); a DEVELOP task whose explain results all pass, or a Kubernetes application, is released: it becomes RELEASE with the snapshot's pointer and log; success implies every explain result passed |
| TaskServices.TaskService.RollbackTask | dinky-admin/src/main/java/org/dinky/service/impl/TaskServiceImpl.java:718-749 | a null id or version, a missing task, a locked step or a missing version each fail without change; otherwise the version is copied onto the task as ApplyVersion states (unset settings keep the task's values) and its statement replaces the task's; the version log never changes |
| TaskServices.TaskService.DevelopTask | dinky-admin/src/main/java/org/dinky/service/impl/TaskServiceImpl.java:752-760 | only RELEASE goes back to DEVELOP; any other step answers false unchanged |
| TaskServices.TaskService.OnLineTask | dinky-admin/src/main/java/org/dinky/service/impl/TaskServiceImpl.java:763-789 | only a RELEASE task without a live instance is submitted; a task that is not Flink SQL runs through the common-SQL path, whose result never carries a status, so it is always reported as an engine failure and stored unchanged; for the others, an engine success stores it ONLINE with the engine's instance id and records that instance as the task's live one, so the task reads back ONLINE with that id; a failure stores nothing; ONLINE and other steps are refused without submitting |
| TaskServices.TaskService.SavepointTask | dinky-admin/src/main/java/org/dinky/service/impl/TaskServiceImpl.java:868-915 | without a live instance the stop answers true and changes nothing; "canceljob" answers the cancel's outcome; any other kind appends one savepoint per reported path and answers whether job information came back |
| TaskServices.TaskService.ReOnLineTask | dinky-admin/src/main/java/org/dinky/service/impl/TaskServiceImpl.java:796-818 | no step guard; a live instance is stopped with CANCEL; the path override is submitted with the savepoints after the stop; a task that is not Flink SQL is always an engine failure, as its result carries no status; otherwise only an engine success stores the task ONLINE with the new instance id and records that instance as live |
| TaskServices.TaskService.OffLineTask | dinky-admin/src/main/java/org/dinky/service/impl/TaskServiceImpl.java:821-837 | the job is stopped with the requested kind (CANCEL by default); an ONLINE task goes back to RELEASE; every step succeeds |
| TaskServices.TaskService.CancelTask | dinky-admin/src/main/java/org/dinky/service/impl/TaskServiceImpl.java:840-855 | ONLINE and a live instance are refused without change; any other task becomes CANCEL |
| TaskServices.TaskService.RecoveryTask | dinky-admin/src/main/java/org/dinky/service/impl/TaskServiceImpl.java:858-866 | only CANCEL comes back as DEVELOP; any other step answers false unchanged |
| TaskServices.TaskService.RestartTask | dinky-admin/src/main/java/org/dinky/service/impl/TaskServiceImpl.java:293-319 | a live instance is stopped; a JDBC task is run unchanged; otherwise blank path means LATEST (not stored) and a non-blank path means CUSTOM (stored), and a successful submission records the new live instance; the step never changes |
| TaskServices.TaskService.SubmitTask | dinky-admin/src/main/java/org/dinky/service/impl/TaskServiceImpl.java:201-244 | nothing is stored; the configuration is buildJobConfig's for the task as read; error lines are logged only for a failed packaged-artifact job, and they are the intended error report |
| TaskServices.TaskService.ExportSql | dinky-admin/src/main/java/org/dinky/service/impl/TaskServiceImpl.java:603-627 | a JDBC task exports its statement; a packaged-artifact job exports ""; otherwise the engine's rendering; the configuration carries every sensitive variable hidden |
| TaskServices.TaskService.SelectSavepointOnLineTask | dinky-admin/src/main/java/org/dinky/service/impl/TaskServiceImpl.java:1296-1334 | the decision is SelectSavepointOnLine's; a running instance leaves everything unchanged; otherwise the task is re-onlined with the decided path, with reOnLineTask's full effect |

## Left out

- The execution engine, the JDBC drivers and the explain pass (`executeSql`, `executeJar`, `executeCommonSql`, `explainTask`, `exportSql` of the job manager, `cancel`, `savepoint`) are not modelled. Their answers are method parameters, and every possible answer is covered.
- Persistence writes are assumed to succeed. The "unknown reason" failure branches of release, online, re-online and cancel are not modelled.
- TaskServices.TaskService.SaveOrUpdateTask: the UDF branch (template expansion, compilation, the UDF code pool) is not modelled; it runs foreign compilers. The draft is assumed not to carry a version pointer or job-instance id.
- Edited: the draft's name, dialect, job type, savepoint strategy, savepoint path and options are always present. In the source a null one keeps the stored column on an update, and stores a null column on an insert; the model has no null for these fields.
- ApplyVersion: only the fragment flag and environment reference of a version can be unset. A version's other fields are never null in the model; in the source a null one would also keep the task's value.
- TaskServices.TaskService.SavepointTask: the engine is assumed to report only the job information of the stopped job. The cluster lookup, gateway configuration and job manager address are not modelled.
- TaskServices.TaskService.OnLineTask: the returned `JobResult` is the engine's parameter and is not restated. The process log of a successful submission is not modelled.
- TaskVersions.TakeSnapshot: version numbers are unbounded; a 32-bit overflow of the largest number plus one is not modelled. The row equality is assumed to cover exactly the captured fields (name, dialect, type, configuration, statement and version number).
- TakeSnapshot: a log without repeated version numbers is a precondition. The source builds its version map with `toMap`, which throws on a repeated number; the store invariant keeps logs numbered 1, 2, … and so rules that case out.
- TaskVersions.TakeSnapshot: a version pointer that names no stored version is a precondition. The source dereferences the lookup without a null check, and the store invariant rules that case out.
- CatalogueWalker.TaskPath: the walk is bounded by a ghost step count, and the precondition says the parent links end within it. On a cycle of parent links the source never stops; that case is not modelled.
- The catalogue tree itself (`queryAllCatalogue`, `dealWithCatalogue`) is built by a library; `childrenNodeParse` works on a tree datatype instead.
- The job-instance table holds only the latest instance of each task, as `getJobInstanceByTaskId` returns it. The engine's recording of the instance it starts is modelled for a successful online, re-online and restart submission: the new instance becomes the task's live one. The execution subsystem's other changes to the table are not modelled: status refreshes (a job finishing or failing), the instance of a failed submission, the effect of a stop, and the instance a `submitTask` call starts. Between calls the table is taken as it stands.
- The line separator is taken to be "\n". `isJarTask` is taken to mean the FlinkJar or Kubernetes-application dialect. Only the savepoint, statement, variable and option parts of the job configuration are modelled.
- The checkpoint history entries are assumed to carry their "id", "status" and "external_path" fields.
- `selectSavepointOffLineTask` is `offLineTask` with the CANCEL kind, and it is covered by `OffLineTask`.
- Task fields that no lifecycle rule reads are not modelled: note, cluster name, database id, alert group, tenant and timestamps.
- These operations are not modelled: JSON import and export, `initDefaultFlinkSQLEnv`, `statementEquals`, `buildParas`, the row-permission context, process logging other than the error lines, and the mapper aggregate queries (`getTaskOnlineRate`, `getJobStreamingOrBatchModelOverview`, `queryAllSizeByName`, the online-task query itself). Also left out are the UDF lookups, `listFlinkSQLEnv`, `getTaskByNameAndTenantId`, `checkJobStatus`, `initTenantByTaskId` and `getTaskAPIAddress`. They are persistence queries, library calls or configuration bootstrap.
- Concurrency: the service has no per-task locking, and the model is sequential.

## Findings

| source | as written | input that shows it | evidently intended | confidence | as-written member | corrected member |
|---|---|---|---|---|---|---|
| dinky-admin/src/main/java/org/dinky/service/impl/TaskServiceImpl.java:737-742 | a rollback copies the version onto a new, otherwise empty task row and updates by id, which skips null columns | a version stored without environment reference (or fragment flag), rolled back onto a task that has one: the task keeps its reference, so it no longer equals the version, and the next release appends a new version instead of pointing at the old one | a rollback restores the version's definition whole, so a release right after it appends nothing | not executed; rests on the update skipping null columns, the persistence layer's default, as the entity mapping is not part of this model | TaskVersions.RollbackOverSetEnvAppends | TaskVersions.RestoreThenReleaseAddsNothing |
| dinky-admin/src/main/java/org/dinky/service/impl/TaskServiceImpl.java:233 | a failed packaged-artifact job logs element 0 of its error text split on newlines | an engine error text of "\n" (or any non-empty text of newlines only): the split returns no lines, and taking element 0 throws an index-out-of-bounds exception while the failure is being reported | log the first line when there is one, then every "Caused by" line | not executed; follows from the split's documented removal of trailing empty strings | JobSubmission.SubmitErrorLogThrowsOnNewlinesOnly | JobSubmission.ErrorSummary |

`RollbackTask` follows the rollback as written (`ApplyVersion`), so that the
service's tables evolve as in the source; `RestoreVersion` is the intended
copy, and `RollbackThenReleaseAddsNothing` states exactly when the two agree.
`SubmitTask` follows the intended error report (`ErrorSummary`); the
as-written report, which throws on an error text of newlines only, is
`SubmitErrorLog`.

The engine's answer is one `succeeded` flag. `submitTask` tests the
result's success flag, while `onLineTask` and `reOnLineTask` test its status
for SUCCESS. The model reads the flag as that status for a Flink SQL or jar
run; the result class is not part of this model. A common-SQL (JDBC) run
sets only the flag and the error and never a status, so `OnLineTask` and
`ReOnLineTask` treat it as a failure whatever the flag says.
