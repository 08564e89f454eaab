/**
 * The records the task service works on: a task row, its lifecycle step,
 * its configuration, and the values the execution engine and the explain
 * pass hand back. Persistence rows are values; the service class in
 * task_service.dfy owns the maps that hold them.
 */
module TaskTypes {

  /** Java's nullable reference, as a value. */
  datatype Option<+T> = None | Some(value: T)

  /** A nullable column after an update by id: a given value replaces the
      stored one, a null one leaves it (the update skips null columns). */
  function Overwrite<T>(stored: Option<T>, given: Option<T>): (r: Option<T>)
    ensures given.Some? ==> r == given
    ensures given.None? ==> r == stored
  {
    if given.Some? then given else stored
  }

  /** JobLifeCycle: the lifecycle step stored on a task row. */
  datatype Step = Create | Develop | Release | Online | Cancel

  /** The steps in which saving and rolling back a task are refused. */
  predicate EditLocked(s: Step)
  {
    s == Release || s == Online || s == Cancel
  }

  /** The language or shape of a task's body. CommonSql stands for every
      dialect executed through a JDBC driver instead of Flink. */
  datatype Dialect =
    | FlinkSql
    | FlinkSqlEnv
    | FlinkJar
    | KubernetesApplication
    | Java
    | Scala
    | Python
    | CommonSql(name: string)

  /** Dialect.notFlinkSql: the task is run and explained by a JDBC driver. */
  predicate NotFlinkSql(d: Dialect)
  {
    d.CommonSql?
  }

  /** Task.isJarTask: a packaged-artifact job, whose statement is not SQL. */
  predicate IsJarTask(d: Dialect)
  {
    d == FlinkJar || d == KubernetesApplication
  }

  /** SavePointStrategy: where a submission resumes from. */
  datatype SavePointStrategy = NoSavepoint | Latest | Earliest | Custom

  /** What the engine answers when a running job is stopped: for a
      "canceljob" request whether the cancel went through, otherwise the
      savepoint paths it reports for the job (none when it reports no job
      information at all). */
  datatype StopReply = StopReply(cancelled: bool, paths: Option<seq<string>>)

  /** The configuration fields of a task that a version snapshot copies
      (TaskVersionConfigureDTO). */
  datatype TaskConfigure = TaskConfigure(
    checkPoint: int,
    parallelism: int,
    clusterId: int,
    savePointStrategy: SavePointStrategy,
    savePointPath: string,
    fragment: Option<bool>,
    envId: Option<int>,
    configJson: map<string, string>)

  /** A stored task row. The statement lives in its own table. */
  datatype Task = Task(
    name: string,
    dialect: Dialect,
    jobType: string,
    step: Step,
    configure: TaskConfigure,
    versionId: Option<int>,
    jobInstanceId: int)

  /** The latest job instance recorded for a task (owned by the execution
      subsystem; this service only reads it). */
  datatype JobInstance = JobInstance(id: int, done: bool)

  /** A stored savepoint of a task. */
  datatype Savepoint = Savepoint(name: string, path: string)

  /** What the execution engine reports for one submission. For a Flink
      SQL or jar run, `succeeded` stands both for the success flag and for
      a status equal to SUCCESS (the engine's result class is not part of
      this model, so the two are taken to agree). A common-SQL run sets
      only the flag and the error, never a status. */
  datatype JobResult = JobResult(succeeded: bool, jobInstanceId: int, error: Option<string>)

  /** One statement's verdict from the explain pass. */
  datatype ExplainResult = ExplainResult(parseTrue: bool, explainTrue: bool)

  /** Why an operation did not do what was asked. Some are returned as a
      failed Result in the source, some are thrown; none changes the task,
      statement, version or instance tables (a re-online whose submission
      fails has already recorded the savepoints of its stop). */
  datatype Error =
    | TaskNotFound                 // Assert.check / checkNull / dereference of a missing task
    | Locked(step: Step)           // save or rollback of a RELEASE, ONLINE or CANCEL task
    | BadRollbackRequest           // rollback with a null task id or version id
    | VersionNotFound              // rollback to a version the task does not have
    | CheckFailed                  // an explain result that does not parse or explain
    | ActiveInstance               // online or cancel while a job instance is live
    | AlreadyOnline                // online of an ONLINE task
    | NotReleased                  // online of a task that is neither RELEASE nor ONLINE
    | StillOnline                  // cancel of an ONLINE task
    | EngineFailure(error: Option<string>)

  /** The answer of a lifecycle operation: Ok(true) for Result.succeed or a
      true boolean, Ok(false) for a false boolean, Err for the rest. */
  datatype Reply = Ok(flag: bool) | Err(error: Error)
}
