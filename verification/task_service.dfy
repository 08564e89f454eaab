/**
 * The task service: the lifecycle transitions of a task (save, release,
 * rollback, develop, online, re-online, offline, cancel, recovery,
 * restart), the stop request sent for a task's live job, and the read-only
 * submit and export paths. The service owns the task, statement and
 * version stores. It reads the job-instance store and the savepoint store
 * of the execution subsystem; the engine records in the former the
 * instance a successful online, re-online or restart starts, and a stop
 * that reports savepoints appends to the latter.
 */
module TaskServices {
  import opened TaskTypes
  import opened JavaStrings
  import opened TaskVersions
  import opened SavepointResolver
  import opened JobSubmission

  /** SavePointType.CANCEL, the stop kind used by offline (by default),
      re-online and restart. */
  const CancelKind: string := "cancel"

  /** The stop kind that cancels the job instead of taking a savepoint. */
  const CancelJobKind: string := "canceljob"

  /** The task fields a save request carries. The three numeric settings,
      the fragment flag, the environment reference and the statement may be
      null; a null id asks for a new task. */
  datatype TaskDraft = TaskDraft(
    id: Option<int>,
    name: string,
    dialect: Dialect,
    jobType: string,
    checkPoint: Option<int>,
    parallelism: Option<int>,
    clusterId: Option<int>,
    savePointStrategy: SavePointStrategy,
    savePointPath: string,
    fragment: Option<bool>,
    envId: Option<int>,
    configJson: map<string, string>,
    statement: Option<string>)

  /** The row a save of an existing task leaves: the draft's fields, a
      null setting keeping the stored one (an update by id skips null
      columns), step DEVELOP, and the stored version pointer and job
      instance column, which the draft does not carry. */
  function Edited(stored: Task, d: TaskDraft): (t: Task)
    ensures t.step == Develop
    ensures t.versionId == stored.versionId && t.jobInstanceId == stored.jobInstanceId
    ensures t.name == d.name && t.dialect == d.dialect && t.jobType == d.jobType
    ensures t.configure.savePointStrategy == d.savePointStrategy && t.configure.savePointPath == d.savePointPath
      && t.configure.configJson == d.configJson
    ensures d.checkPoint.Some? ==> t.configure.checkPoint == d.checkPoint.value
    ensures d.checkPoint.None? ==> t.configure.checkPoint == stored.configure.checkPoint
    ensures d.parallelism.Some? ==> t.configure.parallelism == d.parallelism.value
    ensures d.parallelism.None? ==> t.configure.parallelism == stored.configure.parallelism
    ensures d.clusterId.Some? ==> t.configure.clusterId == d.clusterId.value
    ensures d.clusterId.None? ==> t.configure.clusterId == stored.configure.clusterId
    ensures d.fragment.Some? ==> t.configure.fragment == d.fragment
    ensures d.fragment.None? ==> t.configure.fragment == stored.configure.fragment
    ensures d.envId.Some? ==> t.configure.envId == d.envId
    ensures d.envId.None? ==> t.configure.envId == stored.configure.envId
  {
    Task(d.name, d.dialect, d.jobType, Develop,
         TaskConfigure(Overwrite(Some(stored.configure.checkPoint), d.checkPoint).value,
                       Overwrite(Some(stored.configure.parallelism), d.parallelism).value,
                       Overwrite(Some(stored.configure.clusterId), d.clusterId).value,
                       d.savePointStrategy, d.savePointPath,
                       Overwrite(stored.configure.fragment, d.fragment),
                       Overwrite(stored.configure.envId, d.envId), d.configJson),
         stored.versionId, stored.jobInstanceId)
  }

  /** The row a save of a new task inserts: step CREATE, checkpoint
      interval 0, parallelism 1 and cluster 0 where the draft has none, no
      version yet. */
  function Created(d: TaskDraft): (t: Task)
    ensures t.step == Create && t.versionId.None? && t.jobInstanceId == 0
    ensures t.configure.checkPoint == (if d.checkPoint.Some? then d.checkPoint.value else 0)
    ensures t.configure.parallelism == (if d.parallelism.Some? then d.parallelism.value else 1)
    ensures t.configure.clusterId == (if d.clusterId.Some? then d.clusterId.value else 0)
    ensures t.name == d.name && t.dialect == d.dialect && t.jobType == d.jobType
    ensures t.configure.savePointStrategy == d.savePointStrategy && t.configure.savePointPath == d.savePointPath
      && t.configure.fragment == d.fragment && t.configure.envId == d.envId && t.configure.configJson == d.configJson
  {
    Task(d.name, d.dialect, d.jobType, Create,
         TaskConfigure(Overwrite(Some(0), d.checkPoint).value, Overwrite(Some(1), d.parallelism).value,
                       Overwrite(Some(0), d.clusterId).value,
                       d.savePointStrategy, d.savePointPath, d.fragment, d.envId, d.configJson),
         None, 0)
  }

  /** checkJobInstanceId: the task carries a live job instance. */
  predicate CheckJobInstanceId(t: Task)
    ensures CheckJobInstanceId(t) ==> t.jobInstanceId != 0
    ensures t.jobInstanceId != 0 ==> CheckJobInstanceId(t)
  {
    t.jobInstanceId != 0
  }

  /** The stop kind offLineTask sends: a null or empty request means CANCEL. */
  function StopKind(kind: Option<string>): (k: string)
    ensures k == CancelKind <==> kind.None? || kind.value == "" || kind.value == CancelKind
    ensures kind.Some? && kind.value != "" ==> k == kind.value
  {
    if kind.None? || kind.value == "" then CancelKind else kind.value
  }

  /** The savepoint rows a stop records, one per reported path, named
      after the stop kind, in the order reported. */
  function Recorded(kind: string, paths: seq<string>): (r: seq<Savepoint>)
    ensures |r| == |paths|
    ensures forall i :: 0 <= i < |r| ==> r[i] == Savepoint(kind, paths[i])
  {
    seq(|paths|, i requires 0 <= i < |paths| => Savepoint(kind, paths[i]))
  }

  /** A stop that reports savepoints makes the last reported one the
      LATEST savepoint of the task: a restart with a blank path resumes
      from it. */
  lemma {:induction false} StopThenRestartResumesFromIt(id: int, t: Task, path: Option<string>, statement: string,
                                                        env: Environment, statements: map<int, string>,
                                                        stored: seq<Savepoint>, kind: string, paths: seq<string>)
    requires IsBlank(path) && paths != []
    ensures var c := BuildJobConfig(id, RestartOverride(t, path), statement, env, statements,
                                    stored + Recorded(kind, paths));
      c.savePointPath == paths[|paths| - 1] && c.configJson[SavepointKey] == paths[|paths| - 1]
  {
    var all := stored + Recorded(kind, paths);
    assert all[|all| - 1] == Recorded(kind, paths)[|paths| - 1];
    assert BuildSavepoint(Latest, t.configure.savePointPath, all) == Some(paths[|paths| - 1]);
  }

  /** The configuration a submission hands to the engine: none for a task
      run by a JDBC driver, otherwise buildJobConfig's. */
  function Submission(id: int, t: Task, statement: string, env: Environment, statements: map<int, string>,
                      stored: seq<Savepoint>): (c: Option<JobConfig>)
    ensures c.None? <==> NotFlinkSql(t.dialect)
    ensures c.Some? ==> c.value == BuildJobConfig(id, t, statement, env, statements, stored)
  {
    if NotFlinkSql(t.dialect) then None else Some(BuildJobConfig(id, t, statement, env, statements, stored))
  }

  /** reOnLineTask's strategy override: a non-blank path becomes the
      CUSTOM savepoint path; a blank one keeps the task's own strategy. */
  function ReOnlineOverride(t: Task, path: Option<string>): (r: Task)
    ensures IsBlank(path) ==> r == t
    ensures !IsBlank(path) ==> r.configure.savePointStrategy == Custom && r.configure.savePointPath == path.value
    ensures r.(configure := t.configure) == t
    ensures r.configure.(savePointStrategy := t.configure.savePointStrategy, savePointPath := t.configure.savePointPath)
      == t.configure
  {
    if IsBlank(path) then t
    else t.(configure := t.configure.(savePointStrategy := Custom, savePointPath := path.value))
  }

  /** restartTask's strategy override: a blank path resumes from the
      LATEST savepoint, a non-blank one from that path (CUSTOM). */
  function RestartOverride(t: Task, path: Option<string>): (r: Task)
    ensures IsBlank(path) ==> r.configure.savePointStrategy == Latest && r.configure.savePointPath == t.configure.savePointPath
    ensures !IsBlank(path) ==> r.configure.savePointStrategy == Custom && r.configure.savePointPath == path.value
    ensures r.(configure := t.configure) == t
    ensures r.configure.(savePointStrategy := t.configure.savePointStrategy, savePointPath := t.configure.savePointPath)
      == t.configure
  {
    if IsBlank(path) then t.(configure := t.configure.(savePointStrategy := Latest))
    else t.(configure := t.configure.(savePointStrategy := Custom, savePointPath := path.value))
  }

  /** A re-online or restart with a non-blank path resumes from exactly
      that path, whatever savepoints are stored. */
  lemma GivenPathIsResumedFrom(id: int, t: Task, path: Option<string>, statement: string, env: Environment,
                               statements: map<int, string>, stored: seq<Savepoint>)
    requires !IsBlank(path)
    ensures var c := BuildJobConfig(id, ReOnlineOverride(t, path), statement, env, statements, stored);
      c.savePointPath == path.value && c.configJson[SavepointKey] == path.value
    ensures var c := BuildJobConfig(id, RestartOverride(t, path), statement, env, statements, stored);
      c.savePointPath == path.value && c.configJson[SavepointKey] == path.value
  {
  }

  /** The version log of a task in a version table. */
  function LogOf(versions: map<int, seq<TaskVersion>>, id: int): seq<TaskVersion>
  {
    if id in versions then versions[id] else []
  }

  /** A task's version pointer and log agree: the log numbers its rows 1,
      2, ...; the pointer is empty exactly before the first release and
      then names a stored version. */
  predicate VersionsAgree(pointer: Option<int>, log: seq<TaskVersion>)
  {
    Gapless(log) && PointerValid(pointer, log)
  }

  /** The store invariant: every task has a statement row, version logs
      belong to tasks and agree with their pointers, and task ids lie below
      the next id. */
  ghost predicate StoresValid(tasks: map<int, Task>, statements: map<int, string>,
                              versions: map<int, seq<TaskVersion>>, instances: map<int, JobInstance>, nextId: int)
  {
    statements.Keys == tasks.Keys && versions.Keys <= tasks.Keys && 0 < nextId
    && (forall id :: id in tasks ==> 0 < id < nextId)
    && (forall id :: id in tasks ==> VersionsAgree(tasks[id].versionId, LogOf(versions, id)))
  }

  /** Overwriting a task row whose pointer agrees with the log (and
      possibly its log) keeps the invariant. */
  lemma SetTaskKeepsValid(tasks: map<int, Task>, statements: map<int, string>,
                          versions: map<int, seq<TaskVersion>>, instances: map<int, JobInstance>, nextId: int,
                          id: int, t: Task, log: seq<TaskVersion>)
    requires StoresValid(tasks, statements, versions, instances, nextId) && id in tasks
    requires VersionsAgree(t.versionId, log)
    ensures log == LogOf(versions, id) ==> StoresValid(tasks[id := t], statements, versions, instances, nextId)
    ensures StoresValid(tasks[id := t], statements, versions[id := log], instances, nextId)
  {
  }

  /** Overwriting a task's statement keeps the invariant. */
  lemma SetStatementKeepsValid(tasks: map<int, Task>, statements: map<int, string>,
                               versions: map<int, seq<TaskVersion>>, instances: map<int, JobInstance>, nextId: int,
                               id: int, s: string)
    requires StoresValid(tasks, statements, versions, instances, nextId) && id in tasks
    ensures StoresValid(tasks, statements[id := s], versions, instances, nextId)
  {
  }

  /** Inserting a task without a version under the next id keeps the
      invariant. */
  lemma InsertKeepsValid(tasks: map<int, Task>, statements: map<int, string>,
                         versions: map<int, seq<TaskVersion>>, instances: map<int, JobInstance>, nextId: int,
                         t: Task, s: string)
    requires StoresValid(tasks, statements, versions, instances, nextId) && t.versionId.None?
    ensures nextId !in tasks && nextId !in versions
    ensures StoresValid(tasks[nextId := t], statements[nextId := s], versions, instances, nextId + 1)
  {
  }

  class TaskService {
    /** The task table. */
    var tasks: map<int, Task>
    /** The statement table, keyed by task id. */
    var statements: map<int, string>
    /** The version table, one log per task, in insertion order. */
    var versions: map<int, seq<TaskVersion>>
    /** The latest job instance of each task (getJobInstanceByTaskId). */
    var instances: map<int, JobInstance>
    /** The savepoint table, one list per task, in creation order. */
    var savepoints: map<int, seq<Savepoint>>
    /** The id the next inserted task receives. */
    var nextId: int

    /** The store invariant holds for the service's tables. */
    ghost predicate Valid()
      reads this
    {
      StoresValid(tasks, statements, versions, instances, nextId)
    }

    /** The version log of a task. */
    function History(id: int): seq<TaskVersion>
      reads this
    {
      LogOf(versions, id)
    }

    /** The stored savepoints of a task. */
    function Stored(id: int): seq<Savepoint>
      reads this
    {
      if id in savepoints then savepoints[id] else []
    }

    /** The statement of a task. */
    function Statement(id: int): string
      reads this
    {
      if id in statements then statements[id] else ""
    }

    /** The latest job instance of a task, if any. */
    function InstanceOf(id: int): Option<JobInstance>
      reads this
    {
      if id in instances then Some(instances[id]) else None
    }

    /** The id of the task's job instance while it is not done, else 0. */
    function LiveInstanceId(id: int): (n: int)
      reads this
      ensures n != 0 <==> InstanceOf(id).Some? && !InstanceOf(id).value.done && InstanceOf(id).value.id != 0
      ensures n != 0 ==> n == InstanceOf(id).value.id
    {
      if id in instances && !instances[id].done then instances[id].id else 0
    }

    /** getTaskInfoById: the stored row with its job-instance column
        replaced by the live instance id (0 when there is none). */
    function Info(id: int): (t: Option<Task>)
      reads this
      ensures t.None? <==> id !in tasks
      ensures t.Some? ==> t.value == tasks[id].(jobInstanceId := LiveInstanceId(id))
      ensures t.Some? ==> (CheckJobInstanceId(t.value) <==> LiveInstanceId(id) != 0)
    {
      if id in tasks then Some(tasks[id].(jobInstanceId := LiveInstanceId(id))) else None
    }

    /** The savepoint table after a stop request of the given kind for the
        task: unchanged without a live instance, for a cancel, or when the
        engine reports no job information; otherwise the reported paths
        are appended to the task's savepoints. */
    function AfterStop(id: int, kind: string, stop: StopReply): (r: map<int, seq<Savepoint>>)
      reads this
      ensures LiveInstanceId(id) == 0 || kind == CancelJobKind || stop.paths.None? ==> r == savepoints
      ensures LiveInstanceId(id) != 0 && kind != CancelJobKind && stop.paths.Some? ==>
        r.Keys == savepoints.Keys + {id} && r[id] == Stored(id) + Recorded(kind, stop.paths.value)
        && |r[id]| == |Stored(id)| + |stop.paths.value|
      ensures forall k :: k in savepoints && k != id ==> k in r && r[k] == savepoints[k]
    {
      if LiveInstanceId(id) == 0 || kind == CancelJobKind || stop.paths.None? then savepoints
      else savepoints[id := Stored(id) + Recorded(kind, stop.paths.value)]
    }

    /** reOnLineTask's effect: a live instance is stopped with a CANCEL
        savepoint, the path override is applied, the task is submitted, and
        only an engine SUCCESS stores the task ONLINE with the new instance
        id. A task that is not Flink SQL runs through the common-SQL path,
        whose result never carries a status, so it is never put ONLINE. */
    twostate predicate ReOnLined(id: int, path: Option<string>, env: Environment, stop: StopReply, engine: JobResult,
                                 new r: Reply, new submitted: Option<JobConfig>)
      reads this
    {
      versions == old(versions) && statements == old(statements) && nextId == old(nextId)
      && (id !in old(tasks) ==>
            r == Err(TaskNotFound) && submitted.None? && tasks == old(tasks) && savepoints == old(savepoints)
            && instances == old(instances))
      && (id in old(tasks) ==>
            var t := ReOnlineOverride(old(Info(id)).value, path);
            savepoints == old(AfterStop(id, CancelKind, stop))
            && submitted == Submission(id, t, old(Statement(id)), env, old(statements), Stored(id))
            && (engine.succeeded && !NotFlinkSql(t.dialect) ==>
                  r == Ok(true) && tasks == old(tasks)[id := t.(step := Online, jobInstanceId := engine.jobInstanceId)]
                  && instances == old(instances)[id := JobInstance(engine.jobInstanceId, false)])
            && (!engine.succeeded || NotFlinkSql(t.dialect) ==>
                  r == Err(EngineFailure(engine.error)) && tasks == old(tasks) && instances == old(instances)))
    }

    constructor(instances: map<int, JobInstance>, savepoints: map<int, seq<Savepoint>>)
      ensures Valid()
      ensures tasks == map[] && statements == map[] && versions == map[] && nextId == 1
      ensures this.instances == instances && this.savepoints == savepoints
    {
      tasks := map[];
      statements := map[];
      versions := map[];
      this.instances := instances;
      this.savepoints := savepoints;
      nextId := 1;
    }

    /**
     * saveOrUpdateTask. An existing task that is RELEASE, ONLINE or
     * CANCEL is refused; otherwise it is overwritten from the draft and
     * becomes DEVELOP, and its statement is replaced when the draft has
     * one. A draft without id is inserted as a new CREATE task with the
     * defaults filled in and a statement row ("" when it has none).
     */
    method SaveOrUpdateTask(d: TaskDraft) returns (r: Reply, id: int)
      requires Valid()
      modifies this
      ensures Valid()
      ensures versions == old(versions) && instances == old(instances) && savepoints == old(savepoints)
      ensures d.id.Some? && d.id.value !in old(tasks) ==> r == Err(TaskNotFound) && unchanged(this)
      ensures d.id.Some? && d.id.value in old(tasks) && EditLocked(old(tasks)[d.id.value].step) ==>
        r == Err(Locked(old(tasks)[d.id.value].step)) && unchanged(this)
      ensures d.id.Some? && d.id.value in old(tasks) && !EditLocked(old(tasks)[d.id.value].step) ==>
        r == Ok(true) && id == d.id.value && nextId == old(nextId)
        && tasks == old(tasks)[id := Edited(old(tasks)[id], d)]
        && statements == (if d.statement.Some? then old(statements)[id := d.statement.value] else old(statements))
      ensures d.id.None? ==>
        r == Ok(true) && id == old(nextId) && id !in old(tasks) && nextId == old(nextId) + 1
        && tasks == old(tasks)[id := Created(d)]
        && statements == old(statements)[id := if d.statement.Some? then d.statement.value else ""]
    {
      if d.id.Some? {
        id := d.id.value;
        if id !in tasks {
          return Err(TaskNotFound), id;
        }
        var stored := tasks[id];
        if EditLocked(stored.step) {
          return Err(Locked(stored.step)), id;
        }
        SetTaskKeepsValid(tasks, statements, versions, instances, nextId, id, Edited(stored, d), History(id));
        tasks := tasks[id := Edited(stored, d)];
        if d.statement.Some? {
          SetStatementKeepsValid(tasks, statements, versions, instances, nextId, id, d.statement.value);
          statements := statements[id := d.statement.value];
        }
        r := Ok(true);
      } else {
        id := nextId;
        InsertKeepsValid(tasks, statements, versions, instances, nextId, Created(d), if d.statement.Some? then d.statement.value else "");
        nextId := nextId + 1;
        tasks := tasks[id := Created(d)];
        statements := statements[id := if d.statement.Some? then d.statement.value else ""];
        r := Ok(true);
      }
    }

    /**
     * createTaskVersionSnapshot: stores a snapshot of `t` and `statement`
     * in the task's version log as TakeSnapshot decides, and returns `t`
     * carrying the resulting version pointer. The pointer must name a
     * stored version: the source looks it up without a null check.
     */
    method CreateTaskVersionSnapshot(id: int, t: Task, statement: string) returns (nt: Task)
      requires id in tasks && UniqueIds(History(id))
      requires t.versionId.Some? ==> t.versionId.value in Ids(History(id))
      modifies this
      ensures var s := TakeSnapshot(old(History(id)), t.versionId, t, statement);
        nt == t.(versionId := Some(s.pointer)) && versions == old(versions)[id := s.log]
      ensures tasks == old(tasks) && statements == old(statements) && instances == old(instances)
      ensures savepoints == old(savepoints) && nextId == old(nextId)
      // a log numbered 1, 2, ... stays so, and the returned pointer names a stored version
      ensures VersionsAgree(t.versionId, old(History(id))) ==> VersionsAgree(nt.versionId, History(id))
    {
      if VersionsAgree(t.versionId, History(id)) {
        SnapshotKeepsLogGapless(History(id), t.versionId, t, statement);
      }
      var log := History(id);
      var pointer: int;
      if t.versionId.None? {
        pointer := 1;
        versions := versions[id := log + [Capture(t, statement, 1)]];
      } else {
        pointer := t.versionId.value;
        var version := Lookup(log, pointer);
        if version != Capture(t, statement, pointer) {
          pointer := MaxId(log) + 1;
          versions := versions[id := log + [Capture(t, statement, pointer)]];
        } else {
          versions := versions[id := log];
        }
      }
      nt := t.(versionId := Some(pointer));
    }

    /**
     * releaseTask. A task that is not DEVELOP is left alone and the call
     * succeeds. Unless the task is a Kubernetes application, one explain
     * result that does not parse or explain fails the release. Otherwise
     * the task becomes RELEASE with the pointer of a new or matching
     * version snapshot.
     */
    method ReleaseTask(id: int, explain: seq<ExplainResult>) returns (r: Reply)
      requires Valid()
      modifies this
      ensures Valid()
      ensures statements == old(statements) && instances == old(instances) && savepoints == old(savepoints)
      ensures nextId == old(nextId)
      ensures id !in old(tasks) ==> r == Err(TaskNotFound) && tasks == old(tasks) && versions == old(versions)
      ensures id in old(tasks) && old(tasks)[id].step != Develop ==>
        r == Ok(true) && tasks == old(tasks) && versions == old(versions)
      ensures id in old(tasks) && old(tasks)[id].step == Develop && old(tasks)[id].dialect != KubernetesApplication
              && (exists i :: 0 <= i < |explain| && !(explain[i].parseTrue && explain[i].explainTrue)) ==>
        r == Err(CheckFailed) && tasks == old(tasks) && versions == old(versions)
      ensures id in old(tasks) && old(tasks)[id].step == Develop && r.Ok? ==>
        var t := old(Info(id)).value.(step := Release);
        var s := TakeSnapshot(old(History(id)), t.versionId, t, old(Statement(id)));
        tasks == old(tasks)[id := t.(versionId := Some(s.pointer))] && versions == old(versions)[id := s.log]
      ensures r.Err? || id !in old(tasks) || old(tasks)[id].step != Develop || old(tasks)[id].dialect == KubernetesApplication
              || forall i :: 0 <= i < |explain| ==> explain[i].parseTrue && explain[i].explainTrue
      ensures id in old(tasks) && old(tasks)[id].step == Develop
              && (old(tasks)[id].dialect == KubernetesApplication
                  || forall i :: 0 <= i < |explain| ==> explain[i].parseTrue && explain[i].explainTrue) ==>
        r == Ok(true)
    {
      if id !in tasks {
        return Err(TaskNotFound);
      }
      var task := Info(id).value;
      if task.step != Develop {
        return Ok(true);
      }
      if task.dialect != KubernetesApplication {
        for i := 0 to |explain|
          invariant forall j :: 0 <= j < i ==> explain[j].parseTrue && explain[j].explainTrue
        {
          if !explain[i].parseTrue || !explain[i].explainTrue {
            return Err(CheckFailed);
          }
        }
      }
      task := task.(step := Release);
      SnapshotKeepsLogGapless(History(id), task.versionId, task, Statement(id));
      ghost var s := TakeSnapshot(History(id), task.versionId, task, Statement(id));
      SetTaskKeepsValid(tasks, statements, versions, instances, nextId, id, task.(versionId := Some(s.pointer)), s.log);
      var newTask := CreateTaskVersionSnapshot(id, task, statements[id]);
      tasks := tasks[id := newTask];
      r := Ok(true);
    }

    /**
     * rollbackTask. A request without task id or version id is refused,
     * and so is a task that is RELEASE, ONLINE or CANCEL. Otherwise the
     * chosen version's definition and statement are copied onto the task,
     * which becomes DEVELOP; the version log is never touched.
     */
    method RollbackTask(id: Option<int>, versionId: Option<int>) returns (r: Reply)
      requires Valid()
      modifies this
      ensures Valid()
      ensures versions == old(versions) && instances == old(instances) && savepoints == old(savepoints)
      ensures nextId == old(nextId)
      ensures id.None? || versionId.None? ==>
        r == Err(BadRollbackRequest) && tasks == old(tasks) && statements == old(statements)
      ensures id.Some? && versionId.Some? && id.value !in old(tasks) ==>
        r == Err(TaskNotFound) && tasks == old(tasks) && statements == old(statements)
      ensures id.Some? && versionId.Some? && id.value in old(tasks) && EditLocked(old(tasks)[id.value].step) ==>
        r == Err(Locked(old(tasks)[id.value].step)) && tasks == old(tasks) && statements == old(statements)
      ensures id.Some? && versionId.Some? && id.value in old(tasks) && !EditLocked(old(tasks)[id.value].step)
              && versionId.value !in Ids(old(History(id.value))) ==>
        r == Err(VersionNotFound) && tasks == old(tasks) && statements == old(statements)
      ensures id.Some? && versionId.Some? && id.value in old(tasks) && !EditLocked(old(tasks)[id.value].step)
              && versionId.value in Ids(old(History(id.value))) ==>
        var v := Lookup(old(History(id.value)), versionId.value);
        r == Ok(true) && tasks == old(tasks)[id.value := ApplyVersion(old(tasks)[id.value], v)]
        && statements == old(statements)[id.value := v.statement]
    {
      if id.None? || versionId.None? {
        return Err(BadRollbackRequest);
      }
      var taskId := id.value;
      if taskId !in tasks {
        return Err(TaskNotFound);
      }
      var step := tasks[taskId].step;
      if EditLocked(step) {
        return Err(Locked(step));
      }
      var log := History(taskId);
      if versionId.value !in Ids(log) {
        return Err(VersionNotFound);
      }
      var version := Lookup(log, versionId.value);
      SetTaskKeepsValid(tasks, statements, versions, instances, nextId, taskId, ApplyVersion(tasks[taskId], version), log);
      SetStatementKeepsValid(tasks[taskId := ApplyVersion(tasks[taskId], version)], statements, versions, instances, nextId,
                             taskId, version.statement);
      tasks := tasks[taskId := ApplyVersion(tasks[taskId], version)];
      statements := statements[taskId := version.statement];
      r := Ok(true);
    }

    /** developTask: only a RELEASE task goes back to DEVELOP; any other
        step answers false and changes nothing. */
    method DevelopTask(id: int) returns (r: Reply)
      requires Valid()
      modifies this
      ensures Valid()
      ensures versions == old(versions) && statements == old(statements) && instances == old(instances)
      ensures savepoints == old(savepoints) && nextId == old(nextId)
      ensures id !in old(tasks) ==> r == Err(TaskNotFound) && tasks == old(tasks)
      ensures id in old(tasks) && old(tasks)[id].step == Release ==>
        r == Ok(true) && tasks == old(tasks)[id := old(Info(id)).value.(step := Develop)]
      ensures id in old(tasks) && old(tasks)[id].step != Release ==> r == Ok(false) && tasks == old(tasks)
    {
      if id !in tasks {
        return Err(TaskNotFound);
      }
      var task := Info(id).value;
      if task.step == Release {
        SetTaskKeepsValid(tasks, statements, versions, instances, nextId, id, task.(step := Develop), History(id));
        tasks := tasks[id := task.(step := Develop)];
        return Ok(true);
      }
      r := Ok(false);
    }

    /**
     * onLineTask. Only a RELEASE task without a live instance is
     * submitted; an engine SUCCESS stores it ONLINE with the engine's
     * instance id, and the engine's new instance becomes the task's live
     * one; a failure stores nothing. A task that is not Flink SQL runs
     * through the common-SQL path, whose result never carries a status, so
     * it always counts as a failure. An ONLINE task, or one in any other
     * step, is refused without submitting.
     */
    method OnLineTask(id: int, env: Environment, engine: JobResult) returns (r: Reply, submitted: Option<JobConfig>)
      requires Valid()
      modifies this
      ensures Valid()
      ensures versions == old(versions) && statements == old(statements)
      ensures savepoints == old(savepoints) && nextId == old(nextId)
      ensures r == Ok(true) ==> instances == old(instances)[id := JobInstance(engine.jobInstanceId, false)]
      ensures r != Ok(true) ==> instances == old(instances)
      ensures id !in old(tasks) ==> r == Err(TaskNotFound) && submitted.None? && tasks == old(tasks)
      ensures id in old(tasks) ==>
        var t := old(Info(id)).value;
        (t.step == Release && CheckJobInstanceId(t) ==> r == Err(ActiveInstance) && submitted.None? && tasks == old(tasks))
        && (t.step == Release && !CheckJobInstanceId(t) ==>
              submitted == Submission(id, t.(step := Online), Statement(id), env, statements, Stored(id))
              && (engine.succeeded && !NotFlinkSql(t.dialect) ==>
                    r == Ok(true) && tasks == old(tasks)[id := t.(step := Online, jobInstanceId := engine.jobInstanceId)])
              && (!engine.succeeded || NotFlinkSql(t.dialect) ==>
                    r == Err(EngineFailure(engine.error)) && tasks == old(tasks)))
        && (t.step == Online ==> r == Err(AlreadyOnline) && submitted.None? && tasks == old(tasks))
        && (t.step != Release && t.step != Online ==> r == Err(NotReleased) && submitted.None? && tasks == old(tasks))
      ensures r == Ok(true) ==> id in old(tasks) && old(tasks)[id].step == Release && old(LiveInstanceId(id)) == 0
      ensures r == Ok(true) ==> !NotFlinkSql(old(tasks)[id].dialect)
      // afterwards the task reads back ONLINE with the new instance as its live job
      ensures r == Ok(true) ==>
        (Info(id).Some? && Info(id).value.step == Online && Info(id).value.jobInstanceId == engine.jobInstanceId)
    {
      submitted := None;
      if id !in tasks {
        return Err(TaskNotFound), None;
      }
      var task := Info(id).value;
      if task.step == Release {
        if CheckJobInstanceId(task) {
          return Err(ActiveInstance), None;
        }
        task := task.(step := Online);
        submitted := Submission(id, task, statements[id], env, statements, Stored(id));
        if engine.succeeded && !NotFlinkSql(task.dialect) {
          SetTaskKeepsValid(tasks, statements, versions, instances, nextId, id, task.(jobInstanceId := engine.jobInstanceId), History(id));
          tasks := tasks[id := task.(jobInstanceId := engine.jobInstanceId)];
          instances := instances[id := JobInstance(engine.jobInstanceId, false)];
          return Ok(true), submitted;
        }
        return Err(EngineFailure(engine.error)), submitted;
      }
      if task.step == Online {
        return Err(AlreadyOnline), None;
      }
      r := Err(NotReleased);
    }

    /**
     * savepointTask: the stop request for a task's job. Without a live
     * instance there is nothing to stop and the answer is true. A
     * "canceljob" request answers whether the cancel went through. Any
     * other kind takes savepoints: each reported path is recorded for the
     * task, and the answer is whether the engine reported any job
     * information.
     */
    method SavepointTask(id: int, kind: string, stop: StopReply) returns (r: Option<bool>)
      requires Valid()
      modifies this
      ensures Valid()
      ensures tasks == old(tasks) && statements == old(statements) && versions == old(versions)
      ensures instances == old(instances) && nextId == old(nextId)
      ensures id !in old(tasks) ==> r.None? && savepoints == old(savepoints)
      ensures id in old(tasks) ==> savepoints == old(AfterStop(id, kind, stop))
      ensures id in old(tasks) && old(LiveInstanceId(id)) == 0 ==> r == Some(true)
      ensures id in old(tasks) && old(LiveInstanceId(id)) != 0 && kind == CancelJobKind ==> r == Some(stop.cancelled)
      ensures id in old(tasks) && old(LiveInstanceId(id)) != 0 && kind != CancelJobKind ==> r == Some(stop.paths.Some?)
    {
      if id !in tasks {
        return None;
      }
      if LiveInstanceId(id) == 0 {
        return Some(true);
      }
      if kind == CancelJobKind {
        return Some(stop.cancelled);
      }
      if stop.paths.None? {
        return Some(false);
      }
      var paths := stop.paths.value;
      var added: seq<Savepoint> := [];
      for i := 0 to |paths|
        invariant added == Recorded(kind, paths[..i])
      {
        added := added + [Savepoint(kind, paths[i])];
      }
      assert paths[..|paths|] == paths;
      savepoints := savepoints[id := Stored(id) + added];
      r := Some(true);
    }

    /** reOnLineTask: no step guard; a live instance is stopped first, a
        non-blank path is submitted as the CUSTOM savepoint. */
    method ReOnLineTask(id: int, path: Option<string>, env: Environment, stop: StopReply, engine: JobResult)
      returns (r: Reply, submitted: Option<JobConfig>)
      requires Valid()
      modifies this
      ensures Valid()
      ensures ReOnLined(id, path, env, stop, engine, r, submitted)
    {
      if id !in tasks {
        return Err(TaskNotFound), None;
      }
      var task := Info(id).value;
      if CheckJobInstanceId(task) {
        var _ := SavepointTask(id, CancelKind, stop);
      }
      task := ReOnlineOverride(task, path);
      submitted := Submission(id, task, statements[id], env, statements, Stored(id));
      if engine.succeeded && !NotFlinkSql(task.dialect) {
        SetTaskKeepsValid(tasks, statements, versions, instances, nextId, id, task.(step := Online, jobInstanceId := engine.jobInstanceId), History(id));
        tasks := tasks[id := task.(step := Online, jobInstanceId := engine.jobInstanceId)];
        instances := instances[id := JobInstance(engine.jobInstanceId, false)];
        return Ok(true), submitted;
      }
      r := Err(EngineFailure(engine.error));
    }

    /** offLineTask: the job is stopped (CANCEL unless another kind is
        asked for); an ONLINE task goes back to RELEASE, any other step is
        left as it is. Both succeed. */
    method OffLineTask(id: int, kind: Option<string>, stop: StopReply) returns (r: Reply)
      requires Valid()
      modifies this
      ensures Valid()
      ensures versions == old(versions) && statements == old(statements) && instances == old(instances)
      ensures nextId == old(nextId)
      ensures id !in old(tasks) ==> r == Err(TaskNotFound) && tasks == old(tasks) && savepoints == old(savepoints)
      ensures id in old(tasks) ==>
        r == Ok(true) && savepoints == old(AfterStop(id, StopKind(kind), stop))
        && tasks == (if old(tasks)[id].step == Online then old(tasks)[id := old(Info(id)).value.(step := Release)]
                     else old(tasks))
    {
      if id !in tasks {
        return Err(TaskNotFound);
      }
      var task := Info(id).value;
      var _ := SavepointTask(id, StopKind(kind), stop);
      if task.step != Online {
        return Ok(true);
      }
      SetTaskKeepsValid(tasks, statements, versions, instances, nextId, id, task.(step := Release), History(id));
      tasks := tasks[id := task.(step := Release)];
      r := Ok(true);
    }

    /** cancelTask: an ONLINE task, or one with a live instance, is
        refused; any other becomes CANCEL. */
    method CancelTask(id: int) returns (r: Reply)
      requires Valid()
      modifies this
      ensures Valid()
      ensures versions == old(versions) && statements == old(statements) && instances == old(instances)
      ensures savepoints == old(savepoints) && nextId == old(nextId)
      ensures id !in old(tasks) ==> r == Err(TaskNotFound) && tasks == old(tasks)
      ensures id in old(tasks) ==>
        var t := old(Info(id)).value;
        (t.step == Online ==> r == Err(StillOnline) && tasks == old(tasks))
        && (t.step != Online && CheckJobInstanceId(t) ==> r == Err(ActiveInstance) && tasks == old(tasks))
        && (t.step != Online && !CheckJobInstanceId(t) ==> r == Ok(true) && tasks == old(tasks)[id := t.(step := Cancel)])
    {
      if id !in tasks {
        return Err(TaskNotFound);
      }
      var task := Info(id).value;
      if task.step != Online {
        if CheckJobInstanceId(task) {
          return Err(ActiveInstance);
        }
        SetTaskKeepsValid(tasks, statements, versions, instances, nextId, id, task.(step := Cancel), History(id));
        tasks := tasks[id := task.(step := Cancel)];
        return Ok(true);
      }
      r := Err(StillOnline);
    }

    /** recoveryTask: only a CANCEL task comes back, as DEVELOP; any other
        step answers false and changes nothing. */
    method RecoveryTask(id: int) returns (r: Reply)
      requires Valid()
      modifies this
      ensures Valid()
      ensures versions == old(versions) && statements == old(statements) && instances == old(instances)
      ensures savepoints == old(savepoints) && nextId == old(nextId)
      ensures id !in old(tasks) ==> r == Err(TaskNotFound) && tasks == old(tasks)
      ensures id in old(tasks) && old(tasks)[id].step == Cancel ==>
        r == Ok(true) && tasks == old(tasks)[id := old(Info(id)).value.(step := Develop)]
      ensures id in old(tasks) && old(tasks)[id].step != Cancel ==> r == Ok(false) && tasks == old(tasks)
    {
      if id !in tasks {
        return Err(TaskNotFound);
      }
      var task := Info(id).value;
      if task.step == Cancel {
        SetTaskKeepsValid(tasks, statements, versions, instances, nextId, id, task.(step := Develop), History(id));
        tasks := tasks[id := task.(step := Develop)];
        return Ok(true);
      }
      r := Ok(false);
    }

    /**
     * restartTask: a live instance is stopped first; a task run by a JDBC
     * driver is executed as is. Otherwise a blank path resumes from the
     * LATEST savepoint (not stored), a non-blank one from that path (stored
     * as the CUSTOM strategy). The step never changes; the engine's result
     * is the answer, and a job it starts becomes the task's live instance.
     */
    method RestartTask(id: int, path: Option<string>, env: Environment, stop: StopReply, engine: JobResult)
      returns (r: Option<JobResult>, submitted: Option<JobConfig>)
      requires Valid()
      modifies this
      ensures Valid()
      ensures versions == old(versions) && statements == old(statements) && nextId == old(nextId)
      ensures submitted.Some? && engine.succeeded ==>
        instances == old(instances)[id := JobInstance(engine.jobInstanceId, false)]
      ensures submitted.None? || !engine.succeeded ==> instances == old(instances)
      ensures id !in old(tasks) ==>
        r.None? && submitted.None? && tasks == old(tasks) && savepoints == old(savepoints)
      ensures id in old(tasks) ==>
        r == Some(engine) && savepoints == old(AfterStop(id, CancelKind, stop))
        && var t := old(Info(id)).value;
        (NotFlinkSql(t.dialect) ==> submitted.None? && tasks == old(tasks))
        && (!NotFlinkSql(t.dialect) ==>
              submitted == Submission(id, RestartOverride(t, path), old(Statement(id)), env, old(statements), Stored(id))
              && tasks == (if IsBlank(path) then old(tasks) else old(tasks)[id := RestartOverride(t, path)]))
    {
      if id !in tasks {
        return None, None;
      }
      var task := Info(id).value;
      if CheckJobInstanceId(task) {
        var _ := SavepointTask(id, CancelKind, stop);
      }
      if NotFlinkSql(task.dialect) {
        return Some(engine), None;
      }
      task := RestartOverride(task, path);
      if !IsBlank(path) {
        SetTaskKeepsValid(tasks, statements, versions, instances, nextId, id, task, History(id));
        tasks := tasks[id := task];
      }
      submitted := Submission(id, task, statements[id], env, statements, Stored(id));
      if engine.succeeded {
        instances := instances[id := JobInstance(engine.jobInstanceId, false)];
      }
      r := Some(engine);
    }

    /**
     * submitTask: a task run by a JDBC driver is executed as is;
     * otherwise the job configuration is built and submitted. When a
     * packaged-artifact job fails with an error text, the process log gets
     * the error's first line and its "Caused by" lines. Nothing is stored.
     */
    method SubmitTask(id: int, env: Environment, engine: JobResult)
      returns (r: Option<JobResult>, submitted: Option<JobConfig>, errorLog: seq<string>)
      requires Valid()
      ensures id !in tasks ==> r.None? && submitted.None? && errorLog == []
      ensures id in tasks ==>
        r == Some(engine) && submitted == Submission(id, Info(id).value, Statement(id), env, statements, Stored(id))
      ensures errorLog != [] ==> engine.error.Some? && errorLog == ErrorSummary(engine.error.value)
      ensures (id in tasks && !NotFlinkSql(tasks[id].dialect) && IsJarTask(tasks[id].dialect) && !engine.succeeded
               && engine.error.Some?) ==> errorLog == ErrorSummary(engine.error.value)
      ensures errorLog != [] ==> id in tasks && IsJarTask(tasks[id].dialect) && !engine.succeeded
    {
      errorLog := [];
      if id !in tasks {
        return None, None, [];
      }
      var task := Info(id).value;
      submitted := Submission(id, task, Statement(id), env, statements, Stored(id));
      if submitted.Some? && submitted.value.jarTask && !engine.succeeded && engine.error.Some? {
        errorLog := ErrorSummary(engine.error.value);
      }
      r := Some(engine);
    }

    /**
     * exportSql: a task run by a JDBC driver exports its statement; a
     * packaged-artifact job exports ""; any other exports what the engine
     * renders from the job configuration, in which every sensitive
     * variable's value has been replaced by the hidden marker.
     */
    method ExportSql(id: int, env: Environment, isSensitive: string -> bool, hidden: string, rendered: string)
      returns (r: Option<string>, config: Option<JobConfig>)
      requires Valid()
      ensures id !in tasks ==> r.None? && config.None?
      ensures id in tasks && NotFlinkSql(tasks[id].dialect) ==> r == Some(Statement(id)) && config.None?
      ensures id in tasks && !NotFlinkSql(tasks[id].dialect) ==>
        var built := Submission(id, Info(id).value, Statement(id), env, statements, Stored(id)).value;
        config == Some(built.(variables := Redacted(env.enabledVariables, isSensitive, hidden)))
        && r == Some(if IsJarTask(tasks[id].dialect) then "" else rendered)
      ensures config.Some? ==> forall k :: k in config.value.variables && isSensitive(k) ==> config.value.variables[k] == hidden
    {
      if id !in tasks {
        return None, None;
      }
      var task := Info(id).value;
      if NotFlinkSql(task.dialect) {
        return Some(Statement(id)), None;
      }
      var built := BuildJobConfig(id, task, Statement(id), env, statements, Stored(id));
      var variables := RedactVariables(Some(built.variables), isSensitive, hidden);
      config := Some(built.(variables := variables.value));
      r := if built.jarTask then Some("") else Some(rendered);
    }

    /**
     * selectSavepointOnLineTask: a task whose last instance is still
     * running is left alone; otherwise it is re-onlined, from the last
     * completed checkpoint of the instance's history when that is asked
     * for and there is a history, with its own savepoint configuration
     * otherwise.
     */
    method SelectSavepointOnLineTask(id: int, select: SavepointSelect, history: Option<seq<Checkpoint>>,
                                     env: Environment, stop: StopReply, engine: JobResult)
      returns (d: GoLive, r: Option<Reply>, submitted: Option<JobConfig>)
      requires Valid()
      modifies this
      ensures Valid()
      ensures d == old(SelectSavepointOnLine(InstanceOf(id), select, history))
      ensures d.NotDone? ==> r.None? && submitted.None? && unchanged(this)
      ensures d.ReOnline? ==> r.Some? && ReOnLined(id, d.savepointPath, env, stop, engine, r.value, submitted)
    {
      var instance := InstanceOf(id);
      if instance.None? {
        d := ReOnline(None);
      } else if !instance.value.done {
        return NotDone, None, None;
      } else if select.DefaultConfig? {
        d := ReOnline(None);
      } else if history.Some? && history.value != [] {
        var path := FindTheConditionSavePoint(history.value);
        d := ReOnline(path);
      } else {
        d := ReOnline(None);
      }
      var reply;
      reply, submitted := ReOnLineTask(id, d.savepointPath, env, stop, engine);
      r := Some(reply);
    }
  }
}
