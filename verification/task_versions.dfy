/**
 * The version snapshot store: an append-only log of a task's released
 * definitions (TaskVersion rows of one task, in insertion order), the
 * decision createTaskVersionSnapshot takes on release, and the copy that
 * rollbackTask makes from a stored version back onto the live task.
 */
module TaskVersions {
  import opened TaskTypes

  /** TaskVersion: a released copy of a task's definition and statement.
      The row id is always null when rows are compared, and the task id is
      the same for every row of one log, so neither is kept here. */
  datatype TaskVersion = TaskVersion(
    versionId: int,
    name: string,
    dialect: Dialect,
    jobType: string,
    statement: string,
    configure: TaskConfigure)

  /** The snapshot built from a task by copying its properties; the
      version number is the one the caller puts in (the task's own pointer
      when the snapshot is compared with the stored version). */
  function Capture(t: Task, statement: string, versionId: int): (v: TaskVersion)
    ensures v.versionId == versionId && v.statement == statement
    ensures v.name == t.name && v.dialect == t.dialect && v.jobType == t.jobType && v.configure == t.configure
  {
    TaskVersion(versionId, t.name, t.dialect, t.jobType, statement, t.configure)
  }

  /** The version numbers present in a log. */
  function Ids(log: seq<TaskVersion>): set<int>
  {
    set v | v in log :: v.versionId
  }

  /** No two rows of a log share a version number (otherwise the
      version-number map built from the log throws). */
  predicate UniqueIds(log: seq<TaskVersion>)
  {
    forall i, j :: 0 <= i < j < |log| ==> log[i].versionId != log[j].versionId
  }

  /** The log numbers its rows 1, 2, 3, ... in insertion order. */
  predicate Gapless(log: seq<TaskVersion>)
  {
    forall i :: 0 <= i < |log| ==> log[i].versionId == i + 1
  }

  /** The task's version pointer and its log agree: no pointer before the
      first release, afterwards a pointer to a stored row. */
  predicate PointerValid(pointer: Option<int>, log: seq<TaskVersion>)
  {
    (pointer.None? <==> log == []) && (pointer.Some? ==> pointer.value in Ids(log))
  }

  /** versionMap.get(v): the row with version number v. */
  function Lookup(log: seq<TaskVersion>, v: int): (r: TaskVersion)
    requires v in Ids(log)
    ensures r in log && r.versionId == v
  {
    if log[0].versionId == v then log[0] else Lookup(log[1..], v)
  }

  /** Collections.max over the version numbers of a non-empty log. */
  function MaxId(log: seq<TaskVersion>): (m: int)
    requires log != []
    ensures m in Ids(log)
    ensures forall x :: x in Ids(log) ==> x <= m
  {
    if |log| == 1 then log[0].versionId
    else
      var m := MaxId(log[..|log| - 1]);
      assert log == log[..|log| - 1] + [log[|log| - 1]];
      assert Ids(log) == Ids(log[..|log| - 1]) + {log[|log| - 1].versionId};
      if m < log[|log| - 1].versionId then log[|log| - 1].versionId else m
  }

  /** The outcome of createTaskVersionSnapshot: the task's new version
      pointer and the task's log afterwards. */
  datatype Snapshot = Snapshot(pointer: int, log: seq<TaskVersion>)

  /**
   * createTaskVersionSnapshot. Without a pointer the snapshot is stored as
   * version 1. With a pointer, the snapshot (carrying the pointer as its
   * version number) is compared with the stored row of that number: equal
   * means nothing is stored and the pointer stays; different means the
   * snapshot is stored as the largest number plus one.
   */
  function TakeSnapshot(log: seq<TaskVersion>, pointer: Option<int>, t: Task, statement: string): (r: Snapshot)
    requires UniqueIds(log)
    requires pointer.Some? ==> pointer.value in Ids(log)
    // stored rows are never changed and at most one row is appended, holding the task's definition
    ensures r.log == log || r.log == log + [Capture(t, statement, r.pointer)]
    // nothing is appended exactly when the pointed-to row already equals the task
    ensures r.log == log <==> pointer.Some? && Lookup(log, pointer.value) == Capture(t, statement, pointer.value)
    ensures r.log == log ==> pointer == Some(r.pointer)
    // a first release is version 1; a later new version is numbered above every stored one
    ensures pointer.None? ==> r.pointer == 1
    ensures pointer.Some? && r.log != log ==> r.pointer == MaxId(log) + 1
    ensures pointer.Some? && r.log != log ==> forall x :: x in Ids(log) ==> x < r.pointer
  {
    match pointer
    case None => Snapshot(1, log + [Capture(t, statement, 1)])
    case Some(p) =>
      if Lookup(log, p) == Capture(t, statement, p) then Snapshot(p, log)
      else
        var n := MaxId(log) + 1;
        Snapshot(n, log + [Capture(t, statement, n)])
  }

  /**
   * rollbackTask's copy: the version's name, dialect, type, configuration
   * and version number are written onto the task by an update by id, and
   * the step becomes DEVELOP. The update skips null columns, so a fragment
   * flag or environment reference the version does not set keeps the
   * task's value, and the job-instance column, which a version does not
   * carry, stays.
   */
  function ApplyVersion(t: Task, v: TaskVersion): (r: Task)
    ensures Capture(r, v.statement, v.versionId)
      == v.(configure := v.configure.(fragment := r.configure.fragment, envId := r.configure.envId))
    ensures v.configure.fragment.Some? ==> r.configure.fragment == v.configure.fragment
    ensures v.configure.fragment.None? ==> r.configure.fragment == t.configure.fragment
    ensures v.configure.envId.Some? ==> r.configure.envId == v.configure.envId
    ensures v.configure.envId.None? ==> r.configure.envId == t.configure.envId
    ensures r.step == Develop && r.versionId == Some(v.versionId)
    ensures r.jobInstanceId == t.jobInstanceId
  {
    var c := v.configure.(fragment := Overwrite(t.configure.fragment, v.configure.fragment),
                          envId := Overwrite(t.configure.envId, v.configure.envId));
    Task(v.name, v.dialect, v.jobType, Develop, c, Some(v.versionId), t.jobInstanceId)
  }

  /** The version's unset optional settings are unset on the task too, so
      the rollback leaves none of the task's own values behind. */
  predicate UnsetAlike(t: Task, v: TaskVersion)
  {
    (v.configure.fragment.Some? || t.configure.fragment.None?)
    && (v.configure.envId.Some? || t.configure.envId.None?)
  }

  /** The version a rollback should restore: its configuration written
      whole, unset settings included; otherwise as ApplyVersion. */
  function RestoreVersion(t: Task, v: TaskVersion): (r: Task)
    ensures Capture(r, v.statement, v.versionId) == v
    ensures r.step == Develop && r.versionId == Some(v.versionId)
    ensures r.jobInstanceId == t.jobInstanceId
  {
    Task(v.name, v.dialect, v.jobType, Develop, v.configure, Some(v.versionId), t.jobInstanceId)
  }

  /** In a log without repeated numbers, looking a row's number up finds that row. */
  lemma {:induction false} LookupFinds(log: seq<TaskVersion>, i: int)
    requires UniqueIds(log) && 0 <= i < |log|
    ensures log[i].versionId in Ids(log) && Lookup(log, log[i].versionId) == log[i]
  {
    assert log[i] in log;
    if i > 0 {
      assert log[0].versionId != log[i].versionId;
      assert log[1..][i - 1] == log[i];
      LookupFinds(log[1..], i - 1);
    }
  }

  /** A gapless log's largest number is its length. */
  lemma {:induction false} GaplessMax(log: seq<TaskVersion>)
    requires Gapless(log) && log != []
    ensures MaxId(log) == |log|
    ensures forall x :: x in Ids(log) ==> 1 <= x <= |log|
  {
    forall x | x in Ids(log) ensures 1 <= x <= |log| {
      var v :| v in log && v.versionId == x;
      var i :| 0 <= i < |log| && log[i] == v;
    }
    assert log[|log| - 1].versionId == |log|;
    assert log[|log| - 1] in log;
  }

  /** Gapless logs have no repeated numbers. */
  lemma GaplessUnique(log: seq<TaskVersion>)
    requires Gapless(log)
    ensures UniqueIds(log)
  {
  }

  /** A snapshot keeps the store's invariant: a gapless log and a pointer
      into it. So version numbers run 1, 2, ... without gaps. */
  lemma {:induction false} SnapshotKeepsLogGapless(log: seq<TaskVersion>, pointer: Option<int>, t: Task, statement: string)
    requires Gapless(log) && PointerValid(pointer, log)
    ensures UniqueIds(log)
    ensures var r := TakeSnapshot(log, pointer, t, statement);
      Gapless(r.log) && PointerValid(Some(r.pointer), r.log)
  {
    GaplessUnique(log);
    var r := TakeSnapshot(log, pointer, t, statement);
    if r.log == log {
      assert pointer == Some(r.pointer);
    } else {
      if pointer.Some? {
        GaplessMax(log);
      }
      assert r.pointer == |log| + 1;
      assert r.log[|log|] in r.log;
    }
  }

  /** Releasing twice without changing the task stores one version, not
      two: the second snapshot finds the first one equal and keeps the log
      and the pointer. */
  lemma {:induction false} ReleaseIdempotent(log: seq<TaskVersion>, pointer: Option<int>, t: Task, statement: string)
    requires Gapless(log) && PointerValid(pointer, log)
    ensures UniqueIds(log)
    ensures var r1 := TakeSnapshot(log, pointer, t, statement);
      UniqueIds(r1.log) && r1.pointer in Ids(r1.log)
      && TakeSnapshot(r1.log, Some(r1.pointer), t, statement) == r1
  {
    GaplessUnique(log);
    var r1 := TakeSnapshot(log, pointer, t, statement);
    SnapshotKeepsLogGapless(log, pointer, t, statement);
    GaplessUnique(r1.log);
    if r1.log == log {
      assert Lookup(log, r1.pointer) == Capture(t, statement, r1.pointer);
    } else {
      assert r1.log[|log|] == Capture(t, statement, r1.pointer);
      LookupFinds(r1.log, |log|);
    }
  }

  /** Rolling back to a stored version and releasing again stores
      nothing exactly when the version's unset settings are unset on the
      task as well; otherwise the task keeps a setting the version lacks
      and the release appends a new version. */
  lemma {:induction false} RollbackThenReleaseAddsNothing(log: seq<TaskVersion>, i: int, t: Task)
    requires UniqueIds(log) && 0 <= i < |log|
    ensures log[i].versionId in Ids(log)
    ensures var back := ApplyVersion(t, log[i]);
      var r := TakeSnapshot(log, back.versionId, back, log[i].statement);
      (r.log == log <==> UnsetAlike(t, log[i]))
      && (UnsetAlike(t, log[i]) ==> r == Snapshot(log[i].versionId, log))
  {
    LookupFinds(log, i);
    var v := log[i];
    var back := ApplyVersion(t, v);
    if !UnsetAlike(t, v) {
      assert Capture(back, v.statement, v.versionId).configure != v.configure;
    }
  }

  /** The rollback as written, on a concrete case: a version stored
      without environment reference, rolled back onto a task that has one,
      is followed by a release that appends version 2. */
  lemma RollbackOverSetEnvAppends()
    ensures var conf := TaskConfigure(0, 1, 0, NoSavepoint, "", None, None, map[]);
      var v := TaskVersion(1, "job", FlinkSql, "local", "select 1", conf);
      var t := Task("job", FlinkSql, "local", Develop, conf.(envId := Some(5)), Some(1), 0);
      var back := ApplyVersion(t, v);
      back.configure.envId == Some(5)
      && TakeSnapshot([v], back.versionId, back, v.statement).log == [v, Capture(back, v.statement, 2)]
  {
    var conf := TaskConfigure(0, 1, 0, NoSavepoint, "", None, None, map[]);
    var v := TaskVersion(1, "job", FlinkSql, "local", "select 1", conf);
    var t := Task("job", FlinkSql, "local", Develop, conf.(envId := Some(5)), Some(1), 0);
    RollbackThenReleaseAddsNothing([v], 0, t);
    assert MaxId([v]) == 1;
  }

  /** The rollback as intended: restoring a stored version and releasing
      again stores nothing and points at that version, whatever the task
      held before. */
  lemma {:induction false} RestoreThenReleaseAddsNothing(log: seq<TaskVersion>, i: int, t: Task)
    requires UniqueIds(log) && 0 <= i < |log|
    ensures log[i].versionId in Ids(log)
    ensures var back := RestoreVersion(t, log[i]);
      TakeSnapshot(log, back.versionId, back, log[i].statement) == Snapshot(log[i].versionId, log)
  {
    LookupFinds(log, i);
  }
}
