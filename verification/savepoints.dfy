/**
 * Savepoint resolution: which stored savepoint a submission resumes from
 * (buildSavepoint), which entry of a job's checkpoint history a re-online
 * resumes from (findTheConditionSavePoint), and what
 * selectSavepointOnLineTask decides to do with a task's last instance.
 */
module SavepointResolver {
  import opened TaskTypes

  /**
   * buildSavepoint: the path a submission resumes from. LATEST and
   * EARLIEST look the task's stored savepoints up (creation order: the
   * newest is last), CUSTOM wraps the configured path without looking
   * anything up, any other strategy gives no savepoint.
   */
  function BuildSavepoint(strategy: SavePointStrategy, customPath: string, stored: seq<Savepoint>): (r: Option<string>)
    ensures strategy == Custom ==> r == Some(customPath)
    ensures strategy == NoSavepoint ==> r.None?
    ensures (strategy == Latest || strategy == Earliest) ==> (r.None? <==> stored == [])
    ensures strategy == Latest && r.Some? ==> r.value == stored[|stored| - 1].path
    ensures strategy == Earliest && r.Some? ==> r.value == stored[0].path
  {
    match strategy
    case Latest => if stored == [] then None else Some(stored[|stored| - 1].path)
    case Earliest => if stored == [] then None else Some(stored[0].path)
    case Custom => Some(customPath)
    case NoSavepoint => None
  }

  /** Storing one more savepoint makes it the LATEST one and leaves the
      EARLIEST one as it was. */
  lemma NewSavepointIsLatest(stored: seq<Savepoint>, s: Savepoint, customPath: string)
    ensures BuildSavepoint(Latest, customPath, stored + [s]) == Some(s.path)
    ensures stored != [] ==>
      BuildSavepoint(Earliest, customPath, stored + [s]) == BuildSavepoint(Earliest, customPath, stored)
  {
  }

  /** One entry of a job's checkpoint history ("id", "status",
      "external_path" of the JSON node). */
  datatype Checkpoint = Checkpoint(id: int, status: string, externalPath: string)

  const Completed: string := "COMPLETED"

  /**
   * The index findTheConditionSavePoint ends on after scanning the first
   * |h| entries: skip entries that are not COMPLETED, take the first
   * COMPLETED one, and move on to a later COMPLETED one only when its id is
   * strictly larger.
   */
  function Chosen(h: seq<Checkpoint>): (r: Option<nat>)
    ensures r.Some? ==> r.value < |h| && h[r.value].status == Completed
    decreases |h|
  {
    if h == [] then None
    else
      var prev := Chosen(h[..|h| - 1]);
      var last := h[|h| - 1];
      if last.status != Completed then prev
      else match prev
        case None => Some(|h| - 1)
        case Some(k) => if h[k].id < last.id then Some(|h| - 1) else prev
  }

  /** The path of the chosen entry, or none. */
  function ChosenPath(h: seq<Checkpoint>): Option<string>
  {
    match Chosen(h)
    case None => None
    case Some(k) => Some(h[k].externalPath)
  }

  /** The choice is the COMPLETED entry with the greatest id, the first
      such entry when several share it, and none only when no entry is
      COMPLETED. */
  lemma {:induction false} ChosenIsFirstGreatestCompleted(h: seq<Checkpoint>)
    ensures Chosen(h).None? <==> forall j :: 0 <= j < |h| ==> h[j].status != Completed
    ensures Chosen(h).Some? ==> forall j :: 0 <= j < |h| && h[j].status == Completed ==>
      h[j].id <= h[Chosen(h).value].id
    ensures Chosen(h).Some? ==> forall j :: 0 <= j < Chosen(h).value && h[j].status == Completed ==>
      h[j].id < h[Chosen(h).value].id
    decreases |h|
  {
    if h != [] {
      var init := h[..|h| - 1];
      ChosenIsFirstGreatestCompleted(init);
      assert forall j :: 0 <= j < |init| ==> init[j] == h[j];
    }
  }

  /** The example history FAILED 1, COMPLETED 2 "A", COMPLETED 3 "B" resumes from "B". */
  lemma HistoryExample()
    ensures ChosenPath([Checkpoint(1, "FAILED", "X"), Checkpoint(2, Completed, "A"), Checkpoint(3, Completed, "B")])
      == Some("B")
  {
  }

  /** A tie on the greatest id goes to the earlier entry. */
  lemma TieExample()
    ensures ChosenPath([Checkpoint(5, Completed, "A"), Checkpoint(5, Completed, "B")]) == Some("A")
  {
    ChosenIsFirstGreatestCompleted([Checkpoint(5, Completed, "A"), Checkpoint(5, Completed, "B")]);
  }

  /** findTheConditionSavePoint: one pass over the history with the best
      COMPLETED entry seen so far. */
  method FindTheConditionSavePoint(history: seq<Checkpoint>) returns (path: Option<string>)
    ensures path == ChosenPath(history)
    ensures path.Some? <==> exists j :: 0 <= j < |history| && history[j].status == Completed
  {
    var latest: Option<Checkpoint> := None;
    for i := 0 to |history|
      invariant latest == match Chosen(history[..i]) case None => None case Some(k) => Some(history[k])
    {
      assert history[..i + 1][..i] == history[..i];
      var item := history[i];
      if item.status != Completed {
        continue;
      }
      if latest.None? {
        latest := Some(item);
        continue;
      }
      if latest.value.id < item.id {
        latest := Some(item);
      }
    }
    assert history[..|history|] == history;
    path := if latest.None? then None else Some(latest.value.externalPath);
    ChosenIsFirstGreatestCompleted(history);
  }

  /** TaskOperatingSavepointSelect: resume with the task's own savepoint
      configuration, or from the last completed checkpoint. */
  datatype SavepointSelect = DefaultConfig | LatestCheckpoint

  /** What selectSavepointOnLineTask does: leave a task whose last
      instance is still running alone (TASK_STATUS_NO_DONE), or re-online it
      with the given savepoint path (none keeps the task's strategy). */
  datatype GoLive = NotDone | ReOnline(savepointPath: Option<string>)

  /**
   * selectSavepointOnLineTask. `history` is the job history of the last
   * instance: none when there is no history record, otherwise its
   * checkpoint "history" array (empty when absent).
   */
  function SelectSavepointOnLine(instance: Option<JobInstance>, select: SavepointSelect, history: Option<seq<Checkpoint>>): (d: GoLive)
    ensures d.NotDone? <==> instance.Some? && !instance.value.done
    ensures d.ReOnline? && d.savepointPath.Some? ==>
      instance.Some? && select.LatestCheckpoint? && history.Some?
      && d.savepointPath == ChosenPath(history.value)
    ensures (instance.Some? && instance.value.done && select.LatestCheckpoint? && history.Some?
             && exists j :: 0 <= j < |history.value| && history.value[j].status == Completed)
      ==> d.ReOnline? && d.savepointPath.Some?
  {
    ChosenIsFirstGreatestCompleted(if history.Some? then history.value else []);
    if instance.None? then ReOnline(None)
    else if !instance.value.done then NotDone
    else if select.DefaultConfig? then ReOnline(None)
    else if history.None? || history.value == [] then ReOnline(None)
    else ReOnline(ChosenPath(history.value))
  }
}
