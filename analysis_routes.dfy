/**
 * The analysis endpoints (server/routes/analysis.js). Neither is behind the
 * token check and neither takes a caller: the history lists every stored
 * result, and the manual trigger runs any task by id.
 */
module AnalysisRoutes {
  import opened Common
  import opened Sorting
  import opened TaskModel
  import opened ResultModel
  import opened Store
  import Scheduler
  import TaskRoutes

  // ---------------------------------------------------------------------
  // GET /api/analysis

  /** `Task.findById(id)`: the first stored task with that id. */
  function FindById(tasks: seq<Task>, id: nat): (r: Option<Task>)
    ensures r.Some? ==> r.value in tasks && r.value.id == id
    ensures r.None? <==> forall i :: 0 <= i < |tasks| ==> tasks[i].id != id
    decreases |tasks|
  {
    if tasks == [] then None
    else if tasks[0].id == id then Some(tasks[0])
    else
      var r := FindById(tasks[1..], id);
      assert forall i :: 1 <= i < |tasks| ==> tasks[i] == tasks[1..][i - 1];
      r
  }

  /** What `populate('taskId', 'topic')` puts in place of the reference. */
  datatype TaskRef = TaskRef(id: nat, topic: string)

  /** A listed result; `task` is `None` when the referenced task no longer exists. */
  datatype HistoryEntry = HistoryEntry(result: AnalysisResult, task: Option<TaskRef>)

  /** One result with its task reference resolved to the task's id and topic. */
  function Populate(tasks: seq<Task>, v: AnalysisResult): (e: HistoryEntry)
    ensures e.result == v
    ensures e.task.None? <==> forall i :: 0 <= i < |tasks| ==> tasks[i].id != v.taskId
    ensures e.task.Some? ==> exists t :: t in tasks && e.task.value == TaskRef(t.id, t.topic) && t.id == v.taskId
  {
    match FindById(tasks, v.taskId)
    case None => HistoryEntry(v, None)
    case Some(t) => HistoryEntry(v, Some(TaskRef(t.id, t.topic)))
  }

  function PopulateAll(tasks: seq<Task>, results: seq<AnalysisResult>): (r: seq<HistoryEntry>)
    ensures |r| == |results|
    ensures forall k :: 0 <= k < |results| ==> r[k] == Populate(tasks, results[k])
  {
    seq(|results|, k requires 0 <= k < |results| => Populate(tasks, results[k]))
  }

  function ResultsOf(entries: seq<HistoryEntry>): (r: seq<AnalysisResult>)
    ensures |r| == |entries|
    ensures forall k :: 0 <= k < |entries| ==> r[k] == entries[k].result
  {
    seq(|entries|, k requires 0 <= k < |entries| => entries[k].result)
  }

  function ResultTime(v: AnalysisResult): int
  {
    v.timestamp
  }

  function EntryTime(e: HistoryEntry): int
  {
    e.result.timestamp
  }

  /**
   * The history: every stored result, whoever it belongs to, newest first,
   * each with its task's id and topic attached.
   */
  function History(tasks: seq<Task>, results: seq<AnalysisResult>): (r: seq<HistoryEntry>)
    ensures |r| == |results|
    ensures multiset(ResultsOf(r)) == multiset(results)
    ensures SortedDesc(r, EntryTime)
    ensures forall k :: 0 <= k < |r| ==> r[k] == Populate(tasks, r[k].result)
  {
    var sorted := SortDesc(results, ResultTime);
    var r := PopulateAll(tasks, sorted);
    assert ResultsOf(r) == sorted;
    assert |sorted| == |multiset(sorted)| == |results|;
    forall i, j | 0 <= i < j < |r|
      ensures EntryTime(r[i]) >= EntryTime(r[j])
    {
      assert ResultTime(sorted[i]) >= ResultTime(sorted[j]);
    }
    r
  }

  /** Whoever asks, every stored result is listed, including other users' ones. */
  lemma HistoryListsEveryResult(tasks: seq<Task>, results: seq<AnalysisResult>, v: AnalysisResult)
    requires v in results
    ensures v in ResultsOf(History(tasks, results))
  {
    assert v in multiset(results);
  }

  /** Deleting a task keeps its results listed, with the task reference gone. */
  lemma HistoryAfterDelete(tasks: seq<Task>, results: seq<AnalysisResult>, i: nat, nextId: nat)
    requires TasksValid(tasks, nextId) && i < |tasks|
    ensures var h := History(TaskRoutes.Deleted(tasks, i), results);
      && |h| == |results|
      && forall k :: 0 <= k < |h| && h[k].result.taskId == tasks[i].id ==> h[k].task.None?
  {
    var rest := TaskRoutes.Deleted(tasks, i);
    TaskRoutes.DeletedGone(tasks, i, nextId);
    assert forall k :: 0 <= k < |rest| ==> rest[k] in rest;
  }

  // ---------------------------------------------------------------------
  // POST /api/analysis/:taskId/run

  /** 404 for an unknown id, 500 for a failed run, otherwise the saved result. */
  datatype RunResponse = TaskNotFound | ServerError(failure: Scheduler.Failure) | Ran(result: AnalysisResult)

  datatype ManualStep = ManualStep(response: RunResponse, after: Snapshot)

  /**
   * The manual trigger: 404 unless a task has that id; otherwise exactly the
   * scheduler's pipeline run, whatever the task's owner, active flag or last run.
   */
  function ManualRunSpec(svc: Scheduler.Services, s: Snapshot, taskId: nat, o: Scheduler.RunOracle, now: int): (r: ManualStep)
    ensures r.response == TaskNotFound <==> forall i :: 0 <= i < |s.tasks| ==> s.tasks[i].id != taskId
    ensures r.response == TaskNotFound ==> r.after == s
    ensures r.response != TaskNotFound ==>
      var step := Scheduler.Run(svc, s, FindById(s.tasks, taskId).value, o, now);
      && r.after == step.after
      && (step.outcome.Completed? <==> r.response.Ran?)
      && (r.response.Ran? ==> r.response.result == step.outcome.result)
      && (r.response.ServerError? ==> step.outcome == Scheduler.Failed(r.response.failure))
  {
    match FindById(s.tasks, taskId)
    case None => ManualStep(TaskNotFound, s)
    case Some(t) =>
      var step := Scheduler.Run(svc, s, t, o, now);
      match step.outcome
      case Completed(v) => ManualStep(Ran(v), step.after)
      case Failed(f) => ManualStep(ServerError(f), step.after)
  }

  /**
   * The manual trigger with the record as the source builds it (no owner, no
   * topic): every existing task is answered with 500 and nothing is stored.
   */
  function ManualRunAsWritten(svc: Scheduler.Services, s: Snapshot, taskId: nat, o: Scheduler.RunOracle, now: int): (r: ManualStep)
    ensures r.response == TaskNotFound <==> forall i :: 0 <= i < |s.tasks| ==> s.tasks[i].id != taskId
    ensures r.response != TaskNotFound ==> r.response.ServerError?
    ensures r.after == s
  {
    match FindById(s.tasks, taskId)
    case None => ManualStep(TaskNotFound, s)
    case Some(t) =>
      Scheduler.AsWrittenRunChangesNothing(svc, s, t, o, now);
      var step := Scheduler.RunAsWritten(svc, s, t, o, now);
      match step.outcome
      case Completed(v) => ManualStep(Ran(v), step.after)
      case Failed(f) => ManualStep(ServerError(f), step.after)
  }

  /** As written, a task whose analysis succeeds is refused for lacking its owner and topic. */
  lemma ManualRunAsWrittenRejects(svc: Scheduler.Services, s: Snapshot, i: nat, o: Scheduler.RunOracle, now: int)
    requires i < |s.tasks|
    requires Scheduler.Analysis(svc, FindById(s.tasks, s.tasks[i].id).value, o).Some?
    ensures var r := ManualRunAsWritten(svc, s, s.tasks[i].id, o, now).response;
      && r.ServerError? && r.failure.ResultRejected?
      && UserIdField in r.failure.fields && TopicField in r.failure.fields
  {
    Scheduler.AsWrittenRunChangesNothing(svc, s, FindById(s.tasks, s.tasks[i].id).value, o, now);
  }

  /** The manual trigger against the database, sharing the scheduler's run. */
  method ManualRun(db: Db, svc: Scheduler.Services, taskId: nat, o: Scheduler.RunOracle, now: int)
    returns (response: RunResponse)
    requires db.Valid()
    modifies db
    ensures db.Valid()
    ensures ManualStep(response, Snapshot(db.tasks, db.results)) ==
      ManualRunSpec(svc, old(Snapshot(db.tasks, db.results)), taskId, o, now)
    ensures db.users == old(db.users) && db.nextId == old(db.nextId)
  {
    var found := FindById(db.tasks, taskId);
    if found.None? {
      return TaskNotFound;
    }
    var outcome := Scheduler.ProcessTask(db, svc, found.value, o, now);
    match outcome
    case Completed(v) => response := Ran(v);
    case Failed(f) => response := ServerError(f);
  }

  /** A task has one position when ids are distinct. */
  lemma FindByDistinctId(tasks: seq<Task>, i: nat)
    requires i < |tasks|
    requires forall a, b :: 0 <= a < b < |tasks| ==> tasks[a].id != tasks[b].id
    ensures FindById(tasks, tasks[i].id) == Some(tasks[i])
  {
    var r := FindById(tasks, tasks[i].id);
    var k :| 0 <= k < |tasks| && tasks[k] == r.value;
    assert k == i;
  }

  /** Pausing a task does not stop the manual trigger: the reply is the same either way. */
  lemma ManualRunIgnoresActiveFlag(svc: Scheduler.Services, s: Snapshot, i: nat, o: Scheduler.RunOracle, now: int)
    requires i < |s.tasks|
    requires forall a, b :: 0 <= a < b < |s.tasks| ==> s.tasks[a].id != s.tasks[b].id
    ensures var paused := Snapshot(TaskRoutes.Toggled(s.tasks, i), s.results);
      ManualRunSpec(svc, paused, s.tasks[i].id, o, now).response == ManualRunSpec(svc, s, s.tasks[i].id, o, now).response
  {
    var toggled := TaskRoutes.Toggled(s.tasks, i);
    assert forall k :: 0 <= k < |toggled| ==> toggled[k].id == s.tasks[k].id;
    FindByDistinctId(s.tasks, i);
    FindByDistinctId(toggled, i);
    Scheduler.RunOutcomeReadsTaskKey(svc, Snapshot(toggled, s.results), s, toggled[i], s.tasks[i], o, now);
  }

  /** A successful manual run holds the task back from the scheduler for the next hour. */
  lemma ManualRunDefersSchedule(svc: Scheduler.Services, s: Snapshot, i: nat, o: Scheduler.RunOracle, now: int, later: int)
    requires i < |s.tasks| && later <= now + Scheduler.OneHour
    requires forall a, b :: 0 <= a < b < |s.tasks| ==> s.tasks[a].id != s.tasks[b].id
    requires ManualRunSpec(svc, s, s.tasks[i].id, o, now).response.Ran?
    ensures !Scheduler.Due(ManualRunSpec(svc, s, s.tasks[i].id, o, now).after.tasks[i], later)
  {
    FindByDistinctId(s.tasks, i);
    Scheduler.StampedNotDue(s.tasks, s.tasks[i].id, now, later, i);
  }
}
