/**
 * The background pipeline (server/services/scheduler.js): once a minute the
 * scheduler selects the due tasks and, for each, fetches news, analyses it,
 * stores one AnalysisResult and stamps the task's `lastRun`. The same
 * per-task pipeline serves the manual run of server/routes/analysis.js.
 */
module Scheduler {
  import opened Common
  import opened JsString
  import opened TaskModel
  import opened ResultModel
  import opened AiService
  import opened NewsService
  import opened Store

  /** One hour in milliseconds: the only cadence the scheduler honours. */
  const OneHour: int := 60 * 60 * 1000

  /** The selection: an active task that never ran or last ran more than an hour before `now`. */
  predicate Due(t: Task, now: int)
    ensures Due(t, now) ==> t.isActive
    ensures t.isActive && t.lastRun.None? ==> Due(t, now)
    ensures t.lastRun.Some? && now - t.lastRun.value <= OneHour ==> !Due(t, now)
  {
    t.isActive && (t.lastRun.None? || t.lastRun.value < now - OneHour)
  }

  /** `Task.find(...)` with the selection above, in store order. */
  function DueTasks(tasks: seq<Task>, now: int): (r: seq<Task>)
    ensures forall t :: t in r <==> t in tasks && Due(t, now)
    ensures |r| <= |tasks|
    decreases |tasks|
  {
    if tasks == [] then []
    else (if Due(tasks[0], now) then [tasks[0]] else []) + DueTasks(tasks[1..], now)
  }

  /** Each due task is selected as many times as it is stored, and no other task is selected. */
  lemma {:induction false} DueTasksCounts(tasks: seq<Task>, now: int)
    ensures forall t :: multiset(DueTasks(tasks, now))[t] == if Due(t, now) then multiset(tasks)[t] else 0
    decreases |tasks|
  {
    if tasks != [] {
      assert tasks == [tasks[0]] + tasks[1..];
      DueTasksCounts(tasks[1..], now);
    }
  }

  /** Selection distributes over concatenation, so the selected tasks keep their store order. */
  lemma {:induction false} DueTasksAppend(a: seq<Task>, b: seq<Task>, now: int)
    ensures DueTasks(a + b, now) == DueTasks(a, now) + DueTasks(b, now)
    decreases |a|
  {
    if a == [] {
      assert a + b == b;
    } else {
      var head := if Due(a[0], now) then [a[0]] else [];
      assert (a + b)[0] == a[0];
      assert (a + b)[1..] == a[1..] + b;
      assert DueTasks(a + b, now) == head + DueTasks(a[1..] + b, now);
      DueTasksAppend(a[1..], b, now);
      assert DueTasks(a, now) == head + DueTasks(a[1..], now);
    }
  }

  /** A stamped task is due again exactly when it is active and more than an hour has passed. */
  lemma StampedDueAgain(t: Task, stamp: int, now: int)
    ensures Due(t.(lastRun := Some(stamp)), now) <==> t.isActive && now - OneHour > stamp
  {
  }

  /** A freshly created task is due at once, whatever the clock says. */
  lemma NewTaskIsDue(input: TaskInput, id: nat, created: int, now: int)
    requires NewTask(input, id, created).Ok?
    ensures Due(NewTask(input, id, created).value, now)
  {
  }

  /** The stored cron expression plays no part in the selection. */
  lemma FrequencyIgnored(t: Task, f: string, now: int)
    ensures Due(t.(frequency := f), now) == Due(t, now)
  {
  }

  /** The configuration the services read at start-up. */
  datatype Services = Services(ai: AiConfig, newsKey: Option<string>)

  /**
   * Everything outside the model one pipeline run depends on: the news
   * endpoint, the analysis vendors, and whether each of the two saves fails.
   */
  datatype RunOracle = RunOracle(
    news: NewsQuery -> NewsCall,
    analysis: AnalysisOracle,
    resultSaveFails: bool,
    taskSaveFails: bool)

  /** Steps 1 and 2: the analysis of the news about the task's topic; `None` is a null analysis. */
  function Analysis(svc: Services, task: Task, o: RunOracle): (r: Option<AnalysisReply>)
    ensures ProviderOf(svc.ai) == Offline ==> r == Some(MockAnalyzeContent(task.topic, o.analysis.draws))
  {
    AnalyzeContent(svc.ai, FetchNews(svc.newsKey, task.topic, o.news), task.topic, o.analysis)
  }

  /** The record as the source builds it: the task reference, the analysis and a source count of 5. */
  function AsWrittenDraft(task: Task, a: AnalysisReply): (d: ResultDraft)
    ensures d.taskId == Some(task.id) && d.sourceCount == Some(5)
    ensures d.summary == a.summary && d.sentiment == a.sentiment && d.insight == a.insight
    ensures d.userId.None? && d.topic.None?
  {
    ResultDraft(Some(task.id), None, None, a.summary, a.sentiment, a.insight, Some(5))
  }

  /** The record as built fails validation whatever the analysis says: owner and topic are missing. */
  lemma AsWrittenDraftRejected(task: Task, a: AnalysisReply, now: int)
    ensures Validate(AsWrittenDraft(task, a), now).Err?
    ensures UserIdField in Validate(AsWrittenDraft(task, a), now).error
    ensures TopicField in Validate(AsWrittenDraft(task, a), now).error
  {
  }

  /** The record with the task's owner and topic filled in as the schema demands. */
  function RecordDraft(task: Task, a: AnalysisReply): (d: ResultDraft)
    ensures d.taskId == Some(task.id) && d.userId == task.owner && d.topic == Some(task.topic)
    ensures d.summary == a.summary && d.sentiment == a.sentiment && d.insight == a.insight
    ensures d.sourceCount == Some(5)
  {
    ResultDraft(Some(task.id), task.owner, Some(task.topic), a.summary, a.sentiment, a.insight, Some(5))
  }

  /**
   * For an owned task with a topic, the record is stored exactly when the
   * analysis has a summary and a sentiment inside the enumeration (or none).
   */
  lemma RecordDraftVerdict(task: Task, a: AnalysisReply, now: int)
    requires task.owner.Some? && task.topic != ""
    ensures Validate(RecordDraft(task, a), now).Ok? <==>
      Truthy(a.summary) && (a.sentiment.None? || ParseSentiment(a.sentiment.value).Some?)
    ensures Validate(RecordDraft(task, a), now).Ok? ==>
      var v := Validate(RecordDraft(task, a), now).value;
      v.taskId == task.id && Some(v.userId) == task.owner && v.topic == task.topic
      && v.summary == a.summary.value && v.insight == a.insight
      && v.sourceCount == 5 && v.timestamp == now
      && (if a.sentiment.Some? then Some(SentimentName(v.sentiment)) == a.sentiment else v.sentiment == Unknown)
  {
  }

  /** The offline analysis always yields a storable record. */
  lemma MockRecordAccepted(task: Task, draws: Draws, now: int)
    requires task.owner.Some? && task.topic != ""
    ensures Validate(RecordDraft(task, MockAnalyzeContent(task.topic, draws)), now).Ok?
  {
    var a := MockAnalyzeContent(task.topic, draws);
    assert a.sentiment.value in SentimentChoices;
    RecordDraftVerdict(task, a, now);
  }

  /** Why a run stopped; the scheduler logs it, the manual run answers 500. */
  datatype Failure = AnalysisWasNull | ResultRejected(fields: set<Field>) | ResultSaveFailed | TaskSaveFailed

  datatype RunOutcome = Completed(result: AnalysisResult) | Failed(failure: Failure)

  /** The collections after a run, and how it ended. */
  datatype Step = Step(after: Snapshot, outcome: RunOutcome)

  /** `task.lastRun = new Date(); task.save()`: only that task's `lastRun` changes. */
  function Stamp(tasks: seq<Task>, id: nat, now: int): (r: seq<Task>)
    ensures |r| == |tasks|
    ensures forall i :: 0 <= i < |tasks| && tasks[i].id != id ==> r[i] == tasks[i]
    ensures forall i :: 0 <= i < |tasks| && tasks[i].id == id ==> r[i] == tasks[i].(lastRun := Some(now))
  {
    seq(|tasks|, i requires 0 <= i < |tasks| =>
      if tasks[i].id == id then tasks[i].(lastRun := Some(now)) else tasks[i])
  }

  /** One entry after stamping: same id, and the new time exactly where the id matches. */
  lemma StampAt(tasks: seq<Task>, id: nat, now: int, i: nat)
    requires i < |tasks|
    ensures Stamp(tasks, id, now)[i].id == tasks[i].id
    ensures Stamp(tasks, id, now)[i].lastRun == (if tasks[i].id == id then Some(now) else tasks[i].lastRun)
  {
  }

  /** Stamping keeps every id, owner and topic, so the store stays well formed. */
  lemma StampKeepsValid(tasks: seq<Task>, id: nat, now: int, nextId: nat)
    requires TasksValid(tasks, nextId)
    ensures TasksValid(Stamp(tasks, id, now), nextId)
  {
    var r := Stamp(tasks, id, now);
    assert forall i :: 0 <= i < |tasks| ==> r[i].id == tasks[i].id && r[i].owner == tasks[i].owner && r[i].topic == tasks[i].topic;
  }

  /** A stamped task is not selected again within the hour. */
  lemma StampedNotDue(tasks: seq<Task>, id: nat, now: int, later: int, i: nat)
    requires i < |tasks| && tasks[i].id == id && later <= now + OneHour
    ensures !Due(Stamp(tasks, id, now)[i], later)
  {
  }

  /**
   * One pipeline run for `task`: analyse, validate the record, save it, then
   * stamp the task. Any step that throws abandons the rest.
   */
  function Run(svc: Services, s: Snapshot, task: Task, o: RunOracle, now: int): (r: Step)
    ensures r.outcome == Failed(AnalysisWasNull) <==> Analysis(svc, task, o).None?
    ensures r.outcome.Completed? <==>
      Analysis(svc, task, o).Some? && Validate(RecordDraft(task, Analysis(svc, task, o).value), now).Ok?
      && !o.resultSaveFails && !o.taskSaveFails
    ensures r.outcome.Completed? ==>
      var v := r.outcome.result;
      r.after.results == s.results + [v] && r.after.tasks == Stamp(s.tasks, task.id, now)
      && v.taskId == task.id && Some(v.userId) == task.owner && v.topic == task.topic
      && v.sourceCount == 5 && v.timestamp == now
      && v == Validate(RecordDraft(task, Analysis(svc, task, o).value), now).value
      && Some(v.summary) == Analysis(svc, task, o).value.summary
      && v.insight == Analysis(svc, task, o).value.insight
      && (if Analysis(svc, task, o).value.sentiment.Some?
          then Some(SentimentName(v.sentiment)) == Analysis(svc, task, o).value.sentiment
          else v.sentiment == Unknown)
    ensures r.outcome.Failed? && r.outcome.failure != TaskSaveFailed ==> r.after == s
    ensures r.outcome == Failed(TaskSaveFailed) <==>
      Analysis(svc, task, o).Some? && Validate(RecordDraft(task, Analysis(svc, task, o).value), now).Ok?
      && !o.resultSaveFails && o.taskSaveFails
    ensures r.outcome == Failed(TaskSaveFailed) ==>
      r.after.tasks == s.tasks
      && r.after.results == s.results + [Validate(RecordDraft(task, Analysis(svc, task, o).value), now).value]
      && |r.after.results| == |s.results| + 1
      && r.after.results[..|s.results|] == s.results
      && r.after.results[|s.results|].taskId == task.id && r.after.results[|s.results|].timestamp == now
  {
    match Analysis(svc, task, o)
    case None => Step(s, Failed(AnalysisWasNull))
    case Some(a) =>
      match Validate(RecordDraft(task, a), now)
      case Err(fields) => Step(s, Failed(ResultRejected(fields)))
      case Ok(v) =>
        if o.resultSaveFails then Step(s, Failed(ResultSaveFailed))
        else if o.taskSaveFails then
          assert (s.results + [v])[..|s.results|] == s.results;
          Step(Snapshot(s.tasks, s.results + [v]), Failed(TaskSaveFailed))
        else Step(Snapshot(Stamp(s.tasks, task.id, now), s.results + [v]), Completed(v))
  }

  /** A run's outcome reads only the task's id, owner and topic, never the stores, its flag or its last run. */
  lemma RunOutcomeReadsTaskKey(svc: Services, s: Snapshot, s': Snapshot, t: Task, u: Task, o: RunOracle, now: int)
    requires t.id == u.id && t.owner == u.owner && t.topic == u.topic
    ensures Run(svc, s, t, o, now).outcome == Run(svc, s', u, o, now).outcome
  {
    assert Analysis(svc, u, o) == Analysis(svc, t, o);
    assert forall a :: RecordDraft(u, a) == RecordDraft(t, a);
  }

  /** The same run with the record as the source builds it. */
  function RunAsWritten(svc: Services, s: Snapshot, task: Task, o: RunOracle, now: int): (r: Step)
    ensures r.outcome == Failed(AnalysisWasNull) <==> Analysis(svc, task, o).None?
    ensures r.outcome.Failed? && r.outcome.failure != TaskSaveFailed ==> r.after == s
  {
    match Analysis(svc, task, o)
    case None => Step(s, Failed(AnalysisWasNull))
    case Some(a) =>
      match Validate(AsWrittenDraft(task, a), now)
      case Err(fields) => Step(s, Failed(ResultRejected(fields)))
      case Ok(v) =>
        if o.resultSaveFails then Step(s, Failed(ResultSaveFailed))
        else if o.taskSaveFails then Step(Snapshot(s.tasks, s.results + [v]), Failed(TaskSaveFailed))
        else Step(Snapshot(Stamp(s.tasks, task.id, now), s.results + [v]), Completed(v))
  }

  /** As written, a run never completes, stores nothing and never stamps: a due task stays due on every later tick. */
  lemma AsWrittenRunChangesNothing(svc: Services, s: Snapshot, task: Task, o: RunOracle, now: int)
    ensures RunAsWritten(svc, s, task, o, now).outcome.Failed?
    ensures RunAsWritten(svc, s, task, o, now).after == s
    ensures Analysis(svc, task, o).Some? ==>
      var out := RunAsWritten(svc, s, task, o, now).outcome;
      out.Failed? && out.failure.ResultRejected? && UserIdField in out.failure.fields && TopicField in out.failure.fields
  {
    var a := Analysis(svc, task, o);
    if a.Some? {
      AsWrittenDraftRejected(task, a.value, now);
    }
  }

  /** A run keeps the task collection well formed. */
  lemma RunKeepsValid(svc: Services, s: Snapshot, task: Task, o: RunOracle, now: int, nextId: nat)
    requires TasksValid(s.tasks, nextId)
    ensures TasksValid(Run(svc, s, task, o, now).after.tasks, nextId)
  {
    StampKeepsValid(s.tasks, task.id, now, nextId);
  }

  /** The runs of one tick, one per queued task in order; the `k`-th run sees `oracle(k)`. */
  function RunAll(svc: Services, s: Snapshot, queue: seq<Task>, oracle: nat -> RunOracle, now: int): (r: Snapshot)
    ensures |r.tasks| == |s.tasks|
    ensures |s.results| <= |r.results| <= |s.results| + |queue|
    decreases |queue|
  {
    if queue == [] then s
    else
      var n := |queue| - 1;
      Run(svc, RunAll(svc, s, queue[..n], oracle, now), queue[n], oracle(n), now).after
  }

  /** Queuing one more task adds one more run at the end. */
  lemma RunAllSnoc(svc: Services, s: Snapshot, queue: seq<Task>, t: Task, oracle: nat -> RunOracle, now: int)
    ensures RunAll(svc, s, queue + [t], oracle, now) == Run(svc, RunAll(svc, s, queue, oracle, now), t, oracle(|queue|), now).after
  {
    assert (queue + [t])[..|queue|] == queue;
  }

  /** The runs of a queue's first `i + 1` tasks are those of its first `i`, then one more. */
  lemma RunAllPrefix(svc: Services, s: Snapshot, queue: seq<Task>, i: nat, oracle: nat -> RunOracle, now: int)
    requires i < |queue|
    ensures RunAll(svc, s, queue[..i + 1], oracle, now) == Run(svc, RunAll(svc, s, queue[..i], oracle, now), queue[i], oracle(i), now).after
  {
    PrefixSnoc(queue, i);
    RunAllSnoc(svc, s, queue[..i], queue[i], oracle, now);
  }

  lemma {:induction false} RunAllKeepsValid(svc: Services, s: Snapshot, queue: seq<Task>, oracle: nat -> RunOracle, now: int, nextId: nat)
    requires TasksValid(s.tasks, nextId)
    ensures TasksValid(RunAll(svc, s, queue, oracle, now).tasks, nextId)
    decreases |queue|
  {
    if queue != [] {
      var n := |queue| - 1;
      RunAllKeepsValid(svc, s, queue[..n], oracle, now, nextId);
      RunKeepsValid(svc, RunAll(svc, s, queue[..n], oracle, now), queue[n], oracle(n), now, nextId);
    }
  }

  /**
   * `after` is `before` with at most one record per queued task appended, each
   * stamped `now` and referring to a queued task.
   */
  ghost predicate ResultsGrew(before: seq<AnalysisResult>, after: seq<AnalysisResult>, queue: seq<Task>, now: int)
  {
    && |before| <= |after| <= |before| + |queue|
    && after[..|before|] == before
    && forall k :: |before| <= k < |after| ==>
         after[k].timestamp == now && exists q :: q in queue && q.id == after[k].taskId
  }

  /** Growth composes: two stretches of runs make one. */
  lemma ResultsGrewTrans(a: seq<AnalysisResult>, b: seq<AnalysisResult>, c: seq<AnalysisResult>,
                         q1: seq<Task>, q2: seq<Task>, now: int)
    requires ResultsGrew(a, b, q1, now) && ResultsGrew(b, c, q2, now)
    ensures ResultsGrew(a, c, q1 + q2, now)
  {
    assert c[..|a|] == b[..|a|];
    forall k | |a| <= k < |c|
      ensures c[k].timestamp == now && exists q :: q in q1 + q2 && q.id == c[k].taskId
    {
      if k < |b| {
        assert c[k] == b[k];
        var q :| q in q1 && q.id == b[k].taskId;
        assert q in q1 + q2;
      } else {
        assert |b| <= k < |c|;
        assert exists q :: q in q2 && q.id == c[k].taskId;
        var q :| q in q2 && q.id == c[k].taskId;
        assert q in q1 + q2;
      }
    }
  }

  /** One run appends at most one result, stamped `now` and referring to the run's task. */
  lemma RunResults(svc: Services, s: Snapshot, task: Task, o: RunOracle, now: int)
    ensures ResultsGrew(s.results, Run(svc, s, task, o, now).after.results, [task], now)
  {
    var step := Run(svc, s, task, o, now);
    var after := step.after.results;
    if step.outcome.Completed? || step.outcome == Failed(TaskSaveFailed) {
      assert |after| == |s.results| + 1 && after[..|s.results|] == s.results by {
        if step.outcome.Completed? {
          assert after == s.results + [step.outcome.result];
        }
      }
      assert after[|s.results|].timestamp == now && after[|s.results|].taskId == task.id;
      assert task in [task];
    } else {
      assert after == s.results;
      assert after[..|s.results|] == s.results;
    }
  }

  /**
   * The results only grow, by at most one record per queued task, and every
   * new record refers to a queued task and carries the tick's time.
   */
  lemma {:induction false} RunAllResults(svc: Services, s: Snapshot, queue: seq<Task>, oracle: nat -> RunOracle, now: int)
    ensures ResultsGrew(s.results, RunAll(svc, s, queue, oracle, now).results, queue, now)
    decreases |queue|
  {
    if queue == [] {
      assert s.results[..|s.results|] == s.results;
    } else {
      var n := |queue| - 1;
      LastSplit(queue);
      var mid := RunAll(svc, s, queue[..n], oracle, now);
      RunAllResults(svc, s, queue[..n], oracle, now);
      RunResults(svc, mid, queue[n], oracle(n), now);
      ResultsGrewTrans(s.results, mid.results, RunAll(svc, s, queue, oracle, now).results, queue[..n], [queue[n]], now);
    }
  }

  /** A task that is not queued, and shares no id with a queued one, ends the tick unchanged. */
  lemma {:induction false} RunAllLeavesOthers(svc: Services, s: Snapshot, queue: seq<Task>, oracle: nat -> RunOracle, now: int, i: nat)
    requires i < |s.tasks|
    requires forall q :: q in queue ==> q.id != s.tasks[i].id
    ensures |RunAll(svc, s, queue, oracle, now).tasks| == |s.tasks|
    ensures RunAll(svc, s, queue, oracle, now).tasks[i] == s.tasks[i]
    decreases |queue|
  {
    if queue != [] {
      var n := |queue| - 1;
      assert forall q :: q in queue[..n] ==> q in queue;
      assert queue[n] in queue;
      RunAllLeavesOthers(svc, s, queue[..n], oracle, now, i);
    }
  }

  /** Offline, with both saves succeeding, a run for an owned task with a topic completes. */
  lemma RunOfflineCompletes(svc: Services, s: Snapshot, task: Task, o: RunOracle, now: int)
    requires ProviderOf(svc.ai) == Offline && !o.resultSaveFails && !o.taskSaveFails
    requires task.owner.Some? && task.topic != ""
    ensures Run(svc, s, task, o, now).outcome.Completed?
    ensures Run(svc, s, task, o, now).after.tasks == Stamp(s.tasks, task.id, now)
    ensures |Run(svc, s, task, o, now).after.results| == |s.results| + 1
  {
    MockRecordAccepted(task, o.analysis.draws, now);
  }

  /** `after` is `before` with ids kept and every task sharing an id with a queued one stamped `now`. */
  ghost predicate StampedFor(before: seq<Task>, after: seq<Task>, queue: seq<Task>, now: int)
  {
    && |after| == |before|
    && (forall i :: 0 <= i < |before| ==> after[i].id == before[i].id)
    && forall i, k :: 0 <= i < |before| && 0 <= k < |queue| && queue[k].id == before[i].id ==>
         after[i].lastRun == Some(now)
  }

  lemma StampedForStep(before: seq<Task>, mid: seq<Task>, queue: seq<Task>, now: int)
    requires queue != []
    requires StampedFor(before, mid, queue[..|queue| - 1], now)
    ensures StampedFor(before, Stamp(mid, queue[|queue| - 1].id, now), queue, now)
  {
    var n := |queue| - 1;
    var prefix := queue[..n];
    var after := Stamp(mid, queue[n].id, now);
    forall i | 0 <= i < |before|
      ensures after[i].id == before[i].id
    {
      StampAt(mid, queue[n].id, now, i);
    }
    forall i, k | 0 <= i < |before| && 0 <= k < |queue| && queue[k].id == before[i].id
      ensures after[i].lastRun == Some(now)
    {
      StampAt(mid, queue[n].id, now, i);
      if k < n {
        assert prefix[k] == queue[k];
      }
    }
  }

  /**
   * Offline, with no failing save, every run completes: one record per queued
   * task, and every stored task sharing an id with a queued one is stamped.
   */
  lemma {:induction false} RunAllOfflineCompletes(svc: Services, s: Snapshot, queue: seq<Task>, oracle: nat -> RunOracle, now: int)
    requires ProviderOf(svc.ai) == Offline
    requires forall k: nat :: !oracle(k).resultSaveFails && !oracle(k).taskSaveFails
    requires forall k :: 0 <= k < |queue| ==> queue[k].owner.Some? && queue[k].topic != ""
    ensures |RunAll(svc, s, queue, oracle, now).results| == |s.results| + |queue|
    ensures StampedFor(s.tasks, RunAll(svc, s, queue, oracle, now).tasks, queue, now)
    decreases |queue|
  {
    if queue != [] {
      var n := |queue| - 1;
      var prefix := queue[..n];
      var mid := RunAll(svc, s, prefix, oracle, now);
      assert forall k :: 0 <= k < |prefix| ==> prefix[k] == queue[k];
      RunAllOfflineCompletes(svc, s, prefix, oracle, now);
      RunOfflineCompletes(svc, mid, queue[n], oracle(n), now);
      StampedForStep(s.tasks, mid.tasks, queue, now);
    }
  }

  /** What one tick does to the collections; a failing selection query does nothing. */
  function TickSpec(svc: Services, s: Snapshot, queryFails: bool, oracle: nat -> RunOracle, now: int): (r: Snapshot)
    ensures queryFails ==> r == s
    ensures |r.tasks| == |s.tasks|
    ensures |s.results| <= |r.results| <= |s.results| + |s.tasks|
  {
    if queryFails then s else RunAll(svc, s, DueTasks(s.tasks, now), oracle, now)
  }

  /** A stored task that is not due (paused, or run within the hour) is left exactly as it was. */
  lemma TickLeavesNotDue(svc: Services, s: Snapshot, queryFails: bool, oracle: nat -> RunOracle, now: int, nextId: nat, i: nat)
    requires TasksValid(s.tasks, nextId)
    requires i < |s.tasks| && !Due(s.tasks[i], now)
    ensures |TickSpec(svc, s, queryFails, oracle, now).tasks| == |s.tasks|
    ensures TickSpec(svc, s, queryFails, oracle, now).tasks[i] == s.tasks[i]
  {
    if !queryFails {
      var queue := DueTasks(s.tasks, now);
      forall q | q in queue
        ensures q.id != s.tasks[i].id
      {
        var j :| 0 <= j < |s.tasks| && s.tasks[j] == q;
        assert j != i;
      }
      RunAllLeavesOthers(svc, s, queue, oracle, now, i);
    }
  }

  /** Every selected task comes from a well-formed store, so it has an owner and a topic. */
  lemma DueTasksWellFormed(tasks: seq<Task>, now: int, nextId: nat)
    requires TasksValid(tasks, nextId)
    ensures forall k :: 0 <= k < |DueTasks(tasks, now)| ==>
      DueTasks(tasks, now)[k].owner.Some? && DueTasks(tasks, now)[k].topic != ""
  {
    var queue := DueTasks(tasks, now);
    forall k | 0 <= k < |queue|
      ensures queue[k].owner.Some? && queue[k].topic != ""
    {
      assert queue[k] in queue;
      var j :| 0 <= j < |tasks| && tasks[j] == queue[k];
    }
  }

  /** A due task is among the selected ones. */
  lemma DueTaskSelected(tasks: seq<Task>, now: int, i: nat) returns (k: nat)
    requires i < |tasks| && Due(tasks[i], now)
    ensures k < |DueTasks(tasks, now)| && DueTasks(tasks, now)[k] == tasks[i]
  {
    assert tasks[i] in DueTasks(tasks, now);
    k :| 0 <= k < |DueTasks(tasks, now)| && DueTasks(tasks, now)[k] == tasks[i];
  }

  lemma StampedForAt(before: seq<Task>, after: seq<Task>, queue: seq<Task>, now: int, i: nat, k: nat)
    requires StampedFor(before, after, queue, now)
    requires i < |before| && k < |queue| && queue[k].id == before[i].id
    ensures after[i].lastRun == Some(now)
  {
  }

  /** Offline and with no failing save, a tick runs every due task: each is stamped and recorded. */
  lemma TickOfflineRunsEveryDue(svc: Services, s: Snapshot, oracle: nat -> RunOracle, now: int, nextId: nat, i: nat)
    requires ProviderOf(svc.ai) == Offline
    requires forall k: nat :: !oracle(k).resultSaveFails && !oracle(k).taskSaveFails
    requires TasksValid(s.tasks, nextId)
    requires i < |s.tasks| && Due(s.tasks[i], now)
    ensures |TickSpec(svc, s, false, oracle, now).tasks| == |s.tasks|
    ensures TickSpec(svc, s, false, oracle, now).tasks[i].lastRun == Some(now)
    ensures |TickSpec(svc, s, false, oracle, now).results| == |s.results| + |DueTasks(s.tasks, now)|
  {
    var queue := DueTasks(s.tasks, now);
    DueTasksWellFormed(s.tasks, now, nextId);
    var k := DueTaskSelected(s.tasks, now, i);
    RunAllOfflineCompletes(svc, s, queue, oracle, now);
    var after := RunAll(svc, s, queue, oracle, now);
    StampedForAt(s.tasks, after.tasks, queue, now, i, k);
  }

  /** `processTask`: the pipeline run against the database. */
  method ProcessTask(db: Db, svc: Services, task: Task, o: RunOracle, now: int) returns (outcome: RunOutcome)
    requires db.Valid()
    modifies db
    ensures db.Valid()
    ensures Step(Snapshot(db.tasks, db.results), outcome) == Run(svc, old(Snapshot(db.tasks, db.results)), task, o, now)
    ensures db.users == old(db.users) && db.nextId == old(db.nextId)
  {
    var analysis := Analysis(svc, task, o);
    if analysis.None? {
      return Failed(AnalysisWasNull);
    }
    var verdict := Validate(RecordDraft(task, analysis.value), now);
    if verdict.Err? {
      return Failed(ResultRejected(verdict.error));
    }
    if o.resultSaveFails {
      return Failed(ResultSaveFailed);
    }
    db.results := db.results + [verdict.value];
    if o.taskSaveFails {
      return Failed(TaskSaveFailed);
    }
    StampKeepsValid(db.tasks, task.id, now, db.nextId);
    db.tasks := Stamp(db.tasks, task.id, now);
    outcome := Completed(verdict.value);
  }

  /** The `for (const task of tasksToRun)` loop: one run per queued task, in order. */
  method RunQueue(db: Db, svc: Services, queue: seq<Task>, oracle: nat -> RunOracle, now: int)
    requires db.Valid()
    modifies db
    ensures db.Valid()
    ensures Snapshot(db.tasks, db.results) == RunAll(svc, old(Snapshot(db.tasks, db.results)), queue, oracle, now)
    ensures db.users == old(db.users) && db.nextId == old(db.nextId)
  {
    ghost var s0 := Snapshot(db.tasks, db.results);
    for i := 0 to |queue|
      invariant db.Valid()
      invariant Snapshot(db.tasks, db.results) == RunAll(svc, s0, queue[..i], oracle, now)
      invariant db.users == old(db.users) && db.nextId == old(db.nextId)
    {
      RunNext(db, svc, s0, queue, i, oracle, now);
    }
    assert queue[..|queue|] == queue;
  }

  /** One iteration of that loop: the run of `queue[i]` extends the runs before it. */
  method RunNext(db: Db, svc: Services, ghost s0: Snapshot, queue: seq<Task>, i: nat, oracle: nat -> RunOracle, now: int)
    requires db.Valid() && i < |queue|
    requires Snapshot(db.tasks, db.results) == RunAll(svc, s0, queue[..i], oracle, now)
    modifies db
    ensures db.Valid()
    ensures Snapshot(db.tasks, db.results) == RunAll(svc, s0, queue[..i + 1], oracle, now)
    ensures db.users == old(db.users) && db.nextId == old(db.nextId)
  {
    RunAllPrefix(svc, s0, queue, i, oracle, now);
    var _ := ProcessTask(db, svc, queue[i], oracle(i), now);
  }

  /**
   * One scheduler tick: select the due tasks, then run each. The source
   * starts the runs without waiting for them; here they run one after another.
   */
  method Tick(db: Db, svc: Services, queryFails: bool, oracle: nat -> RunOracle, now: int)
    requires db.Valid()
    modifies db
    ensures db.Valid()
    ensures Snapshot(db.tasks, db.results) == TickSpec(svc, old(Snapshot(db.tasks, db.results)), queryFails, oracle, now)
    ensures db.users == old(db.users) && db.nextId == old(db.nextId)
  {
    if !queryFails {
      var due := DueTasks(db.tasks, now);
      RunQueue(db, svc, due, oracle, now);
    }
  }
}
