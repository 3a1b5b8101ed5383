/**
 * The Task record (server/models/Task.js): a tracked topic with its cadence,
 * active flag and run metadata.
 */
module TaskModel {
  import opened Common
  import opened JsString

  /** The hourly cron expression: the default cadence of a task and of the offline parser. */
  const Hourly: string := "0 * * * *"

  /**
   * A stored task. `owner` is the `userId` path the routes filter on; it is
   * `None` when the stored document has no such path. Times are milliseconds.
   */
  datatype Task = Task(
    id: nat,
    owner: Option<nat>,
    topic: string,
    frequency: string,
    isActive: bool,
    lastRun: Option<int>,
    createdAt: int)

  /** The fields a caller hands to `new Task({...})`; `None` is an absent field. */
  datatype TaskInput = TaskInput(userId: nat, topic: Option<string>, frequency: Option<string>)

  /** The one validation the schema performs: a topic is required. */
  datatype TaskError = TopicRequired

  /**
   * Building and validating a task whose schema declares the owner path: the
   * topic is trimmed before the `required` check, so a blank topic is
   * rejected; the frequency defaults to hourly, the task starts active, has
   * never run, and was created `now`.
   */
  function NewTask(input: TaskInput, id: nat, now: int): (r: Result<Task, TaskError>)
    ensures r.Err? <==> input.topic.None? || Trim(input.topic.value) == ""
    ensures r.Ok? ==> r.value.topic == Trim(input.topic.value)
    ensures r.Ok? ==> r.value.topic != "" && IsTrimmed(r.value.topic)
    ensures r.Ok? ==> r.value.id == id && r.value.owner == Some(input.userId)
    ensures r.Ok? ==> r.value.frequency == (if input.frequency.Some? then input.frequency.value else Hourly)
    ensures r.Ok? ==> r.value.isActive && r.value.lastRun.None? && r.value.createdAt == now
  {
    match input.topic
    case None => Err(TopicRequired)
    case Some(raw) =>
      var topic := Trim(raw);
      if topic == "" then Err(TopicRequired)
      else Ok(Task(id, Some(input.userId), topic,
                   if input.frequency.Some? then input.frequency.value else Hourly,
                   true, None, now))
  }

  /**
   * The same construction under the schema as written: it declares no
   * `userId` path, and a strict schema silently drops undeclared fields, so
   * the stored task has no owner.
   */
  function NewTaskAsWritten(input: TaskInput, id: nat, now: int): (r: Result<Task, TaskError>)
    ensures r.Err? <==> input.topic.None? || Trim(input.topic.value) == ""
    ensures r.Ok? ==> r.value.owner.None?
  {
    match NewTask(input, id, now)
    case Err(e) => Err(e)
    case Ok(t) => Ok(t.(owner := None))
  }

  /** Apart from the owner, both constructions agree. */
  lemma AsWrittenDiffersOnlyInOwner(input: TaskInput, id: nat, now: int)
    ensures NewTask(input, id, now).Ok? <==> NewTaskAsWritten(input, id, now).Ok?
    ensures NewTask(input, id, now).Ok? ==>
      NewTaskAsWritten(input, id, now).value == NewTask(input, id, now).value.(owner := None)
  {
  }
}
