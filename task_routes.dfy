/**
 * The task endpoints (server/routes/tasks.js), all behind the token check:
 * list one's tasks, create a task from a chat message, pause or resume a
 * task, delete a task. `userId` is the id carried by the caller's token.
 */
module TaskRoutes {
  import opened Common
  import opened JsString
  import opened Sorting
  import opened TaskModel
  import opened AiService
  import opened Store
  import Scheduler

  // ---------------------------------------------------------------------
  // GET /api/tasks

  /** The tasks whose owner is `userId`, in store order. */
  function Owned(tasks: seq<Task>, userId: nat): (r: seq<Task>)
    ensures forall t :: t in r <==> t in tasks && t.owner == Some(userId)
    decreases |tasks|
  {
    if tasks == [] then []
    else (if tasks[0].owner == Some(userId) then [tasks[0]] else []) + Owned(tasks[1..], userId)
  }

  /** Each of the caller's tasks is listed as often as it is stored, and no other task is. */
  lemma {:induction false} OwnedCounts(tasks: seq<Task>, userId: nat)
    ensures forall t :: multiset(Owned(tasks, userId))[t] == if t.owner == Some(userId) then multiset(tasks)[t] else 0
    decreases |tasks|
  {
    if tasks != [] {
      assert tasks == [tasks[0]] + tasks[1..];
      OwnedCounts(tasks[1..], userId);
    }
  }

  function CreatedAt(t: Task): int
  {
    t.createdAt
  }

  /** `Task.find({ userId }).sort({ createdAt: -1 })`: exactly the caller's tasks, newest first. */
  function ListTasks(tasks: seq<Task>, userId: nat): (r: seq<Task>)
    ensures multiset(r) == multiset(Owned(tasks, userId))
    ensures forall t :: multiset(r)[t] == if t.owner == Some(userId) then multiset(tasks)[t] else 0
    ensures forall t :: t in r <==> t in tasks && t.owner == Some(userId)
    ensures SortedDesc(r, CreatedAt)
  {
    OwnedCounts(tasks, userId);
    var r := SortDesc(Owned(tasks, userId), CreatedAt);
    assert forall t :: t in r <==> t in multiset(r);
    r
  }

  // ---------------------------------------------------------------------
  // POST /api/tasks/chat

  const NotUnderstood: string := "I didn't understand that. Try 'Track Bitcoin'."

  function AlreadyTracking(topic: string): (r: string)
    ensures Contains(r, topic)
  {
    ContainsInfix("I'm already tracking **", topic, "** for you! Check your dashboard to see the latest insights.");
    "I'm already tracking **" + topic + "** for you! Check your dashboard to see the latest insights."
  }

  /** 400 for a missing message; otherwise a reply with one of the three actions, or 500. */
  datatype ChatReply =
    | MessageRequired
    | ChatOnly(reply: Option<string>)
    | AlreadyExists(text: string)
    | TaskCreated(reply: Option<string>, task: Task)
    | ChatFailed

  /**
   * The duplicate check: some task of the caller's whose topic equals `topic`
   * ignoring case (the anchored, case-insensitive pattern `^topic$`); which
   * one is left open, as `findOne` without a sort fixes no order.
   */
  function FindDuplicate(tasks: seq<Task>, userId: nat, topic: string): (r: Option<Task>)
    ensures r.Some? ==> r.value in tasks && r.value.owner == Some(userId) && EqualsIgnoringCase(r.value.topic, topic)
    ensures r.None? <==> forall i :: 0 <= i < |tasks| && tasks[i].owner == Some(userId) ==> !EqualsIgnoringCase(tasks[i].topic, topic)
    decreases |tasks|
  {
    if tasks == [] then None
    else if tasks[0].owner == Some(userId) && EqualsIgnoringCase(tasks[0].topic, topic) then Some(tasks[0])
    else
      var r := FindDuplicate(tasks[1..], userId, topic);
      assert forall i :: 1 <= i < |tasks| ==> tasks[i] == tasks[1..][i - 1];
      r
  }

  datatype ChatStep = ChatStep(reply: ChatReply, tasks: seq<Task>)

  /** The frequency handed to the new task: the parsed one when truthy, else hourly. */
  function ChosenFrequency(intent: IntentReply): (f: string)
    ensures Truthy(intent.frequency) ==> f == intent.frequency.value
    ensures !Truthy(intent.frequency) ==> f == Hourly
  {
    if Truthy(intent.frequency) then intent.frequency.value else Hourly
  }

  /** The parsed intent of a present message; `None` also stands for a null parse. */
  function Intent(cfg: AiConfig, io: IntentOracle, message: Option<string>): (r: Option<IntentReply>)
    ensures r.Some? ==> Truthy(message)
    ensures Truthy(message) ==> r == ParseIntent(cfg, message.value, io)
  {
    if Truthy(message) then ParseIntent(cfg, message.value, io) else None
  }

  /** What the chat endpoint answers and which task list it leaves; `nextId` names a new task. */
  function ChatSpec(cfg: AiConfig, io: IntentOracle, tasks: seq<Task>, nextId: nat, userId: nat,
                    message: Option<string>, now: int): ChatStep
  {
    if !Truthy(message) then ChatStep(MessageRequired, tasks)
    else
      match Intent(cfg, io, message)
      case None => ChatStep(ChatOnly(Some(NotUnderstood)), tasks)
      case Some(intent) =>
        if !Truthy(intent.topic) then ChatStep(ChatOnly(intent.confirmation), tasks)
        else
          match FindDuplicate(tasks, userId, intent.topic.value)
          case Some(existing) =>
            ChatStep(AlreadyExists(AlreadyTracking(existing.topic)), tasks)
          case None =>
            match NewTask(TaskInput(userId, intent.topic, Some(ChosenFrequency(intent))), nextId, now)
            case Err(_) => ChatStep(ChatFailed, tasks)
            case Ok(t) => ChatStep(TaskCreated(intent.confirmation, t), tasks + [t])
  }

  /**
   * The chat endpoint's answers: 400 without a message, the parse's own
   * reply without a topic, "already tracking" for a duplicate, and a created
   * task otherwise, the only case that changes the list.
   */
  lemma ChatSpecOutcomes(cfg: AiConfig, io: IntentOracle, tasks: seq<Task>, nextId: nat, userId: nat,
                         message: Option<string>, now: int)
    ensures var r := ChatSpec(cfg, io, tasks, nextId, userId, message, now);
      !Truthy(message) ==> r == ChatStep(MessageRequired, tasks)
    ensures var r := ChatSpec(cfg, io, tasks, nextId, userId, message, now);
      Truthy(message) && Intent(cfg, io, message).None? ==> r == ChatStep(ChatOnly(Some(NotUnderstood)), tasks)
    ensures var r := ChatSpec(cfg, io, tasks, nextId, userId, message, now);
      !r.reply.TaskCreated? ==> r.tasks == tasks
    ensures var r := ChatSpec(cfg, io, tasks, nextId, userId, message, now);
      r.reply.TaskCreated? ==>
      var intent := Intent(cfg, io, message);
      && intent.Some? && Truthy(intent.value.topic)
      && FindDuplicate(tasks, userId, intent.value.topic.value).None?
      && var t := r.reply.task;
         && r.tasks == tasks + [t]
         && t.id == nextId && t.owner == Some(userId) && t.topic == Trim(intent.value.topic.value)
         && t.topic != "" && t.frequency == ChosenFrequency(intent.value)
         && t.isActive && t.lastRun.None? && t.createdAt == now
         && r.reply.reply == intent.value.confirmation
    ensures var r := ChatSpec(cfg, io, tasks, nextId, userId, message, now);
      r.reply.AlreadyExists? ==>
      var intent := Intent(cfg, io, message);
      && intent.Some? && Truthy(intent.value.topic)
      && var found := FindDuplicate(tasks, userId, intent.value.topic.value);
         found.Some? && r.reply.text == AlreadyTracking(found.value.topic)
    ensures var r := ChatSpec(cfg, io, tasks, nextId, userId, message, now);
      var intent := Intent(cfg, io, message);
      intent.Some? && !Truthy(intent.value.topic) ==> r == ChatStep(ChatOnly(intent.value.confirmation), tasks)
    ensures var r := ChatSpec(cfg, io, tasks, nextId, userId, message, now);
      var intent := Intent(cfg, io, message);
      intent.Some? && Truthy(intent.value.topic) && FindDuplicate(tasks, userId, intent.value.topic.value).Some? ==>
        r == ChatStep(AlreadyExists(AlreadyTracking(FindDuplicate(tasks, userId, intent.value.topic.value).value.topic)), tasks)
    ensures var r := ChatSpec(cfg, io, tasks, nextId, userId, message, now);
      var intent := Intent(cfg, io, message);
      (intent.Some? && Truthy(intent.value.topic) && FindDuplicate(tasks, userId, intent.value.topic.value).None?
       && Trim(intent.value.topic.value) == "") ==> r == ChatStep(ChatFailed, tasks)
  {
  }

  /** The chat endpoint against the database. */
  method Chat(db: Db, cfg: AiConfig, io: IntentOracle, userId: nat, message: Option<string>, now: int)
    returns (reply: ChatReply)
    requires db.Valid()
    modifies db
    ensures db.Valid()
    ensures ChatStep(reply, db.tasks) == ChatSpec(cfg, io, old(db.tasks), old(db.nextId), userId, message, now)
    ensures db.nextId == if reply.TaskCreated? then old(db.nextId) + 1 else old(db.nextId)
    ensures db.results == old(db.results) && db.users == old(db.users)
  {
    if !Truthy(message) {
      return MessageRequired;
    }
    ghost var spec := ChatSpec(cfg, io, db.tasks, db.nextId, userId, message, now);
    var intent := Intent(cfg, io, message);
    if intent.None? {
      assert spec == ChatStep(ChatOnly(Some(NotUnderstood)), db.tasks);
      return ChatOnly(Some(NotUnderstood));
    }
    if !Truthy(intent.value.topic) {
      assert spec == ChatStep(ChatOnly(intent.value.confirmation), db.tasks);
      return ChatOnly(intent.value.confirmation);
    }
    var existing := FindDuplicate(db.tasks, userId, intent.value.topic.value);
    if existing.Some? {
      assert spec == ChatStep(AlreadyExists(AlreadyTracking(existing.value.topic)), db.tasks);
      return AlreadyExists(AlreadyTracking(existing.value.topic));
    }
    var input := TaskInput(userId, intent.value.topic, Some(ChosenFrequency(intent.value)));
    var created := NewTask(input, db.nextId, now);
    if created.Err? {
      assert spec == ChatStep(ChatFailed, db.tasks);
      return ChatFailed;
    }
    assert spec == ChatStep(TaskCreated(intent.value.confirmation, created.value), db.tasks + [created.value]);
    AddTaskKeepsValid(db.tasks, db.nextId, created.value);
    var id := db.FreshId();
    db.tasks := db.tasks + [created.value];
    reply := TaskCreated(intent.value.confirmation, created.value);
  }

  /** Conversely, a parsed topic that is not blank once trimmed and matches none of the caller's creates a task. */
  lemma ChatCreatesUnlessDuplicate(cfg: AiConfig, io: IntentOracle, tasks: seq<Task>, nextId: nat, userId: nat,
                                   message: Option<string>, now: int)
    requires Intent(cfg, io, message).Some? && Intent(cfg, io, message).value.topic.Some?
    requires Trim(Intent(cfg, io, message).value.topic.value) != ""
    requires FindDuplicate(tasks, userId, Intent(cfg, io, message).value.topic.value).None?
    ensures var r := ChatSpec(cfg, io, tasks, nextId, userId, message, now);
      r.reply.TaskCreated? && r.tasks == tasks + [r.reply.task]
      && r.reply.task.owner == Some(userId) && r.reply.task.topic == Trim(Intent(cfg, io, message).value.topic.value)
  {
    assert Intent(cfg, io, message).value.topic.value != "";
  }

  /** No two tasks of one owner track topics that are equal ignoring case. */
  ghost predicate TopicsUniquePerUser(tasks: seq<Task>)
  {
    forall i, j :: 0 <= i < j < |tasks| && tasks[i].owner == tasks[j].owner ==>
      ToLower(tasks[i].topic) != ToLower(tasks[j].topic)
  }

  /** Appending a task whose topic differs, ignoring case, from all of its owner's keeps topics unique. */
  lemma AppendKeepsTopicsUnique(tasks: seq<Task>, t: Task)
    requires TopicsUniquePerUser(tasks)
    requires forall i :: 0 <= i < |tasks| && tasks[i].owner == t.owner ==> ToLower(tasks[i].topic) != ToLower(t.topic)
    ensures TopicsUniquePerUser(tasks + [t])
  {
    var r := tasks + [t];
    forall i, j | 0 <= i < j < |r| && r[i].owner == r[j].owner
      ensures ToLower(r[i].topic) != ToLower(r[j].topic)
    {
      assert r[i] == tasks[i];
      if j < |tasks| {
        assert r[j] == tasks[j];
      }
    }
  }

  /**
   * The duplicate check keeps each owner's topics distinct, provided the
   * parsed topic has no white space at its ends (the offline parser's never does).
   */
  lemma ChatKeepsTopicsUnique(cfg: AiConfig, io: IntentOracle, tasks: seq<Task>, nextId: nat, userId: nat,
                              message: Option<string>, now: int)
    requires TopicsUniquePerUser(tasks)
    requires Intent(cfg, io, message).Some? && Intent(cfg, io, message).value.topic.Some? ==>
      IsTrimmed(Intent(cfg, io, message).value.topic.value)
    ensures TopicsUniquePerUser(ChatSpec(cfg, io, tasks, nextId, userId, message, now).tasks)
  {
    var r := ChatSpec(cfg, io, tasks, nextId, userId, message, now);
    if r.reply.TaskCreated? {
      var topic := Intent(cfg, io, message).value.topic.value;
      TrimKeepsTrimmed(topic);
      AppendKeepsTopicsUnique(tasks, r.reply.task);
    }
  }

  /** Offline, the parsed topic is always trimmed, so chat never creates a duplicate. */
  lemma ChatOfflineKeepsTopicsUnique(cfg: AiConfig, io: IntentOracle, tasks: seq<Task>, nextId: nat, userId: nat,
                                     message: Option<string>, now: int)
    requires ProviderOf(cfg) == Offline
    requires TopicsUniquePerUser(tasks)
    ensures TopicsUniquePerUser(ChatSpec(cfg, io, tasks, nextId, userId, message, now).tasks)
  {
    ChatKeepsTopicsUnique(cfg, io, tasks, nextId, userId, message, now);
  }

  /** Trimming drops one leading blank from a word that has none at its ends. */
  lemma TrimLeadingBlank(w: string)
    requires w != [] && IsTrimmed(w)
    ensures Trim([' '] + w) == w
  {
    assert ([' '] + w)[1..] == w;
    assert TrimStart([' '] + w) == TrimStart(w);
    TrimKeepsTrimmed(w);
  }

  /** A topic with a leading blank never equals, ignoring case, the same topic without it. */
  lemma PaddedTopicMisses(tasks: seq<Task>, userId: nat, w: string)
    requires forall i :: 0 <= i < |tasks| ==> tasks[i].topic == w
    ensures FindDuplicate(tasks, userId, [' '] + w).None?
  {
    assert |ToLower([' '] + w)| != |ToLower(w)|;
  }

  /**
   * A parsed topic with a leading blank slips past the duplicate check: the
   * store trims the new topic, the check compared the untrimmed one. So when
   * the vendor answers with `padded`, the caller's existing topic with a blank
   * in front, a second task with the very same topic is added.
   */
  lemma UntrimmedTopicDuplicates(cfg: AiConfig, io: IntentOracle, existing: Task, userId: nat,
                                 message: string, padded: string, now: int)
    requires existing.owner == Some(userId) && existing.topic != "" && IsTrimmed(existing.topic)
    requires padded == [' '] + existing.topic
    requires Intent(cfg, io, Some(message)) == Some(IntentReply(Some(padded), None, None))
    ensures var r := ChatSpec(cfg, io, [existing], existing.id + 1, userId, Some(message), now);
      r.reply.TaskCreated? && r.tasks == [existing, r.reply.task]
      && r.reply.task.topic == existing.topic && r.reply.task.owner == existing.owner
      && !TopicsUniquePerUser(r.tasks)
  {
    PaddedTopicCreated(cfg, io, existing, userId, message, padded, now);
    var r := ChatSpec(cfg, io, [existing], existing.id + 1, userId, Some(message), now);
    assert r.tasks[0].owner == r.tasks[1].owner && ToLower(r.tasks[0].topic) == ToLower(r.tasks[1].topic);
  }

  lemma PaddedTopicCreated(cfg: AiConfig, io: IntentOracle, existing: Task, userId: nat,
                           message: string, padded: string, now: int)
    requires existing.owner == Some(userId) && existing.topic != "" && IsTrimmed(existing.topic)
    requires padded == [' '] + existing.topic
    requires Intent(cfg, io, Some(message)) == Some(IntentReply(Some(padded), None, None))
    ensures var r := ChatSpec(cfg, io, [existing], existing.id + 1, userId, Some(message), now);
      r.reply.TaskCreated? && r.tasks == [existing, r.reply.task]
      && r.reply.task.topic == existing.topic && r.reply.task.owner == existing.owner
  {
    PaddedTopicMisses([existing], userId, existing.topic);
    TrimLeadingBlank(existing.topic);
    ChatCreatesUnlessDuplicate(cfg, io, [existing], existing.id + 1, userId, Some(message), now);
  }

  /** The vendor can give such a topic: an OpenAI reply that decodes to it is taken as is. */
  lemma OpenAIPaddedTopic(cfg: AiConfig, io: IntentOracle, message: string, padded: string)
    requires message != "" && cfg.openaiKey.Some? && cfg.openaiKey.value != ""
    requires io.openai(message).Replied?
    requires io.decode(io.openai(message).text) == Object(IntentReply(Some(padded), None, None))
    ensures Intent(cfg, io, Some(message)) == Some(IntentReply(Some(padded), None, None))
  {
  }

  /** Chat keeps the store well formed; a created task is due on the next tick. */
  lemma ChatKeepsValid(cfg: AiConfig, io: IntentOracle, tasks: seq<Task>, nextId: nat, userId: nat,
                       message: Option<string>, now: int, later: int)
    requires TasksValid(tasks, nextId)
    ensures var r := ChatSpec(cfg, io, tasks, nextId, userId, message, now);
      TasksValid(r.tasks, if r.reply.TaskCreated? then nextId + 1 else nextId)
      && (r.reply.TaskCreated? ==> Scheduler.Due(r.reply.task, later))
  {
    var r := ChatSpec(cfg, io, tasks, nextId, userId, message, now);
    if r.reply.TaskCreated? {
      AddTaskKeepsValid(tasks, nextId, r.reply.task);
    }
  }

  // ---------------------------------------------------------------------
  // PATCH /api/tasks/:id/toggle and DELETE /api/tasks/:id

  /** `Task.findOne({ _id: id, userId })`: the position of the caller's task with that id. */
  function FindOwned(tasks: seq<Task>, id: nat, userId: nat): (r: Option<nat>)
    ensures r.Some? ==> r.value < |tasks| && tasks[r.value].id == id && tasks[r.value].owner == Some(userId)
    ensures r.None? <==> forall i :: 0 <= i < |tasks| ==> !(tasks[i].id == id && tasks[i].owner == Some(userId))
    decreases |tasks|
  {
    if tasks == [] then None
    else if tasks[0].id == id && tasks[0].owner == Some(userId) then Some(0)
    else
      match FindOwned(tasks[1..], id, userId)
      case None =>
        assert forall i :: 1 <= i < |tasks| ==> tasks[i] == tasks[1..][i - 1];
        None
      case Some(k) => Some(k + 1)
  }

  /** Flipping the active flag of the task at `i`; nothing else changes. */
  function Toggled(tasks: seq<Task>, i: nat): (r: seq<Task>)
    requires i < |tasks|
    ensures |r| == |tasks| && r[i] == tasks[i].(isActive := !tasks[i].isActive)
    ensures forall k :: 0 <= k < |tasks| && k != i ==> r[k] == tasks[k]
  {
    tasks[i := tasks[i].(isActive := !tasks[i].isActive)]
  }

  /** Toggling twice restores the task list. */
  lemma ToggleTwice(tasks: seq<Task>, i: nat)
    requires i < |tasks|
    ensures Toggled(Toggled(tasks, i), i) == tasks
  {
    assert Toggled(Toggled(tasks, i), i)[i] == tasks[i];
  }

  /** A paused task is never selected by the scheduler. */
  lemma PausedNotDue(tasks: seq<Task>, i: nat, now: int)
    requires i < |tasks| && tasks[i].isActive
    ensures !Scheduler.Due(Toggled(tasks, i)[i], now)
  {
  }

  /** Removing the task at `i`, keeping the order of the rest. */
  function Deleted(tasks: seq<Task>, i: nat): (r: seq<Task>)
    requires i < |tasks|
    ensures |r| == |tasks| - 1
    ensures forall k :: 0 <= k < i ==> r[k] == tasks[k]
    ensures forall k :: i < k < |tasks| ==> r[k - 1] == tasks[k]
  {
    tasks[..i] + tasks[i + 1..]
  }

  /** A deleted task is gone for good: no other task shares its id. */
  lemma DeletedGone(tasks: seq<Task>, i: nat, nextId: nat)
    requires TasksValid(tasks, nextId) && i < |tasks|
    ensures forall t :: t in Deleted(tasks, i) ==> t.id != tasks[i].id
    ensures TasksValid(Deleted(tasks, i), nextId)
  {
    var r := Deleted(tasks, i);
    forall t | t in r
      ensures t.id != tasks[i].id
    {
      var k :| 0 <= k < |r| && r[k] == t;
      if k < i {
        assert r[k] == tasks[k];
      } else {
        assert r[k] == tasks[k + 1];
      }
    }
    forall a, b | 0 <= a < b < |r|
      ensures r[a].id != r[b].id
    {
      var a' := if a < i then a else a + 1;
      var b' := if b < i then b else b + 1;
      assert r[a] == tasks[a'] && r[b] == tasks[b'];
    }
    forall a | 0 <= a < |r|
      ensures r[a].id < nextId && r[a].topic != "" && r[a].owner.Some?
    {
      var a' := if a < i then a else a + 1;
      assert r[a] == tasks[a'];
    }
  }

  datatype TaskReply = NotFound | Found(task: Task) | Removed

  /** The toggle endpoint: 404 unless the caller owns the task; the reply is the updated task. */
  method Toggle(db: Db, userId: nat, id: nat) returns (reply: TaskReply)
    requires db.Valid()
    modifies db
    ensures db.Valid()
    ensures FindOwned(old(db.tasks), id, userId).None? ==> reply == NotFound && db.tasks == old(db.tasks)
    ensures FindOwned(old(db.tasks), id, userId).Some? ==>
      var i := FindOwned(old(db.tasks), id, userId).value;
      db.tasks == Toggled(old(db.tasks), i) && reply == Found(db.tasks[i])
    ensures db.results == old(db.results) && db.users == old(db.users) && db.nextId == old(db.nextId)
  {
    var found := FindOwned(db.tasks, id, userId);
    if found.None? {
      return NotFound;
    }
    var i := found.value;
    db.tasks := Toggled(db.tasks, i);
    reply := Found(db.tasks[i]);
  }

  /** The delete endpoint: 404 unless the caller owns the task; stored results are kept. */
  method Delete(db: Db, userId: nat, id: nat) returns (reply: TaskReply)
    requires db.Valid()
    modifies db
    ensures db.Valid()
    ensures FindOwned(old(db.tasks), id, userId).None? ==> reply == NotFound && db.tasks == old(db.tasks)
    ensures FindOwned(old(db.tasks), id, userId).Some? ==>
      reply == Removed && db.tasks == Deleted(old(db.tasks), FindOwned(old(db.tasks), id, userId).value)
    ensures db.results == old(db.results) && db.users == old(db.users) && db.nextId == old(db.nextId)
  {
    var found := FindOwned(db.tasks, id, userId);
    if found.None? {
      return NotFound;
    }
    DeletedGone(db.tasks, found.value, db.nextId);
    db.tasks := Deleted(db.tasks, found.value);
    reply := Removed;
  }

  /** Another user's task can be neither toggled nor deleted: the lookup misses it. */
  lemma OthersTasksUnreachable(tasks: seq<Task>, id: nat, userId: nat)
    requires forall i :: 0 <= i < |tasks| && tasks[i].id == id ==> tasks[i].owner != Some(userId)
    ensures FindOwned(tasks, id, userId).None?
  {
  }

  /**
   * With the schema as written, stored tasks have no owner, so every
   * owner-scoped query misses them: the list is empty, the duplicate check
   * never fires, and toggle and delete answer 404.
   */
  lemma OwnerlessTasksInvisible(tasks: seq<Task>, userId: nat, id: nat, topic: string)
    requires forall i :: 0 <= i < |tasks| ==> tasks[i].owner.None?
    ensures ListTasks(tasks, userId) == []
    ensures FindDuplicate(tasks, userId, topic).None?
    ensures FindOwned(tasks, id, userId).None?
  {
    OwnedOwnerless(tasks, userId);
    assert |multiset(ListTasks(tasks, userId))| == 0;
  }

  lemma {:induction false} OwnedOwnerless(tasks: seq<Task>, userId: nat)
    requires forall i :: 0 <= i < |tasks| ==> tasks[i].owner.None?
    ensures Owned(tasks, userId) == []
    decreases |tasks|
  {
    if tasks != [] {
      assert forall i :: 0 <= i < |tasks[1..]| ==> tasks[1..][i] == tasks[i + 1];
      OwnedOwnerless(tasks[1..], userId);
    }
  }

  /** A task created through chat promptly shows up in its owner's list. */
  lemma CreatedTaskListed(cfg: AiConfig, io: IntentOracle, tasks: seq<Task>, nextId: nat, userId: nat,
                          message: Option<string>, now: int)
    requires ChatSpec(cfg, io, tasks, nextId, userId, message, now).reply.TaskCreated?
    ensures var r := ChatSpec(cfg, io, tasks, nextId, userId, message, now);
      r.reply.task in ListTasks(r.tasks, userId)
  {
    var r := ChatSpec(cfg, io, tasks, nextId, userId, message, now);
    assert r.reply.task in r.tasks;
  }
}
