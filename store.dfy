/**
 * The document store behind the routes and the scheduler: the Task,
 * AnalysisResult and User collections, each held in insertion order, and an
 * id source for new documents.
 */
module Store {
  import opened Common
  import opened TaskModel
  import opened ResultModel

  /** A registered account; `secret` is the stored (hashed) password. */
  datatype User = User(id: nat, name: string, email: string, secret: string)

  /** The two collections one analysis run touches. */
  datatype Snapshot = Snapshot(tasks: seq<Task>, results: seq<AnalysisResult>)

  /** Task ids are distinct and issued, every task has a topic and an owner. */
  ghost predicate TasksValid(tasks: seq<Task>, nextId: nat)
  {
    && (forall i, j :: 0 <= i < j < |tasks| ==> tasks[i].id != tasks[j].id)
    && (forall i :: 0 <= i < |tasks| ==> tasks[i].id < nextId && tasks[i].topic != "" && tasks[i].owner.Some?)
  }

  /** A new task with the next id, a topic and an owner keeps the task collection well formed. */
  lemma AddTaskKeepsValid(tasks: seq<Task>, nextId: nat, t: Task)
    requires TasksValid(tasks, nextId)
    requires t.id == nextId && t.topic != "" && t.owner.Some?
    ensures TasksValid(tasks + [t], nextId + 1)
  {
    var r := tasks + [t];
    forall i, j | 0 <= i < j < |r|
      ensures r[i].id != r[j].id
    {
      assert r[i] == tasks[i];
      if j < |tasks| {
        assert r[j] == tasks[j];
      }
    }
  }

  /** User ids are distinct and issued, and no email is registered twice. */
  ghost predicate UsersValid(users: seq<User>, nextId: nat)
  {
    && (forall i, j :: 0 <= i < j < |users| ==> users[i].id != users[j].id && users[i].email != users[j].email)
    && (forall i :: 0 <= i < |users| ==> users[i].id < nextId)
  }

  class Db {
    var tasks: seq<Task>
    var results: seq<AnalysisResult>
    var users: seq<User>
    var nextId: nat

    ghost predicate Valid()
      reads this
    {
      TasksValid(tasks, nextId) && UsersValid(users, nextId)
    }

    /** An empty database. */
    constructor ()
      ensures Valid()
      ensures tasks == [] && results == [] && users == [] && nextId == 0
    {
      tasks := [];
      results := [];
      users := [];
      nextId := 0;
    }

    /** Hands out a fresh id, larger than every id issued so far. */
    method FreshId() returns (id: nat)
      requires Valid()
      modifies this
      ensures Valid()
      ensures id == old(nextId) && nextId == id + 1
      ensures tasks == old(tasks) && results == old(results) && users == old(users)
    {
      id := nextId;
      nextId := nextId + 1;
    }
  }
}
