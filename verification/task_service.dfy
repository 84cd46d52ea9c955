/** `TaskService`: the `tasks` table, its queries, and the ownership check before every update and delete. */
module Tasks {
  import opened Wrappers
  import opened Tables
  import Users

  /** A row of `tasks`. `userId` is the owner. */
  datatype Task = Task(id: Id, userId: Id, name: string, description: string, isComplete: bool, createdAt: nat)

  /** The argument of `createTask`. */
  datatype NewTask = NewTask(name: string, description: Option<string>)

  /** The argument of `updateTask`: `None` is `null` or `undefined`. */
  datatype TaskPatch = TaskPatch(name: Option<string>, description: Option<string>, isComplete: Option<bool>)

  /** A row of `getAllTasks`: the task with its owner's name and e-mail from the LEFT JOIN. */
  datatype TaskRow = TaskRow(task: Task, userName: Option<string>, userEmail: Option<string>)

  /** The answer of a guarded write: a value, or the `FORBIDDEN` error the service throws. */
  datatype Guarded<T> = Permitted(value: T) | Forbidden

  /** `t` is the row stored under its id. */
  predicate Stored(t: Task, tasks: map<Id, Task>) {
    t.id in tasks && tasks[t.id] == t
  }

  /** The ownership rule: an administrator, or the task's owner. */
  predicate MayModify(t: Task, userId: Id, isAdmin: bool) {
    isAdmin || t.userId == userId
  }

  /** The row after `updateTask`: each given field replaces the stored one, the rest is kept. */
  function Patched(t: Task, p: TaskPatch): (r: Task)
    ensures r.id == t.id && r.userId == t.userId && r.createdAt == t.createdAt
    ensures p.name.None? ==> r.name == t.name
    ensures p.description.None? ==> r.description == t.description
    ensures p.isComplete.None? ==> r.isComplete == t.isComplete
    ensures p.name.Some? ==> r.name == p.name.value
    ensures p.description.Some? ==> r.description == p.description.value
    ensures p.isComplete.Some? ==> r.isComplete == p.isComplete.value
  {
    t.(name := p.name.GetOr(t.name),
       description := p.description.GetOr(t.description),
       isComplete := p.isComplete.GetOr(t.isComplete))
  }

  /** Applying the same patch twice is applying it once, and the empty patch changes nothing. */
  lemma PatchIdempotent(t: Task, p: TaskPatch)
    ensures Patched(Patched(t, p), p) == Patched(t, p)
    ensures Patched(t, TaskPatch(None, None, None)) == t
  {
  }

  /** The tasks under the keys `ks`, each once, newest first. */
  function NewestTasks(tasks: map<Id, Task>, ks: set<Id>): (r: seq<Task>)
    requires ks <= tasks.Keys
    requires forall k :: k in tasks ==> tasks[k].id == k
    ensures |r| == |ks|
    ensures forall i :: 0 <= i < |r| ==> r[i].id in ks && Stored(r[i], tasks)
    ensures forall k :: k in ks ==> tasks[k] in r
    ensures forall i, j :: 0 <= i < j < |r| ==> r[i].id != r[j].id
    ensures forall i, j :: 0 <= i < j < |r| ==> r[i].createdAt >= r[j].createdAt
  {
    var ids := NewestFirst(map k | k in tasks :: tasks[k].createdAt, ks);
    var r := Rows(tasks, ids);
    TaskListingOrder(tasks, ks, ids, r);
    r
  }

  lemma TaskListingOrder(tasks: map<Id, Task>, ks: set<Id>, ids: seq<Id>, r: seq<Task>)
    requires ks <= tasks.Keys
    requires forall k :: k in tasks ==> tasks[k].id == k
    requires ids == NewestFirst(map k | k in tasks :: tasks[k].createdAt, ks)
    requires r == Rows(tasks, ids)
    ensures |r| == |ks|
    ensures forall i :: 0 <= i < |r| ==> r[i].id in ks && Stored(r[i], tasks)
    ensures forall k :: k in ks ==> tasks[k] in r
    ensures forall i, j :: 0 <= i < j < |r| ==> r[i].id != r[j].id
    ensures forall i, j :: 0 <= i < j < |r| ==> r[i].createdAt >= r[j].createdAt
  {
    var stamp := map k | k in tasks :: tasks[k].createdAt;
    forall i | 0 <= i < |r| ensures r[i].id == ids[i] && r[i].id in ks && Stored(r[i], tasks) {
      assert ids[i] in tasks;
    }
    forall i, j | 0 <= i < j < |r| ensures r[i].id != r[j].id && r[i].createdAt >= r[j].createdAt {
      assert stamp[ids[i]] >= stamp[ids[j]];
    }
    forall k | k in ks ensures tasks[k] in r {
      var i :| 0 <= i < |ids| && ids[i] == k;
      assert r[i] == tasks[k];
    }
  }

  /** The LEFT JOIN of one task with `users`: the owner's name and e-mail when the owner exists. */
  function Joined(t: Task, users: map<Id, Users.User>): (row: TaskRow)
    ensures row.task == t
    ensures row.userName.Some? <==> t.userId in users
    ensures row.userEmail.Some? <==> t.userId in users
    ensures t.userId in users ==> row.userName == Some(users[t.userId].name) && row.userEmail == Some(users[t.userId].email)
  {
    if t.userId in users then TaskRow(t, Some(users[t.userId].name), Some(users[t.userId].email))
    else TaskRow(t, None, None)
  }

  /** Every task, newest first, joined with its owner. */
  function AllTaskRows(tasks: map<Id, Task>, users: map<Id, Users.User>): (r: seq<TaskRow>)
    requires forall k :: k in tasks ==> tasks[k].id == k
    ensures |r| == |tasks|
    ensures forall i :: 0 <= i < |r| ==> Stored(r[i].task, tasks) && r[i] == Joined(r[i].task, users)
    ensures forall k :: k in tasks ==> Joined(tasks[k], users) in r
    ensures forall i, j :: 0 <= i < j < |r| ==> r[i].task.id != r[j].task.id
    ensures forall i, j :: 0 <= i < j < |r| ==> r[i].task.createdAt >= r[j].task.createdAt
  {
    var ts := NewestTasks(tasks, tasks.Keys);
    var r := JoinedRows(ts, users);
    JoinKeepsOrder(tasks, ts, users, r);
    r
  }

  /** The LEFT JOIN of a task listing with `users`, row by row. */
  function JoinedRows(ts: seq<Task>, users: map<Id, Users.User>): (r: seq<TaskRow>)
    ensures |r| == |ts| && forall i :: 0 <= i < |ts| ==> r[i] == Joined(ts[i], users)
  {
    seq(|ts|, i requires 0 <= i < |ts| => Joined(ts[i], users))
  }

  lemma JoinKeepsOrder(tasks: map<Id, Task>, ts: seq<Task>, users: map<Id, Users.User>, r: seq<TaskRow>)
    requires forall k :: k in tasks ==> tasks[k].id == k
    requires ts == NewestTasks(tasks, tasks.Keys)
    requires r == JoinedRows(ts, users)
    ensures |r| == |tasks|
    ensures forall i :: 0 <= i < |r| ==> Stored(r[i].task, tasks) && r[i] == Joined(r[i].task, users)
    ensures forall k :: k in tasks ==> Joined(tasks[k], users) in r
    ensures forall i, j :: 0 <= i < j < |r| ==> r[i].task.id != r[j].task.id
    ensures forall i, j :: 0 <= i < j < |r| ==> r[i].task.createdAt >= r[j].task.createdAt
  {
    forall i | 0 <= i < |r| ensures Stored(r[i].task, tasks) && r[i] == Joined(r[i].task, users) {
      assert r[i].task == ts[i];
    }
    forall i, j | 0 <= i < j < |r| ensures r[i].task.id != r[j].task.id && r[i].task.createdAt >= r[j].task.createdAt {
      assert r[i].task == ts[i] && r[j].task == ts[j];
    }
    forall k | k in tasks ensures Joined(tasks[k], users) in r {
      var i :| 0 <= i < |ts| && ts[i] == tasks[k];
      assert r[i] == Joined(tasks[k], users);
    }
  }

  class TaskService {
    var tasks: map<Id, Task>
    var nextId: Id

    /** Each row is stored under its own id, and ids still to be issued are unused. */
    ghost predicate Valid()
      reads this
    {
      forall k :: k in tasks ==> tasks[k].id == k && k < nextId
    }

    constructor ()
      ensures Valid() && tasks == map[]
    {
      tasks := map[];
      nextId := 0;
    }

    /**
     * `createTask`: a new row owned by `userId`, not complete, with the description
     * `""` when none or an empty one is given.
     */
    method CreateTask(userId: Id, data: NewTask, now: nat) returns (t: Task)
      requires Valid()
      modifies this
      ensures Valid()
      ensures t.id !in old(tasks) && tasks == old(tasks)[t.id := t]
      ensures t.userId == userId && t.name == data.name && !t.isComplete && t.createdAt == now
      ensures t.description == data.description.GetOr("")
    {
      t := Task(nextId, userId, data.name, data.description.GetOr(""), false, now);
      tasks := tasks[nextId := t];
      nextId := nextId + 1;
    }

    /** `getTasksByUser`: exactly the tasks owned by `userId`, each once, newest first. */
    function GetTasksByUser(userId: Id): (r: seq<Task>)
      reads this
      requires Valid()
      ensures forall i :: 0 <= i < |r| ==> r[i].userId == userId && Stored(r[i], tasks)
      ensures forall k :: k in tasks && tasks[k].userId == userId ==> tasks[k] in r
      ensures forall i, j :: 0 <= i < j < |r| ==> r[i].id != r[j].id
      ensures forall i, j :: 0 <= i < j < |r| ==> r[i].createdAt >= r[j].createdAt
    {
      NewestTasks(tasks, set k | k in tasks && tasks[k].userId == userId)
    }

    /** `getAllTasks`: every task once, newest first, each with its owner's name and e-mail. */
    function GetAllTasks(users: map<Id, Users.User>): (r: seq<TaskRow>)
      reads this
      requires Valid()
      ensures |r| == |tasks|
      ensures forall i :: 0 <= i < |r| ==> Stored(r[i].task, tasks) && r[i] == Joined(r[i].task, users)
      ensures forall k :: k in tasks ==> Joined(tasks[k], users) in r
      ensures forall i, j :: 0 <= i < j < |r| ==> r[i].task.id != r[j].task.id
      ensures forall i, j :: 0 <= i < j < |r| ==> r[i].task.createdAt >= r[j].task.createdAt
    {
      AllTaskRows(tasks, users)
    }

    /** `getTaskById`: the row with that id, or null. */
    function GetTaskById(id: Id): (r: Option<Task>)
      reads this
      ensures r.Some? <==> id in tasks
      ensures r.Some? ==> r.value == tasks[id]
    {
      if id in tasks then Some(tasks[id]) else None
    }

    /**
     * `updateTask`: null for a missing id, `FORBIDDEN` for a non-admin who does not own the
     * task, otherwise the read-modify-write of that one row. Ids, owners and creation times
     * never change, and no other row changes.
     */
    method UpdateTask(id: Id, data: TaskPatch, userId: Id, isAdmin: bool) returns (r: Guarded<Option<Task>>)
      requires Valid()
      modifies this
      ensures Valid() && nextId == old(nextId)
      ensures id !in old(tasks) ==> r == Permitted(None) && tasks == old(tasks)
      ensures id in old(tasks) && !MayModify(old(tasks)[id], userId, isAdmin) ==> r == Forbidden && tasks == old(tasks)
      ensures id in old(tasks) && MayModify(old(tasks)[id], userId, isAdmin) ==>
        && tasks == old(tasks)[id := Patched(old(tasks)[id], data)]
        && r == Permitted(Some(tasks[id]))
      ensures tasks.Keys == old(tasks).Keys
      ensures forall k :: k in tasks ==> tasks[k].userId == old(tasks)[k].userId && tasks[k].createdAt == old(tasks)[k].createdAt
      ensures forall k :: k in tasks && k != id ==> tasks[k] == old(tasks)[k]
    {
      var task := GetTaskById(id);
      if task.None? {
        return Permitted(None);
      }
      if !isAdmin && task.value.userId != userId {
        return Forbidden;
      }
      var updated := Patched(task.value, data);
      tasks := tasks[id := updated];
      return Permitted(Some(updated));
    }

    /** `deleteTask`: false for a missing id, `FORBIDDEN` for a non-owner non-admin, otherwise removes exactly that row. */
    method DeleteTask(id: Id, userId: Id, isAdmin: bool) returns (r: Guarded<bool>)
      requires Valid()
      modifies this
      ensures Valid() && nextId == old(nextId)
      ensures id !in old(tasks) ==> r == Permitted(false) && tasks == old(tasks)
      ensures id in old(tasks) && !MayModify(old(tasks)[id], userId, isAdmin) ==> r == Forbidden && tasks == old(tasks)
      ensures id in old(tasks) && MayModify(old(tasks)[id], userId, isAdmin) ==> r == Permitted(true) && tasks == old(tasks) - {id}
    {
      var task := GetTaskById(id);
      if task.None? {
        return Permitted(false);
      }
      if !isAdmin && task.value.userId != userId {
        return Forbidden;
      }
      tasks := tasks - {id};
      return Permitted(true);
    }
  }
}
