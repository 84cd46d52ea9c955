/** `GET` and `POST /api/v1/tasks`: list the caller's tasks (all of them for an admin), create one. */
module TasksRoute {
  import opened Wrappers
  import opened Identity
  import opened Validation
  import opened Http
  import TaskSchema
  import Tasks
  import Users

  const TASK_CREATED := "Task created successfully"

  /** The `{ tasks }` payload: joined rows for an admin, plain rows for anyone else. */
  datatype Listing = AllTasks(rows: seq<Tasks.TaskRow>) | OwnTasks(tasks: seq<Tasks.Task>)

  /**
   * `GET`: 401 without a session; an admin sees every task with its owner, anyone else
   * exactly their own tasks, newest first.
   */
  function Get(session: Option<Claim>, store: Tasks.TaskService, people: Users.UserService): (r: Reply<Listing>)
    reads store, people
    requires store.Valid()
    ensures session.None? ==> r == Error(401, UNAUTHORIZED)
    ensures session.Some? ==> r.Ok? && r.status == 200 && r.message.None?
    ensures session.Some? && session.value.role == AdminRole ==>
      && r.body.AllTasks?
      && |r.body.rows| == |store.tasks|
      && (forall k :: k in store.tasks ==> Tasks.Joined(store.tasks[k], people.users) in r.body.rows)
      && (forall i, j :: 0 <= i < j < |r.body.rows| ==> r.body.rows[i].task.id != r.body.rows[j].task.id)
      && (forall i, j :: 0 <= i < j < |r.body.rows| ==> r.body.rows[i].task.createdAt >= r.body.rows[j].task.createdAt)
    ensures session.Some? && session.value.role == UserRole ==>
      && r.body.OwnTasks?
      && (forall i :: 0 <= i < |r.body.tasks| ==> r.body.tasks[i].userId == session.value.id && Tasks.Stored(r.body.tasks[i], store.tasks))
      && (forall k :: k in store.tasks && store.tasks[k].userId == session.value.id ==> store.tasks[k] in r.body.tasks)
      && (forall i, j :: 0 <= i < j < |r.body.tasks| ==> r.body.tasks[i].id != r.body.tasks[j].id)
      && (forall i, j :: 0 <= i < j < |r.body.tasks| ==> r.body.tasks[i].createdAt >= r.body.tasks[j].createdAt)
  {
    match session
    case None => Error(401, UNAUTHORIZED)
    case Some(user) =>
      if user.role == AdminRole then Ok(200, None, AllTasks(store.GetAllTasks(people.users)))
      else Ok(200, None, OwnTasks(store.GetTasksByUser(user.id)))
  }

  /**
   * `POST`: 401 without a session whatever the body, 400 with the field issues for an invalid
   * body, otherwise a new task owned by the caller (never by an id named in the body), 201.
   * Only the success path writes.
   */
  method Post(session: Option<Claim>, body: Json, store: Tasks.TaskService, now: nat) returns (r: Reply<Tasks.Task>)
    requires store.Valid()
    modifies store
    ensures store.Valid()
    ensures session.None? ==> r == Error(401, UNAUTHORIZED) && store.tasks == old(store.tasks)
    ensures session.Some? && TaskSchema.ParseCreate(body).Failure? ==>
      r == Invalid(TaskSchema.ParseCreate(body).error) && store.tasks == old(store.tasks)
    ensures session.Some? && TaskSchema.ParseCreate(body).Success? ==>
      && r.Ok? && r.status == 201 && r.message == Some(TASK_CREATED)
      && r.body.id !in old(store.tasks) && store.tasks == old(store.tasks)[r.body.id := r.body]
      && r.body.userId == session.value.id
      && r.body.name == TaskSchema.ParseCreate(body).value.name
      && r.body.description == TaskSchema.ParseCreate(body).value.description
      && !r.body.isComplete && r.body.createdAt == now
  {
    if session.None? {
      return Error(401, UNAUTHORIZED);
    }
    var result := TaskSchema.ParseCreate(body);
    if result.Failure? {
      return Invalid(result.error);
    }
    var task := store.CreateTask(session.value.id, Tasks.NewTask(result.value.name, Some(result.value.description)), now);
    return Ok(201, Some(TASK_CREATED), task);
  }
}
