/** The task endpoints: request bodies are validated, service errors become
    HTTP status codes, and a real-time event is emitted only after the service
    call succeeded. The emitted events are kept in a log. */
module TaskCtl {
  import opened Base
  import opened Ordering
  import opened TaskDto
  import opened TaskRepo
  import opened TaskSvc

  /** Events broadcast to every connected client. */
  datatype TaskEvent = TaskCreated(task: Task) | TaskUpdated(update: UpdatedTask) | TaskDeleted(id: string)

  const Unauthorized: string := "Unauthorized"
  const DeletedNote: string := "Task deleted successfully"

  /** Message of the database error raised by a query whose filter or sort
      value is not one the column accepts. Its wording is the mapping
      library's and is not modelled. */
  const InvalidQueryValue: string := "Invalid value for query argument"

  /** The status an update or delete failure is answered with: 404 for a
      missing task, 403 for any refusal whose message mentions
      "Unauthorized", 400 for everything else. */
  function FailureStatus(message: string): (code: int)
    ensures code in {400, 403, 404}
    ensures code == 404 <==> message == TaskNotFound
    ensures code == 403 <==> message != TaskNotFound && Contains(message, Unauthorized)
  {
    if message == TaskNotFound then 404
    else if Contains(message, Unauthorized) then 403
    else 400
  }

  /** Each refusal the task service raises gets its own status: a missing task
      404, a caller without the right to update or delete 403. */
  lemma {:induction false} ServiceRefusalsMapped()
    ensures FailureStatus(TaskNotFound) == 404
    ensures FailureStatus(UpdateDenied) == 403
    ensures FailureStatus(DeleteDenied) == 403
  {
    assert Unauthorized <= UpdateDenied;
    assert Unauthorized <= DeleteDenied;
  }

  /** The query string of `GET /tasks`, as strings; `None` is an absent key. */
  datatype TaskQuery = TaskQuery(
    status: Option<string>, priority: Option<string>,
    sortBy: Option<string>, sortOrder: Option<string>)

  /** An enum filter taken from the query: absent or empty means no filter, a
      name of the enum filters on it, anything else makes the query fail. */
  function EnumFilter<E>(raw: Option<string>, parse: string -> Option<E>): (r: Result<Option<E>>)
    ensures !Supplied(raw) ==> r == Ok(None)
    ensures Supplied(raw) && parse(raw.value).Some? ==> r == Ok(parse(raw.value))
    ensures Supplied(raw) && parse(raw.value).None? ==> r == Err(InvalidQueryValue)
  {
    if !Supplied(raw) then Ok(None)
    else if parse(raw.value).Some? then Ok(parse(raw.value))
    else Err(InvalidQueryValue)
  }

  /** The sort key is handed to `orderBy` unchecked, so every column of the
      task table is accepted; any other name makes the query fail. */
  function ParseSortKey(s: string): (r: Option<SortKey>)
    ensures r.Some? <==> s in SortColumns
    ensures forall k :: r == Some(k) <==> s == ColumnName(k)
  {
    if s == "id" then Some(ById)
    else if s == "title" then Some(ByTitle)
    else if s == "description" then Some(ByDescription)
    else if s == "dueDate" then Some(ByDueDate)
    else if s == "priority" then Some(ByPriority)
    else if s == "status" then Some(ByStatus)
    else if s == "creatorId" then Some(ByCreatorId)
    else if s == "assignedToId" then Some(ByAssignedToId)
    else if s == "teamId" then Some(ByTeamId)
    else if s == "createdAt" then Some(ByCreatedAt)
    else if s == "updatedAt" then Some(ByUpdatedAt)
    else None
  }

  function ParseDirection(s: string): Option<Direction> {
    if s == "asc" then Some(Asc)
    else if s == "desc" then Some(Desc)
    else None
  }

  /** A sort option taken from the query: only an absent key falls back to the
      default; an empty or unknown value makes the query fail. */
  function SortOption<E>(raw: Option<string>, parse: string -> Option<E>): (r: Result<Option<E>>)
    ensures raw.None? ==> r == Ok(None)
    ensures raw.Some? && parse(raw.value).Some? ==> r == Ok(parse(raw.value))
    ensures raw.Some? && parse(raw.value).None? ==> r == Err(InvalidQueryValue)
  {
    match raw
    case None => Ok(None)
    case Some(s) => if parse(s).Some? then Ok(parse(s)) else Err(InvalidQueryValue)
  }

  /** The filters `getTasks` hands to the service: only status, priority,
      sort key and order come from the query; creator and assignee filters
      are never set. */
  function QueryFilters(q: TaskQuery): (r: Result<TaskFilters>)
    ensures r.Ok? ==> r.value.creatorId.None? && r.value.assignedToId.None?
    ensures r.Ok? <==>
      && (Supplied(q.status) ==> ParseStatus(q.status.value).Some?)
      && (Supplied(q.priority) ==> ParsePriority(q.priority.value).Some?)
      && (q.sortBy.Some? ==> q.sortBy.value in SortColumns)
      && (q.sortOrder.Some? ==> q.sortOrder.value in {"asc", "desc"})
    ensures r.Ok? ==>
      && (Supplied(q.status) ==> r.value.status == ParseStatus(q.status.value))
      && (!Supplied(q.status) ==> r.value.status.None?)
      && (Supplied(q.priority) ==> r.value.priority == ParsePriority(q.priority.value))
      && (!Supplied(q.priority) ==> r.value.priority.None?)
    ensures r.Err? ==> r.message == InvalidQueryValue
  {
    var status := EnumFilter(q.status, ParseStatus);
    var priority := EnumFilter(q.priority, ParsePriority);
    var sortBy := SortOption(q.sortBy, ParseSortKey);
    var sortOrder := SortOption(q.sortOrder, ParseDirection);
    if status.Err? || priority.Err? || sortBy.Err? || sortOrder.Err? then
      Err(InvalidQueryValue)
    else
      Ok(TaskFilters(status.value, priority.value, None, None, sortBy.value, sortOrder.value))
  }

  /** Sorting follows the query's key and order, due date ascending when the
      keys are absent. */
  lemma {:induction false} QuerySortDefaults(q: TaskQuery)
    requires QueryFilters(q).Ok?
    ensures q.sortBy.None? ==> SortKeyOf(QueryFilters(q).value) == ByDueDate
    ensures q.sortBy == Some("createdAt") ==> SortKeyOf(QueryFilters(q).value) == ByCreatedAt
    ensures q.sortBy == Some("priority") ==> SortKeyOf(QueryFilters(q).value) == ByPriority
    ensures q.sortOrder.None? ==> SortOrderOf(QueryFilters(q).value) == Asc
    ensures q.sortOrder == Some("desc") ==> SortOrderOf(QueryFilters(q).value) == Desc
  {
  }

  class TaskController {
    const service: TaskService
    /** Events emitted so far, oldest first. */
    var events: seq<TaskEvent>

    constructor(service: TaskService)
      ensures this.service == service && events == []
    {
      this.service := service;
      events := [];
    }

    /** `createTask`: 201 and a `task:created` event after the service stored
        the task; a validation failure answers 400 with the first issue's
        message, a store failure 400 with its message, and neither emits. */
    method CreateTask(body: CreateTaskBody, iso: string -> Option<int>, userId: string, newId: string, now: int)
      returns (reply: Reply<Task>)
      requires service.repo.Valid()
      modifies this, service.repo
      ensures service.repo.Valid()
      ensures ParseCreate(body, iso).Invalid? ==>
        && reply == Reply(400, Problem(ParseCreate(body, iso).issues[0].message))
        && service.repo.tasks == old(service.repo.tasks) && events == old(events)
      ensures ParseCreate(body, iso).Valid? && newId in old(service.repo.tasks) ==>
        && reply == Reply(400, Problem(UniqueViolation))
        && service.repo.tasks == old(service.repo.tasks) && events == old(events)
      ensures ParseCreate(body, iso).Valid? && newId !in old(service.repo.tasks) ==>
        var t := FreshTask(newId, ToNewTask(ParseCreate(body, iso).value, userId), now);
        && reply == Reply(201, Payload(t))
        && service.repo.tasks == old(service.repo.tasks)[newId := t]
        && events == old(events) + [TaskCreated(t)]
    {
      var parsed := ParseCreate(body, iso);
      if parsed.Invalid? {
        return Reply(400, Problem(parsed.issues[0].message));
      }
      var created := service.CreateTask(parsed.value, userId, newId, now);
      if created.Err? {
        return Reply(400, Problem(created.message));
      }
      events := events + [TaskCreated(created.value)];
      reply := Reply(201, Payload(created.value));
    }

    /** `getTasks`: the tasks the query's filters select, in its order; a query
        value the store cannot use answers 400. */
    method GetTasks(q: TaskQuery) returns (reply: Reply<seq<Task>>)
      requires service.repo.Valid()
      ensures QueryFilters(q).Err? ==> reply == Reply(400, Problem(InvalidQueryValue))
      ensures QueryFilters(q).Ok? ==>
        var f := QueryFilters(q).value;
        && reply.status == 200 && reply.body.Payload?
        && Enumerates(reply.body.data, service.repo.tasks, TaskKey, MatchFilter(f))
        && SortedBy(reply.body.data, SortValue(SortKeyOf(f)), SortOrderOf(f))
    {
      var filters := QueryFilters(q);
      if filters.Err? {
        return Reply(400, Problem(filters.message));
      }
      var tasks := service.GetTasks(filters.value);
      reply := Reply(200, Payload(tasks));
    }

    /** `getTask`: 200 with the stored task, and 404 for every failure. */
    method GetTask(id: string) returns (reply: Reply<Task>)
      requires service.repo.Valid()
      ensures id in service.repo.tasks ==> reply == Reply(200, Payload(service.repo.tasks[id]))
      ensures id !in service.repo.tasks ==> reply == Reply(404, Problem(TaskNotFound))
    {
      var found := service.GetTaskById(id);
      if found.Err? {
        return Reply(404, Problem(found.message));
      }
      reply := Reply(200, Payload(found.value));
    }

    /** `updateTask`: a validation failure answers 400 with the first issue's
        message before the task is looked up; a service refusal answers with
        `FailureStatus` of its message; only a success emits `task:updated`. */
    method UpdateTask(id: string, body: UpdateTaskBody, iso: string -> Option<int>, userId: string, now: int)
      returns (reply: Reply<UpdatedTask>)
      requires service.repo.Valid()
      modifies this, service.repo
      ensures service.repo.Valid()
      ensures reply.status != 200 ==> service.repo.tasks == old(service.repo.tasks) && events == old(events)
      ensures ParseUpdate(body, iso).Invalid? ==>
        reply == Reply(400, Problem(ParseUpdate(body, iso).issues[0].message))
      ensures ParseUpdate(body, iso).Valid? && id !in old(service.repo.tasks) ==>
        reply == Reply(404, Problem(TaskNotFound))
      ensures (ParseUpdate(body, iso).Valid? && id in old(service.repo.tasks)
        && !CanUpdate(old(service.repo.tasks)[id], userId)) ==>
        reply == Reply(403, Problem(UpdateDenied))
      ensures (ParseUpdate(body, iso).Valid? && id in old(service.repo.tasks)
        && CanUpdate(old(service.repo.tasks)[id], userId)) ==>
        var before := old(service.repo.tasks)[id];
        var after := ApplyPatch(before, ParseUpdate(body, iso).value, now);
        var delta := AssigneeDelta(before.assignedToId, ParseUpdate(body, iso).value.assignedToId);
        var u := UpdatedTask(after, delta.0, delta.1);
        && reply == Reply(200, Payload(u))
        && service.repo.tasks == old(service.repo.tasks)[id := after]
        && events == old(events) + [TaskUpdated(u)]
    {
      var parsed := ParseUpdate(body, iso);
      if parsed.Invalid? {
        return Reply(400, Problem(parsed.issues[0].message));
      }
      var updated := service.UpdateTask(id, parsed.value, userId, now);
      if updated.Err? {
        ServiceRefusalsMapped();
        return Reply(FailureStatus(updated.message), Problem(updated.message));
      }
      events := events + [TaskUpdated(updated.value)];
      reply := Reply(200, Payload(updated.value));
    }

    /** `deleteTask`: 404 for a missing task, 403 for a caller who is not the
        creator; only a success removes the row and emits `task:deleted`. */
    method DeleteTask(id: string, userId: string) returns (reply: Reply<()>)
      requires service.repo.Valid()
      modifies this, service.repo
      ensures service.repo.Valid()
      ensures id !in old(service.repo.tasks) ==>
        && reply == Reply(404, Problem(TaskNotFound))
        && service.repo.tasks == old(service.repo.tasks) && events == old(events)
      ensures id in old(service.repo.tasks) && !CanDelete(old(service.repo.tasks)[id], userId) ==>
        && reply == Reply(403, Problem(DeleteDenied))
        && service.repo.tasks == old(service.repo.tasks) && events == old(events)
      ensures id in old(service.repo.tasks) && CanDelete(old(service.repo.tasks)[id], userId) ==>
        && reply == Reply(200, Note(DeletedNote))
        && service.repo.tasks == old(service.repo.tasks) - {id}
        && events == old(events) + [TaskDeleted(id)]
    {
      var deleted := service.DeleteTask(id, userId);
      if deleted.Err? {
        ServiceRefusalsMapped();
        return Reply(FailureStatus(deleted.message), Problem(deleted.message));
      }
      events := events + [TaskDeleted(id)];
      reply := Reply(200, Note(DeletedNote));
    }

    /** `getDashboard`: 200 with the caller's three lists. */
    method GetDashboard(userId: string, now: int) returns (reply: Reply<Dashboard>)
      requires service.repo.Valid()
      ensures reply.status == 200 && reply.body.Payload?
      ensures var d := reply.body.data;
        && Enumerates(d.assignedTasks, service.repo.tasks, TaskKey, MatchFilter(AssignedFilter(userId)))
        && Enumerates(d.createdTasks, service.repo.tasks, TaskKey, MatchFilter(CreatedFilter(userId)))
        && Enumerates(d.overdueTasks, service.repo.tasks, TaskKey, OverdueFilter(userId, now))
      ensures SortedBy(reply.body.data.assignedTasks, SortValue(ByDueDate), Asc)
      ensures SortedBy(reply.body.data.createdTasks, SortValue(ByDueDate), Asc)
      ensures SortedBy(reply.body.data.overdueTasks, SortValue(ByDueDate), Asc)
    {
      var d := service.GetDashboard(userId, now);
      reply := Reply(200, Payload(d));
    }
  }
}
