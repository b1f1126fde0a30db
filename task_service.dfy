/** Task ownership rules: who may change or delete a task, how a change of
    assignee is detected, and the per-user dashboard. */
module TaskSvc {
  import opened Base
  import opened Ordering
  import opened TaskDto
  import opened TaskRepo

  const TaskNotFound: string := "Task not found"
  const UpdateDenied: string := "Unauthorized to update this task"
  const DeleteDenied: string := "Unauthorized to delete this task"

  /** Only the creator or the current assignee may update a task. */
  predicate CanUpdate(t: Task, userId: string) {
    t.creatorId == userId || t.assignedToId == Some(userId)
  }

  /** Only the creator may delete a task; being the assignee is not enough. */
  predicate CanDelete(t: Task, userId: string) {
    t.creatorId == userId
  }

  /** The update result returned to the controller: the new row and whether
      the patch handed the task to a different user. */
  datatype UpdatedTask = UpdatedTask(task: Task, assigneeChanged: bool, newAssigneeId: Option<string>)

  /** `assigneeChanged` and `newAssigneeId`, computed from the assignee before
      the update and the one the patch supplies. */
  function AssigneeDelta(previous: Option<string>, supplied: Option<string>): (r: (bool, Option<string>))
    ensures r.0 ==> supplied.Some? && supplied != previous && r.1 == supplied
    ensures !r.0 ==> r.1.None? && (supplied.None? || supplied == previous)
  {
    var changed := supplied.Some? && supplied != previous;
    (changed, if changed then supplied else None)
  }

  /** The change flag is raised exactly when the update really moves the task
      to another assignee, and then names the assignee it now has. */
  lemma {:induction false} AssigneeChangedIffReassigned(t: Task, p: UpdateTaskDto, now: int)
    ensures var d := AssigneeDelta(t.assignedToId, p.assignedToId);
      && (d.0 <==> ApplyPatch(t, p, now).assignedToId != t.assignedToId)
      && (d.0 ==> d.1 == ApplyPatch(t, p, now).assignedToId)
  {
    var r := ApplyPatch(t, p, now);
    assert r.assignedToId == (if p.assignedToId.Some? then p.assignedToId else t.assignedToId);
  }

  datatype Dashboard = Dashboard(assignedTasks: seq<Task>, createdTasks: seq<Task>, overdueTasks: seq<Task>)

  function AssignedFilter(userId: string): TaskFilters {
    TaskFilters(None, None, None, Some(userId), None, None)
  }

  function CreatedFilter(userId: string): TaskFilters {
    TaskFilters(None, None, Some(userId), None, None, None)
  }

  function ToNewTask(dto: CreateTaskDto, creatorId: string): NewTask {
    NewTask(dto.title, dto.description, dto.dueDate, dto.priority, creatorId, dto.assignedToId, dto.teamId)
  }

  class TaskService {
    const repo: TaskRepository

    constructor(repo: TaskRepository)
      ensures this.repo == repo
    {
      this.repo := repo;
    }

    /** `createTask`: the new row has the caller as creator, the input's
        fields unchanged, and status TODO. */
    method CreateTask(dto: CreateTaskDto, creatorId: string, newId: string, now: int) returns (r: Result<Task>)
      requires repo.Valid()
      modifies repo
      ensures repo.Valid()
      ensures newId in old(repo.tasks) ==> r == Err(UniqueViolation)
      ensures newId !in old(repo.tasks) ==> r == Ok(FreshTask(newId, ToNewTask(dto, creatorId), now))
      ensures r.Ok? ==>
        && r.value.id == newId && r.value.creatorId == creatorId
        && r.value.title == dto.title && r.value.description == dto.description
        && r.value.dueDate == dto.dueDate && r.value.priority == dto.priority
        && r.value.assignedToId == dto.assignedToId && r.value.teamId == dto.teamId
        && r.value.status == Todo
        && repo.tasks == old(repo.tasks)[newId := r.value]
      ensures r.Err? ==> repo.tasks == old(repo.tasks)
    {
      r := repo.Create(newId, ToNewTask(dto, creatorId), now);
    }

    /** `getTasks` forwards the filters to the table query. */
    method GetTasks(f: TaskFilters) returns (r: seq<Task>)
      requires repo.Valid()
      ensures Enumerates(r, repo.tasks, TaskKey, MatchFilter(f))
      ensures SortedBy(r, SortValue(SortKeyOf(f)), SortOrderOf(f))
    {
      r := repo.FindAll(f);
    }

    /** `getTaskById`: the stored task, for any caller, or "Task not found". */
    method GetTaskById(id: string) returns (r: Result<Task>)
      requires repo.Valid()
      ensures id !in repo.tasks ==> r == Err(TaskNotFound)
      ensures id in repo.tasks ==> r == Ok(repo.tasks[id])
    {
      var found := repo.FindById(id);
      if found.None? {
        return Err(TaskNotFound);
      }
      r := Ok(found.value);
    }

    /** `updateTask`: existence is checked first, then the caller's right to
        update; only then is the patch applied, to that row only. */
    method UpdateTask(id: string, dto: UpdateTaskDto, userId: string, now: int) returns (r: Result<UpdatedTask>)
      requires repo.Valid()
      modifies repo
      ensures repo.Valid()
      ensures id !in old(repo.tasks) ==> r == Err(TaskNotFound) && repo.tasks == old(repo.tasks)
      ensures id in old(repo.tasks) && !CanUpdate(old(repo.tasks)[id], userId) ==>
        r == Err(UpdateDenied) && repo.tasks == old(repo.tasks)
      ensures id in old(repo.tasks) && CanUpdate(old(repo.tasks)[id], userId) ==>
        var before := old(repo.tasks)[id];
        var after := ApplyPatch(before, dto, now);
        var delta := AssigneeDelta(before.assignedToId, dto.assignedToId);
        && r == Ok(UpdatedTask(after, delta.0, delta.1))
        && repo.tasks == old(repo.tasks)[id := after]
    {
      var found := repo.FindById(id);
      if found.None? {
        return Err(TaskNotFound);
      }
      var task := found.value;
      if !CanUpdate(task, userId) {
        return Err(UpdateDenied);
      }
      var delta := AssigneeDelta(task.assignedToId, dto.assignedToId);
      var updated := repo.Update(id, dto, now);
      r := Ok(UpdatedTask(updated.value, delta.0, delta.1));
    }

    /** `deleteTask`: existence first, then only the creator may delete. */
    method DeleteTask(id: string, userId: string) returns (r: Result<()>)
      requires repo.Valid()
      modifies repo
      ensures repo.Valid()
      ensures id !in old(repo.tasks) ==> r == Err(TaskNotFound) && repo.tasks == old(repo.tasks)
      ensures id in old(repo.tasks) && !CanDelete(old(repo.tasks)[id], userId) ==>
        r == Err(DeleteDenied) && repo.tasks == old(repo.tasks)
      ensures id in old(repo.tasks) && CanDelete(old(repo.tasks)[id], userId) ==>
        r == Ok(()) && repo.tasks == old(repo.tasks) - {id}
    {
      var found := repo.FindById(id);
      if found.None? {
        return Err(TaskNotFound);
      }
      if !CanDelete(found.value, userId) {
        return Err(DeleteDenied);
      }
      var _ := repo.Delete(id);
      r := Ok(());
    }

    /** `getDashboard`: three independent queries over the same table. */
    method GetDashboard(userId: string, now: int) returns (d: Dashboard)
      requires repo.Valid()
      ensures Enumerates(d.assignedTasks, repo.tasks, TaskKey, MatchFilter(AssignedFilter(userId)))
      ensures Enumerates(d.createdTasks, repo.tasks, TaskKey, MatchFilter(CreatedFilter(userId)))
      ensures Enumerates(d.overdueTasks, repo.tasks, TaskKey, OverdueFilter(userId, now))
      ensures SortedBy(d.assignedTasks, SortValue(ByDueDate), Asc)
      ensures SortedBy(d.createdTasks, SortValue(ByDueDate), Asc)
      ensures SortedBy(d.overdueTasks, SortValue(ByDueDate), Asc)
    {
      var assignedTo := repo.FindAll(AssignedFilter(userId));
      var created := repo.FindAll(CreatedFilter(userId));
      var overdue := repo.FindOverdue(userId, now);
      d := Dashboard(assignedTo, created, overdue);
    }

    /** `getOverdueTasks` forwards to the overdue query. */
    method GetOverdueTasks(userId: string, now: int) returns (r: seq<Task>)
      requires repo.Valid()
      ensures Enumerates(r, repo.tasks, TaskKey, OverdueFilter(userId, now))
      ensures SortedBy(r, SortValue(ByDueDate), Asc)
    {
      r := repo.FindOverdue(userId, now);
    }
  }

  /** The dashboard's three lists, for a non-empty user id: the tasks assigned
      to the user, the tasks the user created, and the user's overdue tasks. */
  lemma {:induction false} DashboardContents(d: Dashboard, tasks: map<string, Task>, userId: string, now: int, t: Task)
    requires WellKeyed(tasks, TaskKey) && userId != ""
    requires Enumerates(d.assignedTasks, tasks, TaskKey, MatchFilter(AssignedFilter(userId)))
    requires Enumerates(d.createdTasks, tasks, TaskKey, MatchFilter(CreatedFilter(userId)))
    requires Enumerates(d.overdueTasks, tasks, TaskKey, OverdueFilter(userId, now))
    requires t in tasks.Values
    ensures t in d.assignedTasks <==> t.assignedToId == Some(userId)
    ensures t in d.createdTasks <==> t.creatorId == userId
    ensures t in d.overdueTasks <==> Overdue(t, userId, now)
  {
    EnumeratedRows(d.assignedTasks, tasks, TaskKey, MatchFilter(AssignedFilter(userId)), t);
    EnumeratedRows(d.createdTasks, tasks, TaskKey, MatchFilter(CreatedFilter(userId)), t);
    EnumeratedRows(d.overdueTasks, tasks, TaskKey, OverdueFilter(userId, now), t);
  }

  /** A task the user created, still TODO and due in the past, shows up on the
      user's dashboard both as created and as overdue. */
  lemma {:induction false} OwnPastDueTaskOnDashboard(d: Dashboard, tasks: map<string, Task>, userId: string, now: int, t: Task)
    requires WellKeyed(tasks, TaskKey) && userId != ""
    requires Enumerates(d.assignedTasks, tasks, TaskKey, MatchFilter(AssignedFilter(userId)))
    requires Enumerates(d.createdTasks, tasks, TaskKey, MatchFilter(CreatedFilter(userId)))
    requires Enumerates(d.overdueTasks, tasks, TaskKey, OverdueFilter(userId, now))
    requires t in tasks.Values && t.creatorId == userId && t.status == Todo && t.dueDate < now
    ensures t in d.createdTasks && t in d.overdueTasks
  {
    DashboardContents(d, tasks, userId, now, t);
  }

  /** A patch that names a status sets it, whatever the current status is:
      no order of states is enforced. */
  lemma {:induction false} AnyStatusTransition(t: Task, st: Status, now: int)
    ensures ApplyPatch(t, UpdateTaskDto(None, None, None, None, Some(st), None), now).status == st
  {
  }

  /** An update never changes who created the task, the team it belongs to,
      its id or its creation time, whatever keys the request body carries. */
  lemma {:induction false} UpdateKeepsOwnership(t: Task, b: UpdateTaskBody, iso: string -> Option<int>, now: int)
    requires ParseUpdate(b, iso).Valid?
    ensures var r := ApplyPatch(t, ParseUpdate(b, iso).value, now);
      r.creatorId == t.creatorId && r.teamId == t.teamId && r.id == t.id && r.createdAt == t.createdAt
  {
  }
}
