/** The task table and its queries. Rows are keyed by task id; every task has
    one optional assignee. */
module TaskRepo {
  import opened Base
  import opened Ordering
  import opened TaskDto

  datatype Task = Task(
    id: string, title: string, description: string, dueDate: int,
    priority: Priority, status: Status, creatorId: string,
    assignedToId: Option<string>, teamId: Option<string>,
    createdAt: int, updatedAt: int)

  function TaskKey(t: Task): string { t.id }

  /** The columns a new row is created from; the status starts as TODO. */
  datatype NewTask = NewTask(
    title: string, description: string, dueDate: int, priority: Priority,
    creatorId: string, assignedToId: Option<string>, teamId: Option<string>)

  /** A column of the task table that `orderBy` can name. */
  datatype SortKey =
    | ById | ByTitle | ByDescription | ByDueDate | ByPriority | ByStatus
    | ByCreatorId | ByAssignedToId | ByTeamId | ByCreatedAt | ByUpdatedAt

  /** The column's name as the query spells it. */
  function ColumnName(k: SortKey): string {
    match k
    case ById => "id"
    case ByTitle => "title"
    case ByDescription => "description"
    case ByDueDate => "dueDate"
    case ByPriority => "priority"
    case ByStatus => "status"
    case ByCreatorId => "creatorId"
    case ByAssignedToId => "assignedToId"
    case ByTeamId => "teamId"
    case ByCreatedAt => "createdAt"
    case ByUpdatedAt => "updatedAt"
  }

  const SortColumns: set<string> := {
    "id", "title", "description", "dueDate", "priority", "status",
    "creatorId", "assignedToId", "teamId", "createdAt", "updatedAt"
  }

  /** Enum columns sort in the order the schema declares their values. */
  function PriorityRank(p: Priority): int {
    match p
    case Low => 0
    case Medium => 1
    case High => 2
    case Urgent => 3
  }

  function StatusRank(s: Status): int {
    match s
    case Todo => 0
    case InProgress => 1
    case Review => 2
    case Completed => 3
  }

  /** A nullable text column: a missing value is NULL. */
  function NullableText(o: Option<string>): Key {
    if o.Some? then Text(o.value) else Null
  }

  /** `TaskFilters`: each filter may be absent; the sort key defaults to the
      due date and the order to ascending. */
  datatype TaskFilters = TaskFilters(
    status: Option<Status>, priority: Option<Priority>,
    creatorId: Option<string>, assignedToId: Option<string>,
    sortBy: Option<SortKey>, sortOrder: Option<Direction>)

  /** The `where` of `findAll`: a conjunction of the supplied filters. An
      absent or empty filter adds no condition. */
  predicate Matches(t: Task, f: TaskFilters) {
    && (f.status.Some? ==> t.status == f.status.value)
    && (f.priority.Some? ==> t.priority == f.priority.value)
    && (Supplied(f.creatorId) ==> t.creatorId == f.creatorId.value)
    && (Supplied(f.assignedToId) ==> t.assignedToId == Some(f.assignedToId.value))
  }

  function MatchFilter(f: TaskFilters): Task -> bool {
    (t: Task) => Matches(t, f)
  }

  /** The value of the sort column in a row. */
  function SortValue(k: SortKey): Task -> Key {
    (t: Task) =>
      match k
      case ById => Text(t.id)
      case ByTitle => Text(t.title)
      case ByDescription => Text(t.description)
      case ByDueDate => Num(t.dueDate)
      case ByPriority => Num(PriorityRank(t.priority))
      case ByStatus => Num(StatusRank(t.status))
      case ByCreatorId => Text(t.creatorId)
      case ByAssignedToId => NullableText(t.assignedToId)
      case ByTeamId => NullableText(t.teamId)
      case ByCreatedAt => Num(t.createdAt)
      case ByUpdatedAt => Num(t.updatedAt)
  }

  function SortKeyOf(f: TaskFilters): SortKey { f.sortBy.GetOr(ByDueDate) }

  function SortOrderOf(f: TaskFilters): Direction { f.sortOrder.GetOr(Asc) }

  /** The `where` of `findOverdue`: created by or assigned to the user, due
      strictly before now, and not completed. */
  predicate Overdue(t: Task, userId: string, now: int) {
    && (t.creatorId == userId || t.assignedToId == Some(userId))
    && t.dueDate < now
    && t.status != Completed
  }

  function OverdueFilter(userId: string, now: int): Task -> bool {
    (t: Task) => Overdue(t, userId, now)
  }

  function FreshTask(id: string, data: NewTask, now: int): Task {
    Task(id, data.title, data.description, data.dueDate, data.priority, Todo,
         data.creatorId, data.assignedToId, data.teamId, now, now)
  }

  /** `update(id, data)` on one row: every supplied field replaces the stored
      one, every absent field is kept, and the update time is refreshed. */
  function ApplyPatch(t: Task, p: UpdateTaskDto, now: int): (r: Task)
    ensures r.id == t.id && r.creatorId == t.creatorId && r.teamId == t.teamId
    ensures r.createdAt == t.createdAt && r.updatedAt == now
    ensures r.title == p.title.GetOr(t.title)
    ensures r.description == p.description.GetOr(t.description)
    ensures r.dueDate == p.dueDate.GetOr(t.dueDate)
    ensures r.priority == p.priority.GetOr(t.priority)
    ensures r.status == p.status.GetOr(t.status)
    ensures r.assignedToId == (if p.assignedToId.Some? then p.assignedToId else t.assignedToId)
  {
    t.(title := p.title.GetOr(t.title),
       description := p.description.GetOr(t.description),
       dueDate := p.dueDate.GetOr(t.dueDate),
       priority := p.priority.GetOr(t.priority),
       status := p.status.GetOr(t.status),
       assignedToId := if p.assignedToId.Some? then p.assignedToId else t.assignedToId,
       updatedAt := now)
  }

  /** Applying the same patch twice is the same as applying it once. */
  lemma PatchIdempotent(t: Task, p: UpdateTaskDto, now: int)
    ensures ApplyPatch(ApplyPatch(t, p, now), p, now) == ApplyPatch(t, p, now)
  {
  }

  /** A patch that supplies nothing changes nothing but the update time. */
  lemma EmptyPatchKeepsTask(t: Task, now: int)
    ensures ApplyPatch(t, UpdateTaskDto(None, None, None, None, None, None), now) == t.(updatedAt := now)
  {
  }

  class TaskRepository {
    var tasks: map<string, Task>

    ghost predicate Valid()
      reads this
    {
      WellKeyed(tasks, TaskKey)
    }

    constructor()
      ensures Valid() && tasks == map[]
    {
      tasks := map[];
    }

    /** `findById`: the row stored under `id`, which carries that id. */
    function FindById(id: string): (r: Option<Task>)
      reads this
      requires Valid()
      ensures r.Some? <==> id in tasks
      ensures r.Some? ==> r.value == tasks[id] && r.value.id == id
    {
      if id in tasks then Some(tasks[id]) else None
    }

    /** `create`: inserts a fresh TODO row under the generated id; an id that
        is already taken is the store's unique-key error. */
    method Create(id: string, data: NewTask, now: int) returns (r: Result<Task>)
      requires Valid()
      modifies this
      ensures Valid()
      ensures id in old(tasks) ==> r == Err(UniqueViolation) && tasks == old(tasks)
      ensures id !in old(tasks) ==>
        r == Ok(FreshTask(id, data, now)) && tasks == old(tasks)[id := r.value]
    {
      if id in tasks {
        return Err(UniqueViolation);
      }
      var t := FreshTask(id, data, now);
      tasks := tasks[id := t];
      r := Ok(t);
    }

    /** `update`: patches the identified row and no other; a missing row is
        the store's not-found error. */
    method Update(id: string, patch: UpdateTaskDto, now: int) returns (r: Result<Task>)
      requires Valid()
      modifies this
      ensures Valid()
      ensures id !in old(tasks) ==> r == Err(RecordNotFound) && tasks == old(tasks)
      ensures id in old(tasks) ==>
        r == Ok(ApplyPatch(old(tasks)[id], patch, now)) && tasks == old(tasks)[id := r.value]
    {
      if id !in tasks {
        return Err(RecordNotFound);
      }
      var t := ApplyPatch(tasks[id], patch, now);
      tasks := tasks[id := t];
      r := Ok(t);
    }

    /** `delete`: removes exactly the identified row and returns it. */
    method Delete(id: string) returns (r: Result<Task>)
      requires Valid()
      modifies this
      ensures Valid()
      ensures id !in old(tasks) ==> r == Err(RecordNotFound) && tasks == old(tasks)
      ensures id in old(tasks) ==> r == Ok(old(tasks)[id]) && tasks == old(tasks) - {id}
    {
      if id !in tasks {
        return Err(RecordNotFound);
      }
      r := Ok(tasks[id]);
      tasks := tasks - {id};
    }

    /** `findAll`: exactly the tasks matching every supplied filter, each
        once, ordered by the chosen key in the chosen direction. */
    method FindAll(f: TaskFilters) returns (r: seq<Task>)
      requires Valid()
      ensures Enumerates(r, tasks, TaskKey, MatchFilter(f))
      ensures SortedBy(r, SortValue(SortKeyOf(f)), SortOrderOf(f))
      ensures forall i :: 0 <= i < |r| ==> r[i] in tasks.Values && Matches(r[i], f)
    {
      r := SelectSorted(tasks, TaskKey, MatchFilter(f), SortValue(SortKeyOf(f)), SortOrderOf(f));
    }

    /** `findOverdue`: exactly the user's overdue tasks, earliest due first. */
    method FindOverdue(userId: string, now: int) returns (r: seq<Task>)
      requires Valid()
      ensures Enumerates(r, tasks, TaskKey, OverdueFilter(userId, now))
      ensures SortedBy(r, SortValue(ByDueDate), Asc)
      ensures forall i :: 0 <= i < |r| ==>
        && r[i].status != Completed && r[i].dueDate < now
        && (r[i].creatorId == userId || r[i].assignedToId == Some(userId))
    {
      r := SelectSorted(tasks, TaskKey, OverdueFilter(userId, now), SortValue(ByDueDate), Asc);
    }
  }

  /** A task is in a `findAll` result exactly when it is in the table and
      matches the filters. */
  lemma FindAllExact(r: seq<Task>, tasks: map<string, Task>, f: TaskFilters, t: Task)
    requires WellKeyed(tasks, TaskKey)
    requires Enumerates(r, tasks, TaskKey, MatchFilter(f))
    ensures t in r <==> t in tasks.Values && Matches(t, f)
  {
    EnumeratedRows(r, tasks, TaskKey, MatchFilter(f), t);
  }

  /** A completed task, or one due exactly now or later, is never in a
      `findOverdue` result; every other task of the user that is due before
      now is. */
  lemma {:induction false} OverdueExact(r: seq<Task>, tasks: map<string, Task>, userId: string, now: int, t: Task)
    requires WellKeyed(tasks, TaskKey)
    requires Enumerates(r, tasks, TaskKey, OverdueFilter(userId, now))
    requires t in tasks.Values
    ensures t.status == Completed ==> t !in r
    ensures t.dueDate >= now ==> t !in r
    ensures t.status != Completed && t.dueDate < now && (t.creatorId == userId || t.assignedToId == Some(userId))
      ==> t in r
  {
    EnumeratedRows(r, tasks, TaskKey, OverdueFilter(userId, now), t);
  }

  /** With no filter supplied, or only empty ones, `findAll` lists every task. */
  lemma {:induction false} EmptyFiltersListAll(r: seq<Task>, tasks: map<string, Task>, f: TaskFilters)
    requires WellKeyed(tasks, TaskKey)
    requires f.status.None? && f.priority.None? && !Supplied(f.creatorId) && !Supplied(f.assignedToId)
    requires Enumerates(r, tasks, TaskKey, MatchFilter(f))
    ensures forall t :: t in tasks.Values ==> t in r
  {
    forall t | t in tasks.Values ensures t in r {
      EnumeratedRows(r, tasks, TaskKey, MatchFilter(f), t);
    }
  }
}
