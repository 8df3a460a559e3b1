/**
  Tasks: the entity's transitions, and the meaning of every operation of the task use case as a
  function over the stored rows, the cache and the published events. A row holds the columns of a
  task; labels live in a table of their own that these operations never write. Users come and go
  elsewhere, but the database lets their tasks follow, so the user table is part of the state.
 */
module Tasks {
  import opened Prelude
  import opened CacheKeys
  import opened MemoryCache
  import opened EntryCache
  import opened ListKeys

  datatype Task = Task(
    id: Uuid, title: string, description: string, status: Status, priority: Priority, dueDate: Option<Time>,
    assigneeId: Option<Uuid>, creatorId: Uuid, labels: seq<Uuid>, createdAt: Time, updatedAt: Time)

  datatype TaskError =
    | InvalidInput | EmptyTitle | InvalidPriority | InvalidStatus | TaskArchived | TaskNotDone
    | InvalidStatusTransition | TaskNotFound | UserNotFound | LabelNotFound | ForeignKeyViolated

  datatype TaskEvent =
    | Created(taskId: Uuid)
    | Updated(taskId: Uuid)
    | Deleted(taskId: Uuid)
    | Assigned(taskId: Uuid, assigneeId: Uuid)
    | Unassigned(taskId: Uuid, previousAssigneeId: Uuid)
    | Completed(taskId: Uuid)
    | ArchivedTask(taskId: Uuid)
    | StatusChanged(taskId: Uuid, oldStatus: Status, newStatus: Status)
    | LabelAdded(taskId: Uuid, labelId: Uuid)
    | LabelRemoved(taskId: Uuid, labelId: Uuid)

  datatype TaskList = TaskList(tasks: seq<Task>, total: nat, page: int, pageSize: int)

  datatype TaskEntry = CachedTask(task: Task) | CachedList(result: TaskList)

  /** The one filter a list query uses: the first that is set, in this order. */
  datatype Selection = ByStatus(status: Status) | ByAssignee(id: Uuid) | ByCreator(id: Uuid) | BySearch(text: string) | Everything

  /** The known labels, and the rows the database returns for a selection, a limit and an offset. */
  datatype Directory = Directory(labels: set<Uuid>, rows: (Selection, int, int, map<Uuid, Task>) -> seq<Task>)

  datatype TaskState = TaskState(users: set<Uuid>, tasks: map<Uuid, Task>, cache: Entries<TaskEntry>, events: seq<TaskEvent>)

  const TASK_TTL: Time := 5 * MINUTE
  const TASK_LIST_TTL: Time := 2 * MINUTE

  // ---- The entity ----

  predicate Open(s: Status) {
    s != Done && s != Archived
  }

  /** The transition table documented beside the statuses. */
  predicate CanTransitionTo(s: Status, target: Status) {
    if s == Archived then false
    else if s == Done then target == Archived
    else target != Archived || s == Done
  }

  function DoComplete(t: Task, now: Time): Result<Task, TaskError> {
    if t.status == Archived then Err(TaskArchived) else Ok(t.(status := Done, updatedAt := now))
  }

  function DoArchive(t: Task, now: Time): Result<Task, TaskError> {
    if t.status != Done then Err(TaskNotDone) else Ok(t.(status := Archived, updatedAt := now))
  }

  function DoAssign(t: Task, assigneeId: Uuid, now: Time): Result<Task, TaskError> {
    if t.status == Archived then Err(TaskArchived) else Ok(t.(assigneeId := Some(assigneeId), updatedAt := now))
  }

  function DoChangeStatus(t: Task, status: Status, now: Time): Result<Task, TaskError> {
    if t.status == Archived then Err(TaskArchived)
    else if t.status == Done && status != Archived then Err(InvalidStatusTransition)
    else Ok(t.(status := status, updatedAt := now))
  }

  function WithLabel(t: Task, labelId: Uuid, now: Time): Task {
    if labelId in t.labels then t else t.(labels := t.labels + [labelId], updatedAt := now)
  }

  function DropFirst(labels: seq<Uuid>, labelId: Uuid): seq<Uuid> {
    if labels == [] then [] else if labels[0] == labelId then labels[1..] else [labels[0]] + DropFirst(labels[1..], labelId)
  }

  function WithoutLabel(t: Task, labelId: Uuid, now: Time): Task {
    if labelId in t.labels then t.(labels := DropFirst(t.labels, labelId), updatedAt := now) else t
  }

  function WithLabels(t: Task, labelIds: seq<Uuid>, now: Time): Task
    decreases |labelIds|
  {
    if labelIds == [] then t
    else WithLabel(WithLabels(t, labelIds[..|labelIds| - 1], now), labelIds[|labelIds| - 1], now)
  }

  // ---- The repository ----

  function Columns(t: Task): Task {
    t.(labels := [])
  }

  /** An update stamps the row and cannot blank a description: an empty one leaves the old in place. */
  function UpdatedRow(row: Task, t: Task, now: Time): Task {
    Columns(t).(description := if t.description == "" then row.description else t.description, updatedAt := now)
  }

  function SelectionOf(f: TaskFilter): Selection {
    if f.status.Some? then ByStatus(f.status.value)
    else if f.assigneeId.Some? then ByAssignee(f.assigneeId.value)
    else if f.creatorId.Some? then ByCreator(f.creatorId.value)
    else if f.search != "" then BySearch(f.search)
    else Everything
  }

  function FindAll(dir: Directory, tasks: map<Uuid, Task>, f: TaskFilter, p: Pagination): TaskList {
    TaskList(dir.rows(SelectionOf(f), p.pageSize, (p.page - 1) * p.pageSize, tasks), |tasks|, p.page, p.pageSize)
  }

  // ---- The operations ----

  ghost function TaskCachesDropped(cache: Entries<TaskEntry>, id: Uuid): Entries<TaskEntry> {
    TaskListsDropped(Removed(cache, TaskKey(id)))
  }

  function Published(events: seq<TaskEvent>, e: TaskEvent, publishes: bool): seq<TaskEvent> {
    if publishes then events + [e] else events
  }

  /** Store the changed task, drop its entry and every list, then publish; a lost event goes unnoticed. */
  ghost function Mutated(s: TaskState, now: Time, id: Uuid, t: Task, e: Option<TaskEvent>, publishes: bool): TaskState
    requires id in s.tasks
  {
    s.(tasks := s.tasks[id := UpdatedRow(s.tasks[id], t, now)], cache := TaskCachesDropped(s.cache, id),
       events := if e.Some? then Published(s.events, e.value, publishes) else s.events)
  }

  datatype TaskInput = TaskInput(
    valid: bool, title: string, description: string, priority: Option<Priority>, dueDate: Option<Time>,
    assigneeId: Option<Uuid>, labelIds: seq<Uuid>)

  ghost function CreateTask(s: TaskState, dir: Directory, now: Time, input: TaskInput, creatorId: Uuid, id: Uuid, publishes: bool)
      : (TaskState, Result<Task, TaskError>) {
    if !input.valid then (s, Err(InvalidInput))
    else if input.priority.None? then (s, Err(InvalidPriority))
    else if input.title == "" then (s, Err(EmptyTitle))
    else if input.assigneeId.Some? && input.assigneeId.value !in s.users then (s, Err(UserNotFound))
    else if exists l :: l in input.labelIds && l !in dir.labels then (s, Err(LabelNotFound))
    else if creatorId !in s.users then (s, Err(ForeignKeyViolated))
    else
      var blank := Task(id, input.title, input.description, Todo, input.priority.value, input.dueDate, input.assigneeId,
                        creatorId, [], now, now);
      var t := WithLabels(blank, input.labelIds, now);
      (s.(tasks := s.tasks[id := Columns(t)], cache := TaskListsDropped(s.cache), events := Published(s.events, Created(id), publishes)),
       Ok(Columns(t)))
  }

  datatype TaskChange = TaskChange(
    valid: bool, title: Option<string>, description: Option<string>, priority: Option<Option<Priority>>,
    dueDate: Option<Time>, clearDueDate: bool)

  function Changed(t: Task, c: TaskChange, now: Time): Task {
    t.(title := c.title.GetOr(t.title), description := c.description.GetOr(t.description),
       priority := if c.priority.Some? then c.priority.value.GetOr(t.priority) else t.priority,
       dueDate := if c.dueDate.Some? then c.dueDate else if c.clearDueDate then None else t.dueDate,
       updatedAt := if c.title.Some? || c.description.Some? || c.priority.Some? || c.dueDate.Some? || c.clearDueDate
                    then now else t.updatedAt)
  }

  ghost function UpdateTask(s: TaskState, now: Time, id: Uuid, c: TaskChange, publishes: bool): (TaskState, Result<Task, TaskError>) {
    if !c.valid then (s, Err(InvalidInput))
    else if id !in s.tasks then (s, Err(TaskNotFound))
    else if c.title == Some("") then (s, Err(EmptyTitle))
    else if c.priority == Some(None) then (s, Err(InvalidPriority))
    else
      var t := Changed(s.tasks[id], c, now);
      (Mutated(s, now, id, t, Some(Updated(id)), publishes), Ok(t))
  }

  ghost function DeleteTask(s: TaskState, id: Uuid, publishes: bool): (TaskState, Result<(), TaskError>) {
    if id !in s.tasks then (s, Err(TaskNotFound))
    else
      (s.(tasks := s.tasks - {id}, cache := TaskCachesDropped(s.cache, id), events := Published(s.events, Deleted(id), publishes)),
       Ok(()))
  }

  ghost function GetTask(s: TaskState, now: Time, id: Uuid): (TaskState, Result<Task, TaskError>) {
    var cached := Read(s.cache, now, TaskKey(id));
    if cached.Some? && cached.value.CachedTask? then (s, Ok(cached.value.task))
    else if id !in s.tasks then (s, Err(TaskNotFound))
    else (s.(cache := Stored(s.cache, now, TaskKey(id), CachedTask(s.tasks[id]), TASK_TTL)), Ok(s.tasks[id]))
  }

  ghost function ListTasks(s: TaskState, dir: Directory, now: Time, valid: bool, f: TaskFilter, p: Pagination)
      : (TaskState, Result<TaskList, TaskError>) {
    var key := TaskListKey(TaskListText(f, p));
    var cached := Read(s.cache, now, key);
    if !valid then (s, Err(InvalidInput))
    else if cached.Some? && cached.value.CachedList? then (s, Ok(cached.value.result))
    else
      var result := FindAll(dir, s.tasks, f, p);
      (s.(cache := Stored(s.cache, now, key, CachedList(result), TASK_LIST_TTL)), Ok(result))
  }

  ghost function AssignTask(s: TaskState, now: Time, id: Uuid, assigneeId: Uuid, publishes: bool)
      : (TaskState, Result<Task, TaskError>) {
    if id !in s.tasks then (s, Err(TaskNotFound))
    else if assigneeId !in s.users then (s, Err(UserNotFound))
    else Finished(s, now, id, DoAssign(s.tasks[id], assigneeId, now), Some(Assigned(id, assigneeId)), publishes)
  }

  ghost function UnassignTask(s: TaskState, now: Time, id: Uuid, publishes: bool): (TaskState, Result<Task, TaskError>) {
    if id !in s.tasks then (s, Err(TaskNotFound))
    else
      var before := s.tasks[id];
      var e := if before.assigneeId.Some? then Some(Unassigned(id, before.assigneeId.value)) else None;
      Finished(s, now, id, Ok(before.(assigneeId := None, updatedAt := now)), e, publishes)
  }

  ghost function ChangeTaskStatus(s: TaskState, now: Time, id: Uuid, status: Option<Status>, publishes: bool)
      : (TaskState, Result<Task, TaskError>) {
    if status.None? then (s, Err(InvalidStatus))
    else if id !in s.tasks then (s, Err(TaskNotFound))
    else Finished(s, now, id, DoChangeStatus(s.tasks[id], status.value, now),
                  Some(StatusChanged(id, s.tasks[id].status, status.value)), publishes)
  }

  ghost function CompleteTask(s: TaskState, now: Time, id: Uuid, publishes: bool): (TaskState, Result<Task, TaskError>) {
    if id !in s.tasks then (s, Err(TaskNotFound))
    else Finished(s, now, id, DoComplete(s.tasks[id], now), Some(Completed(id)), publishes)
  }

  ghost function ArchiveTask(s: TaskState, now: Time, id: Uuid, publishes: bool): (TaskState, Result<Task, TaskError>) {
    if id !in s.tasks then (s, Err(TaskNotFound))
    else Finished(s, now, id, DoArchive(s.tasks[id], now), Some(ArchivedTask(id)), publishes)
  }

  ghost function AddLabel(s: TaskState, dir: Directory, now: Time, id: Uuid, labelId: Uuid, publishes: bool)
      : (TaskState, Result<Task, TaskError>) {
    if id !in s.tasks then (s, Err(TaskNotFound))
    else if labelId !in dir.labels then (s, Err(LabelNotFound))
    else Finished(s, now, id, Ok(WithLabel(s.tasks[id], labelId, now)), Some(LabelAdded(id, labelId)), publishes)
  }

  ghost function RemoveLabel(s: TaskState, now: Time, id: Uuid, labelId: Uuid, publishes: bool): (TaskState, Result<Task, TaskError>) {
    if id !in s.tasks then (s, Err(TaskNotFound))
    else Finished(s, now, id, Ok(WithoutLabel(s.tasks[id], labelId, now)), Some(LabelRemoved(id, labelId)), publishes)
  }

  /** The common end of a mutation: an entity error stops it, otherwise the entity is stored. */
  ghost function Finished(s: TaskState, now: Time, id: Uuid, r: Result<Task, TaskError>, e: Option<TaskEvent>, publishes: bool)
      : (TaskState, Result<Task, TaskError>)
    requires id in s.tasks
  {
    if r.Err? then (s, r) else (Mutated(s, now, id, r.value, e, publishes), Ok(Columns(r.value)))
  }

  // ---- The deletion of a user ----

  /** The user's own tasks and those assigned to them: the rows their deletion reaches. */
  predicate Concerns(user: Uuid, t: Task) {
    t.creatorId == user || t.assigneeId == Some(user)
  }

  /** The foreign keys of the task table: a user's tasks go with them, other tasks lose them as assignee and are stamped. */
  function RowsWithoutUser(tasks: map<Uuid, Task>, user: Uuid, now: Time): map<Uuid, Task> {
    map id | id in tasks && tasks[id].creatorId != user ::
      if tasks[id].assigneeId == Some(user) then tasks[id].(assigneeId := None, updatedAt := now) else tasks[id]
  }

  /** The user use case deletes the row and the database follows; neither the task cache nor the task events are told. */
  function UserDeleted(s: TaskState, now: Time, user: Uuid): TaskState {
    if user !in s.users then s
    else s.(users := s.users - {user}, tasks := RowsWithoutUser(s.tasks, user, now))
  }
}
