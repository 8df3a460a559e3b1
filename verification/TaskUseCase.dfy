/**
  The task use case call by call, over an entity whose methods change its fields, a repository, the
  cache and an event publisher that may lose events. Every method is proved equal to the state function
  of the same name in Tasks. Attachments are in AttachmentUseCase.
 */
module TaskUseCase {
  import opened Prelude
  import opened CacheKeys
  import opened MemoryCache
  import opened EntryCache
  import opened ListKeys
  import opened Tasks

  class TaskEntity {
    const id: Uuid
    const creatorId: Uuid
    const createdAt: Time
    var title: string
    var description: string
    var status: Status
    var priority: Priority
    var dueDate: Option<Time>
    var assigneeId: Option<Uuid>
    var labels: seq<Uuid>
    var updatedAt: Time

    function Value(): Task
      reads this
    {
      Task(id, title, description, status, priority, dueDate, assigneeId, creatorId, labels, createdAt, updatedAt)
    }

    constructor (t: Task)
      ensures Value() == t
    {
      id, creatorId, createdAt := t.id, t.creatorId, t.createdAt;
      title, description, status, priority := t.title, t.description, t.status, t.priority;
      dueDate, assigneeId, labels, updatedAt := t.dueDate, t.assigneeId, t.labels, t.updatedAt;
    }

    method Complete(now: Time) returns (r: Option<TaskError>)
      modifies this
      ensures Matches(r, Value(), old(Value()), DoComplete(old(Value()), now))
    {
      if status == Archived {
        return Some(TaskArchived);
      }
      status := Done;
      updatedAt := now;
      return None;
    }

    method Archive(now: Time) returns (r: Option<TaskError>)
      modifies this
      ensures Matches(r, Value(), old(Value()), DoArchive(old(Value()), now))
    {
      if status != Done {
        return Some(TaskNotDone);
      }
      status := Archived;
      updatedAt := now;
      return None;
    }

    method Assign(assignee: Uuid, now: Time) returns (r: Option<TaskError>)
      modifies this
      ensures Matches(r, Value(), old(Value()), DoAssign(old(Value()), assignee, now))
    {
      if status == Archived {
        return Some(TaskArchived);
      }
      assigneeId := Some(assignee);
      updatedAt := now;
      return None;
    }

    method Unassign(now: Time)
      modifies this
      ensures Value() == old(Value()).(assigneeId := None, updatedAt := now)
    {
      assigneeId := None;
      updatedAt := now;
    }

    method ChangeStatus(target: Status, now: Time) returns (r: Option<TaskError>)
      modifies this
      ensures Matches(r, Value(), old(Value()), DoChangeStatus(old(Value()), target, now))
    {
      if status == Archived {
        return Some(TaskArchived);
      }
      if status == Done && target != Archived {
        return Some(InvalidStatusTransition);
      }
      status := target;
      updatedAt := now;
      return None;
    }

    method AddLabel(labelId: Uuid, now: Time)
      modifies this
      ensures Value() == WithLabel(old(Value()), labelId, now)
    {
      for i := 0 to |labels|
        invariant Value() == old(Value()) && labelId !in labels[..i]
      {
        if labels[i] == labelId {
          return;
        }
      }
      labels := labels + [labelId];
      updatedAt := now;
    }

    method RemoveLabel(labelId: Uuid, now: Time)
      modifies this
      ensures Value() == WithoutLabel(old(Value()), labelId, now)
    {
      for i := 0 to |labels|
        invariant Value() == old(Value()) && labelId !in labels[..i]
        invariant DropFirst(labels, labelId) == labels[..i] + DropFirst(labels[i..], labelId)
      {
        if labels[i] == labelId {
          labels := labels[..i] + labels[i + 1..];
          updatedAt := now;
          assert old(labels)[i..][1..] == old(labels)[i + 1..];
          return;
        }
        assert labels[i..][1..] == labels[i + 1..];
        assert labels[..i + 1] == labels[..i] + [labels[i]];
      }
    }

    /** Each setter stamps the entity; a bad title or priority stops the update half done, before anything is stored. */
    method Update(c: TaskChange, now: Time) returns (r: Option<TaskError>)
      modifies this
      ensures r == if c.title == Some("") then Some(EmptyTitle) else if c.priority == Some(None) then Some(InvalidPriority) else None
      ensures r.None? ==> Value() == Changed(old(Value()), c, now)
    {
      if c.title.Some? {
        if c.title.value == "" {
          return Some(EmptyTitle);
        }
        title, updatedAt := c.title.value, now;
      }
      if c.description.Some? {
        description, updatedAt := c.description.value, now;
      }
      if c.priority.Some? {
        if c.priority.value.None? {
          return Some(InvalidPriority);
        }
        priority, updatedAt := c.priority.value.value, now;
      }
      if c.dueDate.Some? {
        dueDate, updatedAt := c.dueDate, now;
      } else if c.clearDueDate {
        dueDate, updatedAt := None, now;
      }
      return None;
    }
  }

  /** An entity method and its function: the same error and no change, or the same new value. */
  ghost predicate Matches(r: Option<TaskError>, value: Task, before: Task, spec: Result<Task, TaskError>) {
    match spec
    case Ok(t) => r.None? && value == t
    case Err(e) => r == Some(e) && value == before
  }

  /** The user table, as far as tasks refer to it. */
  class UserTable {
    var ids: set<Uuid>

    method ExistsByID(id: Uuid) returns (yes: bool)
      ensures yes <==> id in ids
    {
      return id in ids;
    }
  }

  class TaskRepository {
    const users: UserTable
    var rows: map<Uuid, Task>

    constructor (users: UserTable)
      ensures this.users == users && rows == map[]
    {
      this.users, rows := users, map[];
    }

    method FindByID(id: Uuid) returns (task: Option<TaskEntity>)
      ensures task.Some? <==> id in rows
      ensures task.Some? ==> fresh(task.value) && task.value.Value() == rows[id]
    {
      if id !in rows {
        return None;
      }
      var entity := new TaskEntity(rows[id]);
      return Some(entity);
    }

    method ExistsByID(id: Uuid) returns (yes: bool)
      ensures yes <==> id in rows
    {
      return id in rows;
    }

    /** The insert fails if the creator is not a user. */
    method Save(task: TaskEntity) returns (saved: bool)
      modifies this
      ensures saved <==> task.creatorId in users.ids
      ensures rows == if saved then old(rows)[task.id := Columns(task.Value())] else old(rows)
    {
      if task.creatorId !in users.ids {
        return false;
      }
      rows := rows[task.id := task.Value().(labels := [])];
      return true;
    }

    method Update(task: TaskEntity, now: Time)
      requires task.id in rows
      modifies this
      ensures rows == old(rows)[task.id := UpdatedRow(old(rows)[task.id], task.Value(), now)]
    {
      var description := if task.description != "" then Some(task.description) else None;
      rows := rows[task.id := task.Value().(labels := [], description := description.GetOr(rows[task.id].description), updatedAt := now)];
    }

    method Delete(id: Uuid)
      modifies this
      ensures rows == old(rows) - {id}
    {
      rows := rows - {id};
    }

    /** What the foreign keys do to this table when a user's row goes. */
    method UserDeleted(user: Uuid, now: Time)
      modifies this
      ensures rows == RowsWithoutUser(old(rows), user, now)
    {
      rows := map id | id in rows && rows[id].creatorId != user :: rows[id];
      rows := map id | id in rows ::
        if rows[id].assigneeId == Some(user) then rows[id].(assigneeId := None, updatedAt := now) else rows[id];
    }

    method FindAll(dir: Directory, f: TaskFilter, p: Pagination) returns (found: seq<Task>, total: nat)
      ensures found == dir.rows(SelectionOf(f), p.pageSize, (p.page - 1) * p.pageSize, rows) && total == |rows|
    {
      var offset := (p.page - 1) * p.pageSize;
      if f.status.Some? {
        found := dir.rows(ByStatus(f.status.value), p.pageSize, offset, rows);
      } else if f.assigneeId.Some? {
        found := dir.rows(ByAssignee(f.assigneeId.value), p.pageSize, offset, rows);
      } else if f.creatorId.Some? {
        found := dir.rows(ByCreator(f.creatorId.value), p.pageSize, offset, rows);
      } else if f.search != "" {
        found := dir.rows(BySearch(f.search), p.pageSize, offset, rows);
      } else {
        found := dir.rows(Everything, p.pageSize, offset, rows);
      }
      total := |rows|;
    }
  }

  class EventPublisher {
    var events: seq<TaskEvent>

    method Publish(e: TaskEvent, succeeds: bool)
      modifies this
      ensures events == Published(old(events), e, succeeds)
    {
      if succeeds {
        events := events + [e];
      }
    }
  }

  class TaskService {
    const dir: Directory
    const taskRepo: TaskRepository
    const cache: Cache<TaskEntry>
    const publisher: EventPublisher

    constructor (dir: Directory, taskRepo: TaskRepository, cache: Cache<TaskEntry>, publisher: EventPublisher)
      ensures this.dir == dir && this.taskRepo == taskRepo && this.cache == cache && this.publisher == publisher
    {
      this.dir, this.taskRepo, this.cache, this.publisher := dir, taskRepo, cache, publisher;
    }

    ghost function Now(): TaskState
      reads taskRepo, taskRepo.users, cache, publisher
    {
      TaskState(taskRepo.users.ids, taskRepo.rows, EntriesOf(cache.store), publisher.events)
    }

    /** Rows are stored under their own ID. */
    ghost predicate Sound()
      reads taskRepo
    {
      forall id | id in taskRepo.rows :: taskRepo.rows[id].id == id
    }

    method CreateTask(now: Time, input: TaskInput, creatorId: Uuid, id: Uuid, publishes: bool) returns (r: Result<Task, TaskError>)
      modifies taskRepo, cache, publisher
      ensures (Now(), r) == Tasks.CreateTask(old(Now()), dir, now, input, creatorId, id, publishes)
    {
      if !input.valid {
        return Err(InvalidInput);
      }
      if input.priority.None? {
        return Err(InvalidPriority);
      }
      if input.title == "" {
        return Err(EmptyTitle);
      }
      var task := new TaskEntity(Task(id, input.title, input.description, Todo, input.priority.value, input.dueDate, None,
                                      creatorId, [], now, now));
      if input.assigneeId.Some? {
        var found := taskRepo.users.ExistsByID(input.assigneeId.value);
        if !found {
          return Err(UserNotFound);
        }
        // A new task is not archived, so assigning it cannot be refused.
        var refused := task.Assign(input.assigneeId.value, now);
        assert refused.None?;
      }
      var known := AddLabels(task, input.labelIds, now);
      if !known {
        return Err(LabelNotFound);
      }
      var saved := taskRepo.Save(task);
      if !saved {
        return Err(ForeignKeyViolated);
      }
      DeleteTaskLists(cache);
      publisher.Publish(Created(id), publishes);
      return Ok(Columns(task.Value()));
    }

    /** Stops at the first label nobody knows. */
    method AddLabels(task: TaskEntity, labelIds: seq<Uuid>, now: Time) returns (known: bool)
      modifies task
      ensures known <==> forall l | l in labelIds :: l in dir.labels
      ensures known ==> task.Value() == WithLabels(old(task.Value()), labelIds, now)
    {
      for i := 0 to |labelIds|
        invariant forall l | l in labelIds[..i] :: l in dir.labels
        invariant task.Value() == WithLabels(old(task.Value()), labelIds[..i], now)
      {
        if labelIds[i] !in dir.labels {
          return false;
        }
        task.AddLabel(labelIds[i], now);
        assert labelIds[..i + 1][..i] == labelIds[..i];
      }
      assert labelIds[..|labelIds|] == labelIds;
      return true;
    }

    method UpdateTask(now: Time, id: Uuid, c: TaskChange, publishes: bool) returns (r: Result<Task, TaskError>)
      requires Sound()
      modifies taskRepo, cache, publisher
      ensures (Now(), r) == Tasks.UpdateTask(old(Now()), now, id, c, publishes)
    {
      if !c.valid {
        return Err(InvalidInput);
      }
      var task := taskRepo.FindByID(id);
      if task.None? {
        return Err(TaskNotFound);
      }
      var refused := task.value.Update(c, now);
      if refused.Some? {
        return Err(refused.value);
      }
      Store(now, id, task.value, Some(Updated(id)), publishes);
      return Ok(task.value.Value());
    }

    method DeleteTask(id: Uuid, publishes: bool) returns (r: Result<(), TaskError>)
      modifies taskRepo, cache, publisher
      ensures (Now(), r) == Tasks.DeleteTask(old(Now()), id, publishes)
    {
      var found := taskRepo.ExistsByID(id);
      if !found {
        return Err(TaskNotFound);
      }
      taskRepo.Delete(id);
      InvalidateTaskCaches(id);
      publisher.Publish(Deleted(id), publishes);
      return Ok(());
    }

    method GetTask(now: Time, id: Uuid) returns (r: Result<Task, TaskError>)
      modifies cache
      ensures (Now(), r) == Tasks.GetTask(old(Now()), now, id)
    {
      var cached := GetEntry(cache, now, TaskKey(id));
      if cached.Some? && cached.value.CachedTask? {
        return Ok(cached.value.task);
      }
      var task := taskRepo.FindByID(id);
      if task.None? {
        return Err(TaskNotFound);
      }
      var output := task.value.Value();
      SetEntry(cache, now, TaskKey(id), CachedTask(output), TASK_TTL);
      return Ok(output);
    }

    method ListTasks(now: Time, valid: bool, f: TaskFilter, p: Pagination) returns (r: Result<TaskList, TaskError>)
      modifies cache
      ensures (Now(), r) == Tasks.ListTasks(old(Now()), dir, now, valid, f, p)
    {
      if !valid {
        return Err(InvalidInput);
      }
      var text := BuildTaskListText(f, p);
      var cached := GetEntry(cache, now, TaskListKey(text));
      if cached.Some? && cached.value.CachedList? {
        return Ok(cached.value.result);
      }
      var tasks, total := taskRepo.FindAll(dir, f, p);
      var result := TaskList(tasks, total, p.page, p.pageSize);
      SetEntry(cache, now, TaskListKey(text), CachedList(result), TASK_LIST_TTL);
      return Ok(result);
    }

    method AssignTask(now: Time, id: Uuid, assigneeId: Uuid, publishes: bool) returns (r: Result<Task, TaskError>)
      requires Sound()
      modifies taskRepo, cache, publisher
      ensures (Now(), r) == Tasks.AssignTask(old(Now()), now, id, assigneeId, publishes)
    {
      var task := taskRepo.FindByID(id);
      if task.None? {
        return Err(TaskNotFound);
      }
      var found := taskRepo.users.ExistsByID(assigneeId);
      if !found {
        return Err(UserNotFound);
      }
      var refused := task.value.Assign(assigneeId, now);
      if refused.Some? {
        return Err(refused.value);
      }
      Store(now, id, task.value, Some(Assigned(id, assigneeId)), publishes);
      return Ok(Columns(task.value.Value()));
    }

    method UnassignTask(now: Time, id: Uuid, publishes: bool) returns (r: Result<Task, TaskError>)
      requires Sound()
      modifies taskRepo, cache, publisher
      ensures (Now(), r) == Tasks.UnassignTask(old(Now()), now, id, publishes)
    {
      var task := taskRepo.FindByID(id);
      if task.None? {
        return Err(TaskNotFound);
      }
      var previous := task.value.assigneeId;
      task.value.Unassign(now);
      Store(now, id, task.value, if previous.Some? then Some(Unassigned(id, previous.value)) else None, publishes);
      return Ok(Columns(task.value.Value()));
    }

    method ChangeTaskStatus(now: Time, id: Uuid, status: Option<Status>, publishes: bool) returns (r: Result<Task, TaskError>)
      requires Sound()
      modifies taskRepo, cache, publisher
      ensures (Now(), r) == Tasks.ChangeTaskStatus(old(Now()), now, id, status, publishes)
    {
      if status.None? {
        return Err(InvalidStatus);
      }
      var task := taskRepo.FindByID(id);
      if task.None? {
        return Err(TaskNotFound);
      }
      var oldStatus := task.value.status;
      var refused := task.value.ChangeStatus(status.value, now);
      if refused.Some? {
        return Err(refused.value);
      }
      Store(now, id, task.value, Some(StatusChanged(id, oldStatus, status.value)), publishes);
      return Ok(Columns(task.value.Value()));
    }

    method CompleteTask(now: Time, id: Uuid, publishes: bool) returns (r: Result<Task, TaskError>)
      requires Sound()
      modifies taskRepo, cache, publisher
      ensures (Now(), r) == Tasks.CompleteTask(old(Now()), now, id, publishes)
    {
      var task := taskRepo.FindByID(id);
      if task.None? {
        return Err(TaskNotFound);
      }
      var refused := task.value.Complete(now);
      if refused.Some? {
        return Err(refused.value);
      }
      Store(now, id, task.value, Some(Completed(id)), publishes);
      return Ok(Columns(task.value.Value()));
    }

    method ArchiveTask(now: Time, id: Uuid, publishes: bool) returns (r: Result<Task, TaskError>)
      requires Sound()
      modifies taskRepo, cache, publisher
      ensures (Now(), r) == Tasks.ArchiveTask(old(Now()), now, id, publishes)
    {
      var task := taskRepo.FindByID(id);
      if task.None? {
        return Err(TaskNotFound);
      }
      var refused := task.value.Archive(now);
      if refused.Some? {
        return Err(refused.value);
      }
      Store(now, id, task.value, Some(ArchivedTask(id)), publishes);
      return Ok(Columns(task.value.Value()));
    }

    method AddLabel(now: Time, id: Uuid, labelId: Uuid, publishes: bool) returns (r: Result<Task, TaskError>)
      requires Sound()
      modifies taskRepo, cache, publisher
      ensures (Now(), r) == Tasks.AddLabel(old(Now()), dir, now, id, labelId, publishes)
    {
      var task := taskRepo.FindByID(id);
      if task.None? {
        return Err(TaskNotFound);
      }
      if labelId !in dir.labels {
        return Err(LabelNotFound);
      }
      task.value.AddLabel(labelId, now);
      Store(now, id, task.value, Some(LabelAdded(id, labelId)), publishes);
      return Ok(Columns(task.value.Value()));
    }

    method RemoveLabel(now: Time, id: Uuid, labelId: Uuid, publishes: bool) returns (r: Result<Task, TaskError>)
      requires Sound()
      modifies taskRepo, cache, publisher
      ensures (Now(), r) == Tasks.RemoveLabel(old(Now()), now, id, labelId, publishes)
    {
      var task := taskRepo.FindByID(id);
      if task.None? {
        return Err(TaskNotFound);
      }
      task.value.RemoveLabel(labelId, now);
      Store(now, id, task.value, Some(LabelRemoved(id, labelId)), publishes);
      return Ok(Columns(task.value.Value()));
    }

    /** A user's row goes: the database follows in the task table, and no code of this service takes part. */
    method UserDeleted(now: Time, user: Uuid)
      modifies taskRepo, taskRepo.users
      ensures Now() == Tasks.UserDeleted(old(Now()), now, user)
    {
      var found := taskRepo.users.ExistsByID(user);
      if found {
        taskRepo.users.ids := taskRepo.users.ids - {user};
        taskRepo.UserDeleted(user, now);
      }
    }

    /** The common end of every mutation. */
    method Store(now: Time, id: Uuid, task: TaskEntity, e: Option<TaskEvent>, publishes: bool)
      requires task.id == id && id in taskRepo.rows
      modifies taskRepo, cache, publisher
      ensures Now() == Mutated(old(Now()), now, id, task.Value(), e, publishes)
    {
      taskRepo.Update(task, now);
      InvalidateTaskCaches(id);
      if e.Some? {
        publisher.Publish(e.value, publishes);
      }
    }

    method InvalidateTaskCaches(id: Uuid)
      modifies cache
      ensures EntriesOf(cache.store) == TaskCachesDropped(old(EntriesOf(cache.store)), id)
    {
      DeleteEntry(cache, TaskKey(id));
      DeleteTaskLists(cache);
    }
  }
}
