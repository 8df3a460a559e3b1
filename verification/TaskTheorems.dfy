/** What holds of tasks and their cached copies in every run of the task use case. Their events are in TaskEvents. */
module TaskTheorems {
  import opened Prelude
  import opened CacheKeys
  import opened MemoryCache
  import opened EntryCache
  import opened ListKeys
  import opened Tasks

  // ---- The entity ----

  /** ChangeStatus follows the transition table except that it also lets an open task go straight to the archive. */
  lemma ChangeStatusExact(t: Task, status: Status, now: Time)
    ensures DoChangeStatus(t, status, now).Ok? <==> CanTransitionTo(t.status, status) || (Open(t.status) && status == Archived)
    ensures DoChangeStatus(t, status, now).Ok? ==> DoChangeStatus(t, status, now).value.status == status
  {
  }

  predicate NoDuplicates(labels: seq<Uuid>) {
    forall i, j | 0 <= i < j < |labels| :: labels[i] != labels[j]
  }

  lemma {:induction false} DropFirstExact(labels: seq<Uuid>, l: Uuid)
    requires NoDuplicates(labels)
    ensures NoDuplicates(DropFirst(labels, l))
    ensures forall x :: x in DropFirst(labels, l) <==> x in labels && x != l
  {
    if labels != [] {
      var first, rest := labels[0], labels[1..];
      assert labels == [first] + rest;
      assert first !in rest by {
        assert forall j | 0 <= j < |rest| :: rest[j] == labels[j + 1];
      }
      if first != l {
        DropFirstExact(rest, l);
        PrependFresh(first, DropFirst(rest, l));
      }
    }
  }

  lemma PrependFresh(x: Uuid, labels: seq<Uuid>)
    requires NoDuplicates(labels) && x !in labels
    ensures NoDuplicates([x] + labels)
  {
    var all := [x] + labels;
    forall i, j | 0 <= i < j < |all| ensures all[i] != all[j] {
      assert all[j] == labels[j - 1];
    }
  }

  datatype LabelChange = Add(labelId: Uuid) | Drop(labelId: Uuid)

  function Relabelled(t: Task, changes: seq<LabelChange>, now: Time): Task {
    if changes == [] then t
    else
      var before := Relabelled(t, changes[..|changes| - 1], now);
      match changes[|changes| - 1]
      case Add(l) => WithLabel(before, l, now)
      case Drop(l) => WithoutLabel(before, l, now)
  }

  function LabelSet(changes: seq<LabelChange>): set<Uuid> {
    if changes == [] then {}
    else
      var before := LabelSet(changes[..|changes| - 1]);
      match changes[|changes| - 1]
      case Add(l) => before + {l}
      case Drop(l) => before - {l}
  }

  /** Whatever labels are added and removed, the list holds each label of the set once, and nothing else changes. */
  lemma {:induction false} LabelsAreASet(t: Task, changes: seq<LabelChange>, now: Time)
    requires t.labels == []
    ensures var r := Relabelled(t, changes, now);
            && NoDuplicates(r.labels)
            && (forall x :: x in r.labels <==> x in LabelSet(changes))
            && r == t.(labels := r.labels, updatedAt := r.updatedAt)
  {
    if changes != [] {
      var init, last := changes[..|changes| - 1], changes[|changes| - 1];
      LabelsAreASet(t, init, now);
      var before := Relabelled(t, init, now);
      if last.Drop? {
        DropFirstExact(before.labels, last.labelId);
      }
    }
  }

  // ---- Runs ----

  datatype TaskStep =
    | CreateStep(input: TaskInput, creatorId: Uuid, id: Uuid, publishes: bool)
    | UpdateStep(id: Uuid, change: TaskChange, publishes: bool)
    | DeleteStep(id: Uuid, publishes: bool)
    | GetStep(id: Uuid)
    | ListStep(valid: bool, filter: TaskFilter, page: Pagination)
    | AssignStep(id: Uuid, assigneeId: Uuid, publishes: bool)
    | UnassignStep(id: Uuid, publishes: bool)
    | ChangeStatusStep(id: Uuid, status: Option<Status>, publishes: bool)
    | CompleteStep(id: Uuid, publishes: bool)
    | ArchiveStep(id: Uuid, publishes: bool)
    | AddLabelStep(id: Uuid, labelId: Uuid, publishes: bool)
    | RemoveLabelStep(id: Uuid, labelId: Uuid, publishes: bool)
    | SweepStep
    | UserAddedStep(user: Uuid)
    | UserDeletedStep(user: Uuid)

  ghost function Exec(dir: Directory, s: TaskState, now: Time, step: TaskStep): TaskState {
    match step
    case CreateStep(input, creatorId, id, p) => CreateTask(s, dir, now, input, creatorId, id, p).0
    case UpdateStep(id, c, p) => UpdateTask(s, now, id, c, p).0
    case DeleteStep(id, p) => DeleteTask(s, id, p).0
    case GetStep(id) => GetTask(s, now, id).0
    case ListStep(valid, f, page) => ListTasks(s, dir, now, valid, f, page).0
    case AssignStep(id, assigneeId, p) => AssignTask(s, now, id, assigneeId, p).0
    case UnassignStep(id, p) => UnassignTask(s, now, id, p).0
    case ChangeStatusStep(id, status, p) => ChangeTaskStatus(s, now, id, status, p).0
    case CompleteStep(id, p) => CompleteTask(s, now, id, p).0
    case ArchiveStep(id, p) => ArchiveTask(s, now, id, p).0
    case AddLabelStep(id, l, p) => AddLabel(s, dir, now, id, l, p).0
    case RemoveLabelStep(id, l, p) => RemoveLabel(s, now, id, l, p).0
    case SweepStep => s.(cache := Swept(s.cache, now))
    case UserAddedStep(user) => s.(users := s.users + {user})
    case UserDeletedStep(user) => UserDeleted(s, now, user)
  }

  datatype TimedStep = TimedStep(at: Time, step: TaskStep)

  ghost function Run(dir: Directory, start: TaskState, trace: seq<TimedStep>): TaskState {
    if trace == [] then start
    else
      var last := trace[|trace| - 1];
      Exec(dir, Run(dir, start, trace[..|trace| - 1]), last.at, last.step)
  }

  /** Generated task IDs are not in use, and the clock never goes back. */
  ghost predicate Proper(dir: Directory, start: TaskState, trace: seq<TimedStep>) {
    trace == [] ||
    var init, last := trace[..|trace| - 1], trace[|trace| - 1];
    && Proper(dir, start, init)
    && (init != [] ==> init[|init| - 1].at <= last.at)
    && (last.step.CreateStep? ==> last.step.id !in Run(dir, start, init).tasks)
  }

  /** The IDs generated so far, whether or not a task came of it. */
  function CreatedIds(trace: seq<TimedStep>): set<Uuid> {
    if trace == [] then {}
    else
      var init, last := trace[..|trace| - 1], trace[|trace| - 1].step;
      CreatedIds(init) + if last.CreateStep? then {last.id} else {}
  }

  /** A generated task ID is never generated again. */
  predicate NewIds(trace: seq<TimedStep>) {
    trace == [] ||
    var init, last := trace[..|trace| - 1], trace[|trace| - 1].step;
    NewIds(init) && (last.CreateStep? ==> last.id !in CreatedIds(init))
  }

  /** Nothing stored, cached or published yet; there may be users. */
  ghost predicate Empty(s: TaskState) {
    s.tasks == map[] && s.cache == imap[] && s.events == []
  }

  predicate NotBefore(trace: seq<TimedStep>, now: Time) {
    trace == [] || trace[|trace| - 1].at <= now
  }

  // ---- What one step does to the rows ----

  function StatusOf(s: TaskState, id: Uuid): Option<Status> {
    if id in s.tasks then Some(s.tasks[id].status) else None
  }

  /** Rows are stored under their own ID and hold no labels. */
  ghost predicate SoundRows(tasks: map<Uuid, Task>) {
    forall id | id in tasks :: tasks[id].id == id && tasks[id].labels == []
  }

  lemma CreatedRow(dir: Directory, s: TaskState, now: Time, step: TaskStep)
    requires step.CreateStep?
    ensures var s' := Exec(dir, s, now, step);
            s' == s || (step.id in s'.tasks && s'.tasks == s.tasks[step.id := s'.tasks[step.id]]
              && s'.tasks[step.id].id == step.id && s'.tasks[step.id].labels == [] && s'.tasks[step.id].status == Todo
              && s'.cache == TaskListsDropped(s.cache)
              && s'.events == Published(s.events, Created(step.id), step.publishes))
  {
    var input := step.input;
    if CreateTask(s, dir, now, input, step.creatorId, step.id, step.publishes).1.Ok? {
      WithLabelsKeeps(Task(step.id, input.title, input.description, Todo, input.priority.value, input.dueDate, input.assigneeId,
                           step.creatorId, [], now, now), input.labelIds, now);
    }
  }

  /** Steps that change one existing row. */
  predicate Mutates(step: TaskStep) {
    !(step.CreateStep? || step.DeleteStep? || step.GetStep? || step.ListStep? || step.SweepStep? || OfUser(step))
  }

  predicate OfUser(step: TaskStep) {
    step.UserAddedStep? || step.UserDeletedStep?
  }

  /** The entity a mutation stores and the event it tries to publish, or nothing if it fails. */
  function Mutation(dir: Directory, s: TaskState, now: Time, step: TaskStep): Option<(Task, Option<TaskEvent>)>
    requires Mutates(step)
  {
    if step.id !in s.tasks then None
    else
      var t := s.tasks[step.id];
      match step
      case UpdateStep(id, c, _) =>
        if !c.valid || c.title == Some("") || c.priority == Some(None) then None
        else Some((Changed(t, c, now), Some(Updated(id))))
      case AssignStep(id, u, _) =>
        if u !in s.users || DoAssign(t, u, now).Err? then None else Some((DoAssign(t, u, now).value, Some(Assigned(id, u))))
      case UnassignStep(id, _) =>
        Some((t.(assigneeId := None, updatedAt := now), if t.assigneeId.Some? then Some(Unassigned(id, t.assigneeId.value)) else None))
      case ChangeStatusStep(id, status, _) =>
        if status.None? || DoChangeStatus(t, status.value, now).Err? then None
        else Some((DoChangeStatus(t, status.value, now).value, Some(StatusChanged(id, t.status, status.value))))
      case CompleteStep(id, _) => if DoComplete(t, now).Err? then None else Some((DoComplete(t, now).value, Some(Completed(id))))
      case ArchiveStep(id, _) => if DoArchive(t, now).Err? then None else Some((DoArchive(t, now).value, Some(ArchivedTask(id))))
      case AddLabelStep(id, l, _) => if l !in dir.labels then None else Some((WithLabel(t, l, now), Some(LabelAdded(id, l))))
      case RemoveLabelStep(id, l, _) => Some((WithoutLabel(t, l, now), Some(LabelRemoved(id, l))))
  }

  lemma MutationIsStep(dir: Directory, s: TaskState, now: Time, step: TaskStep)
    requires Mutates(step)
    ensures var m, s' := Mutation(dir, s, now, step), Exec(dir, s, now, step);
            if m.None? then s' == s else step.id in s.tasks && s' == Mutated(s, now, step.id, m.value.0, m.value.1, step.publishes)
  {
  }

  lemma StepSoundRows(dir: Directory, s: TaskState, now: Time, step: TaskStep)
    requires SoundRows(s.tasks)
    ensures SoundRows(Exec(dir, s, now, step).tasks)
  {
    if step.CreateStep? {
      CreatedRow(dir, s, now, step);
    } else if Mutates(step) {
      MutationIsStep(dir, s, now, step);
      if Mutation(dir, s, now, step).Some? {
        MutationKeepsId(dir, s, now, step);
      }
    } else {
      OtherSoundRows(dir, s, now, step);
    }
  }

  lemma OtherSoundRows(dir: Directory, s: TaskState, now: Time, step: TaskStep)
    requires SoundRows(s.tasks) && !step.CreateStep? && !Mutates(step)
    ensures SoundRows(Exec(dir, s, now, step).tasks)
  {
  }

  lemma MutationKeepsId(dir: Directory, s: TaskState, now: Time, step: TaskStep)
    requires Mutates(step) && Mutation(dir, s, now, step).Some?
    ensures step.id in s.tasks && Mutation(dir, s, now, step).value.0.id == s.tasks[step.id].id
  {
  }

  lemma {:induction false} WithLabelsKeeps(t: Task, labelIds: seq<Uuid>, now: Time)
    requires t.updatedAt == now
    ensures var r := WithLabels(t, labelIds, now); r == t.(labels := r.labels)
    decreases |labelIds|
  {
    if labelIds != [] {
      WithLabelsKeeps(t, labelIds[..|labelIds| - 1], now);
    }
  }

  // ---- The phase of a task never falls ----

  function Phase(s: Status): nat {
    match s
    case Todo => 0
    case InProgress => 0
    case InReview => 0
    case Done => 1
    case Archived => 2
  }

  lemma StepPhase(dir: Directory, s: TaskState, now: Time, step: TaskStep, id: Uuid)
    requires step.CreateStep? ==> step.id !in s.tasks
    requires id in s.tasks && id in Exec(dir, s, now, step).tasks
    ensures Phase(s.tasks[id].status) <= Phase(Exec(dir, s, now, step).tasks[id].status)
  {
    if step.CreateStep? {
      CreatedRow(dir, s, now, step);
    } else if Mutates(step) {
      MutationIsStep(dir, s, now, step);
    }
  }

  /** From any point of a run to any later one, a task that was there all along has not gone back a phase. */
  lemma {:induction false} PhaseNeverFalls(dir: Directory, start: TaskState, trace: seq<TimedStep>, n: nat, id: Uuid)
    requires Proper(dir, start, trace) && n <= |trace|
    requires forall k | n <= k <= |trace| :: id in Run(dir, start, trace[..k]).tasks
    ensures Phase(Run(dir, start, trace[..n]).tasks[id].status) <= Phase(Run(dir, start, trace[..|trace|]).tasks[id].status)
    decreases |trace|
  {
    assert trace[..|trace|] == trace;
    if n < |trace| {
      var init, last := trace[..|trace| - 1], trace[|trace| - 1];
      forall k | n <= k <= |init| ensures id in Run(dir, start, init[..k]).tasks {
        assert init[..k] == trace[..k];
      }
      assert init[..|init|] == init && init[..n] == trace[..n];
      PhaseNeverFalls(dir, start, init, n, id);
      StepPhase(dir, Run(dir, start, init), last.at, last.step, id);
    }
  }

  // ---- Labels never reach storage ----

  /** In every run each stored row is under its own ID and carries no label, whatever labels were added. */
  lemma {:induction false} LabelsNeverStored(dir: Directory, start: TaskState, trace: seq<TimedStep>)
    requires Empty(start)
    ensures SoundRows(Run(dir, start, trace).tasks)
    decreases |trace|
  {
    if trace != [] {
      LabelsNeverStored(dir, start, trace[..|trace| - 1]);
      StepSoundRows(dir, Run(dir, start, trace[..|trace| - 1]), trace[|trace| - 1].at, trace[|trace| - 1].step);
    }
  }

  /** What an update stores is what it answers, up to the time stamp, unless it blanks a description that was not blank. */
  lemma UpdateStoredExactly(s: TaskState, now: Time, id: Uuid, c: TaskChange, publishes: bool)
    requires SoundRows(s.tasks) && UpdateTask(s, now, id, c, publishes).1.Ok?
    ensures var (s', r) := UpdateTask(s, now, id, c, publishes);
            s'.tasks[id] == r.value.(updatedAt := now) <==> !(c.description == Some("") && s.tasks[id].description != "")
  {
  }

  // ---- Cached copies are exact ----

  ghost predicate CopyExact(s: TaskState, now: Time, id: Uuid) {
    Live(s.cache, now, TaskKey(id)) ==> id in s.tasks && s.cache[TaskKey(id)].value == CachedTask(s.tasks[id])
  }

  predicate PlainQuery(f: TaskFilter, p: Pagination) {
    ValidPagination(p) && PipeFree(f.search) && f.isOverdue.None?
  }

  function ListKey(f: TaskFilter, p: Pagination): Key {
    TaskListKey(TaskListText(f, p))
  }

  ghost predicate ListExact(dir: Directory, s: TaskState, now: Time, f: TaskFilter, p: Pagination) {
    Live(s.cache, now, ListKey(f, p)) ==> s.cache[ListKey(f, p)].value == CachedList(FindAll(dir, s.tasks, f, p))
  }

  ghost predicate CopiesExact(s: TaskState, now: Time) {
    forall id :: CopyExact(s, now, id)
  }

  ghost predicate ListsExact(dir: Directory, s: TaskState, now: Time) {
    forall f, p | PlainQuery(f, p) :: ListExact(dir, s, now, f, p)
  }

  lemma LaterExact(dir: Directory, s: TaskState, now: Time, later: Time)
    requires CopiesExact(s, now) && ListsExact(dir, s, now) && now <= later
    ensures CopiesExact(s, later) && ListsExact(dir, s, later)
  {
    forall id ensures CopyExact(s, later, id) { assert CopyExact(s, now, id); }
    forall f, p | PlainQuery(f, p) ensures ListExact(dir, s, later, f, p) { assert ListExact(dir, s, now, f, p); }
  }

  /** A step that changes at most one row, drops that row's entry and every list, and adds none. */
  ghost predicate Invalidates(s: TaskState, s': TaskState, id: Uuid) {
    && (forall j | j in s'.cache :: j in s.cache && s'.cache[j] == s.cache[j] && j != TaskKey(id) && !j.TaskListKey?)
    && (forall i | i != id :: (i in s.tasks <==> i in s'.tasks) && (i in s.tasks ==> s.tasks[i] == s'.tasks[i]))
  }

  lemma InvalidatingExact(dir: Directory, s: TaskState, s': TaskState, now: Time, id: Uuid)
    requires CopiesExact(s, now) && Invalidates(s, s', id)
    ensures CopiesExact(s', now) && ListsExact(dir, s', now)
  {
    forall i ensures CopyExact(s', now, i) { assert CopyExact(s, now, i); }
  }

  lemma MutationInvalidates(dir: Directory, s: TaskState, now: Time, step: TaskStep)
    requires Mutates(step) || step.DeleteStep?
    ensures var s' := Exec(dir, s, now, step); s' == s || Invalidates(s, s', step.id)
  {
    if Mutates(step) {
      MutationIsStep(dir, s, now, step);
    }
  }

  lemma NoListsExact(dir: Directory, s: TaskState, now: Time)
    requires forall j | j in s.cache :: !j.TaskListKey?
    ensures ListsExact(dir, s, now)
  {
  }

  /** A created task has no entry to drop: no copy of an ID that is not in use is live. */
  lemma CreateExact(dir: Directory, s: TaskState, now: Time, step: TaskStep)
    requires step.CreateStep? && step.id !in s.tasks && CopiesExact(s, now) && ListsExact(dir, s, now)
    ensures var s' := Exec(dir, s, now, step); CopiesExact(s', now) && ListsExact(dir, s', now)
  {
    CreatedRow(dir, s, now, step);
    var s' := Exec(dir, s, now, step);
    if s' != s {
      CreatedCopiesExact(s, s', now, step.id);
      NoListsExact(dir, s', now);
    }
  }

  lemma CreatedCopiesExact(s: TaskState, s': TaskState, now: Time, id: Uuid)
    requires id !in s.tasks && CopiesExact(s, now)
    requires id in s'.tasks && s'.tasks == s.tasks[id := s'.tasks[id]] && s'.cache == TaskListsDropped(s.cache)
    ensures CopiesExact(s', now)
  {
    forall i ensures CopyExact(s', now, i) { assert CopyExact(s, now, i); }
  }

  lemma ReadExact(dir: Directory, s: TaskState, now: Time, step: TaskStep)
    requires step.GetStep? || step.SweepStep? || step.UserAddedStep?
    requires CopiesExact(s, now) && ListsExact(dir, s, now)
    ensures var s' := Exec(dir, s, now, step); CopiesExact(s', now) && ListsExact(dir, s', now)
  {
    var s' := Exec(dir, s, now, step);
    forall i ensures CopyExact(s', now, i) { assert CopyExact(s, now, i); }
    forall f, p | PlainQuery(f, p) ensures ListExact(dir, s', now, f, p) { assert ListExact(dir, s, now, f, p); }
  }

  lemma SameListing(dir: Directory, tasks: map<Uuid, Task>, f: TaskFilter, p: Pagination, g: TaskFilter, q: Pagination)
    requires PlainQuery(f, p) && PlainQuery(g, q) && ListKey(f, p) == ListKey(g, q)
    ensures FindAll(dir, tasks, f, p) == FindAll(dir, tasks, g, q)
  {
    TaskListKeyInjective(f, p, g, q);
    assert f.(labelIds := []).status == f.status && f.(labelIds := []).search == f.search;
    assert SelectionOf(f) == SelectionOf(f.(labelIds := [])) == SelectionOf(g.(labelIds := [])) == SelectionOf(g);
  }

  lemma ListStepExact(dir: Directory, s: TaskState, now: Time, valid: bool, f: TaskFilter, p: Pagination)
    requires CopiesExact(s, now) && ListsExact(dir, s, now) && PlainQuery(f, p)
    ensures var s' := ListTasks(s, dir, now, valid, f, p).0; CopiesExact(s', now) && ListsExact(dir, s', now)
  {
    var s' := ListTasks(s, dir, now, valid, f, p).0;
    forall i ensures CopyExact(s', now, i) { assert CopyExact(s, now, i); }
    forall g, q | PlainQuery(g, q) ensures ListExact(dir, s', now, g, q) {
      assert ListExact(dir, s, now, g, q);
      if ListKey(g, q) == ListKey(f, p) {
        SameListing(dir, s.tasks, f, p, g, q);
      }
    }
  }

  // ---- The deletion of a user drops nothing from the cache ----

  /** A user's deletion leaves a copy of a task right exactly if the task was not theirs, in either role, or the copy is over. */
  lemma UserDeletedCopyExactly(s: TaskState, now: Time, user: Uuid, id: Uuid)
    requires user in s.users && CopyExact(s, now, id)
    ensures CopyExact(UserDeleted(s, now, user), now, id)
            <==> !(id in s.tasks && Concerns(user, s.tasks[id]) && Live(s.cache, now, TaskKey(id)))
  {
  }

  ghost predicate PlainListLive(s: TaskState, now: Time) {
    exists f, p :: PlainQuery(f, p) && Live(s.cache, now, ListKey(f, p))
  }

  lemma SmallerSubset(a: set<Uuid>, b: set<Uuid>, x: Uuid)
    requires a <= b && x in b - a
    ensures |a| < |b|
  {
    assert a + (b - a) == b && a * (b - a) == {} && |b - a| > 0;
  }

  /** If the user had created a task, every list counts one too many: the lists stay right exactly if none is live. */
  lemma UserDeletedListsExactly(dir: Directory, s: TaskState, now: Time, user: Uuid, id: Uuid)
    requires user in s.users && ListsExact(dir, s, now)
    requires id in s.tasks && s.tasks[id].creatorId == user
    ensures ListsExact(dir, UserDeleted(s, now, user), now) <==> !PlainListLive(s, now)
  {
    var s' := UserDeleted(s, now, user);
    SmallerSubset(s'.tasks.Keys, s.tasks.Keys, id);
    if PlainListLive(s, now) {
      var f, p :| PlainQuery(f, p) && Live(s.cache, now, ListKey(f, p));
      assert ListExact(dir, s, now, f, p);
      assert |s'.tasks| < |s.tasks|;
      assert FindAll(dir, s'.tasks, f, p).total != FindAll(dir, s.tasks, f, p).total;
      assert !ListExact(dir, s', now, f, p);
    }
  }

  lemma UnconcernedRows(s: TaskState, now: Time, user: Uuid)
    requires forall id | id in s.tasks :: !Concerns(user, s.tasks[id])
    ensures RowsWithoutUser(s.tasks, user, now) == s.tasks
  {
  }

  /** A user's deletion meets no copy of a task it reaches, nor any list if it reaches a task. */
  ghost predicate MeetsNoCopy(s: TaskState, now: Time, user: Uuid) {
    forall id | id in s.tasks && Concerns(user, s.tasks[id]) :: !Live(s.cache, now, TaskKey(id)) && !PlainListLive(s, now)
  }

  lemma UserDeletedExact(dir: Directory, s: TaskState, now: Time, user: Uuid)
    requires CopiesExact(s, now) && ListsExact(dir, s, now) && MeetsNoCopy(s, now, user)
    ensures var s' := UserDeleted(s, now, user); CopiesExact(s', now) && ListsExact(dir, s', now)
  {
    var s' := UserDeleted(s, now, user);
    if user in s.users {
      forall id ensures CopyExact(s', now, id) {
        assert CopyExact(s, now, id);
        UserDeletedCopyExactly(s, now, user, id);
      }
      if forall id | id in s.tasks :: !Concerns(user, s.tasks[id]) {
        UnconcernedRows(s, now, user);
        forall f, p | PlainQuery(f, p) ensures ListExact(dir, s', now, f, p) { assert ListExact(dir, s, now, f, p); }
      } else {
        assert !PlainListLive(s, now);
        forall f, p | PlainQuery(f, p) ensures ListExact(dir, s', now, f, p) { assert !Live(s.cache, now, ListKey(f, p)); }
      }
    }
  }

  ghost predicate LeavesCopiesRight(s: TaskState, now: Time, step: TaskStep) {
    && (step.ListStep? ==> PlainQuery(step.filter, step.page))
    && (step.UserDeletedStep? && step.user in s.users ==> MeetsNoCopy(s, now, step.user))
  }

  lemma StepExact(dir: Directory, s: TaskState, now: Time, step: TaskStep)
    requires CopiesExact(s, now) && ListsExact(dir, s, now)
    requires LeavesCopiesRight(s, now, step) && (step.CreateStep? ==> step.id !in s.tasks)
    ensures var s' := Exec(dir, s, now, step); CopiesExact(s', now) && ListsExact(dir, s', now)
  {
    var s' := Exec(dir, s, now, step);
    if step.CreateStep? {
      CreateExact(dir, s, now, step);
    } else if step.ListStep? {
      ListStepExact(dir, s, now, step.valid, step.filter, step.page);
    } else if step.GetStep? || step.SweepStep? || step.UserAddedStep? {
      ReadExact(dir, s, now, step);
    } else if step.UserDeletedStep? {
      if step.user in s.users {
        UserDeletedExact(dir, s, now, step.user);
      }
    } else {
      MutationInvalidates(dir, s, now, step);
      if s' != s {
        InvalidatingExact(dir, s, s', now, step.id);
      }
    }
  }

  /**
    In every run whose list queries are plain and whose user deletions meet no copy, each live copy of a task
    and each live list is what the database holds now.
   */
  lemma {:induction false} CopiesExactInRuns(dir: Directory, start: TaskState, trace: seq<TimedStep>, now: Time)
    requires Empty(start) && Proper(dir, start, trace) && NotBefore(trace, now)
    requires forall i | 0 <= i < |trace| :: LeavesCopiesRight(Run(dir, start, trace[..i]), trace[i].at, trace[i].step)
    ensures var s := Run(dir, start, trace); CopiesExact(s, now) && ListsExact(dir, s, now)
    decreases |trace|
  {
    if trace != [] {
      var init, last := trace[..|trace| - 1], trace[|trace| - 1];
      forall i | 0 <= i < |init| ensures LeavesCopiesRight(Run(dir, start, init[..i]), init[i].at, init[i].step) {
        assert init[..i] == trace[..i] && init[i] == trace[i];
      }
      CopiesExactInRuns(dir, start, init, last.at);
      StepExact(dir, Run(dir, start, init), last.at, last.step);
      LaterExact(dir, Run(dir, start, trace), last.at, now);
    }
  }

  // ---- Which copies are right after any run ----

  predicate Reaches(s: TaskState, user: Uuid, id: Uuid) {
    user in s.users && id in s.tasks && Concerns(user, s.tasks[id])
  }

  /** A user's deletion has reached the task since a read last found no copy of it. */
  ghost predicate ReachedSince(dir: Directory, start: TaskState, trace: seq<TimedStep>, id: Uuid) {
    trace != [] &&
    var init, last := trace[..|trace| - 1], trace[|trace| - 1];
    ReachedAfter(Run(dir, start, init), last.at, last.step, id, ReachedSince(dir, start, init, id))
  }

  ghost predicate ReachedAfter(s: TaskState, now: Time, step: TaskStep, id: Uuid, before: bool) {
    if step.UserDeletedStep? && Reaches(s, step.user, id) then true
    else before && !(step == GetStep(id) && !Live(s.cache, now, TaskKey(id)))
  }

  predicate IsCopyOf(e: TaskEntry, tasks: map<Uuid, Task>, id: Uuid) {
    id in tasks && e == CachedTask(tasks[id])
  }

  /** A reached copy still names an assignee, where its row names none or is gone. */
  predicate LeftBehind(e: TaskEntry, tasks: map<Uuid, Task>, id: Uuid) {
    e.CachedTask? && (id in tasks ==> tasks[id].assigneeId == None && e.task.assigneeId.Some?)
  }

  ghost predicate CopyLedger(s: TaskState, now: Time, id: Uuid, reached: bool, created: bool) {
    && (Live(s.cache, now, TaskKey(id)) ==>
          if reached then LeftBehind(s.cache[TaskKey(id)].value, s.tasks, id) else IsCopyOf(s.cache[TaskKey(id)].value, s.tasks, id))
    && (id in s.tasks || Live(s.cache, now, TaskKey(id)) ==> created)
  }

  lemma UserDeletedLedger(s: TaskState, now: Time, user: Uuid, id: Uuid, reached: bool, created: bool)
    requires CopyLedger(s, now, id, reached, created)
    ensures CopyLedger(UserDeleted(s, now, user), now, id, reached || Reaches(s, user, id), created)
  {
  }

  lemma GetLedger(s: TaskState, now: Time, id: Uuid, reached: bool, created: bool)
    requires CopyLedger(s, now, id, reached, created)
    ensures CopyLedger(GetTask(s, now, id).0, now, id, reached && Live(s.cache, now, TaskKey(id)), created)
  {
  }

  /** Steps that leave the task and its copy alone. */
  lemma SameLedger(s: TaskState, s': TaskState, now: Time, id: Uuid, reached: bool, created: bool)
    requires CopyLedger(s, now, id, reached, created)
    requires (id in s.tasks <==> id in s'.tasks) && (id in s.tasks ==> s'.tasks[id] == s.tasks[id])
    requires TaskKey(id) in s'.cache ==> TaskKey(id) in s.cache && s'.cache[TaskKey(id)] == s.cache[TaskKey(id)]
    ensures CopyLedger(s', now, id, reached, created)
  {
  }

  lemma CreateLedger(dir: Directory, s: TaskState, now: Time, step: TaskStep, id: Uuid, reached: bool, created: bool)
    requires CopyLedger(s, now, id, reached, created) && step.CreateStep? && (step.id == id ==> !created)
    ensures CopyLedger(Exec(dir, s, now, step), now, id, reached, created || step.id == id)
  {
    CreatedRow(dir, s, now, step);
  }

  lemma WriteLedger(dir: Directory, s: TaskState, now: Time, step: TaskStep, id: Uuid, reached: bool, created: bool)
    requires CopyLedger(s, now, id, reached, created) && (Mutates(step) || step.DeleteStep?)
    ensures CopyLedger(Exec(dir, s, now, step), now, id, reached, created)
  {
    var s' := Exec(dir, s, now, step);
    MutationInvalidates(dir, s, now, step);
    if s' != s {
      if step.id != id {
        SameLedger(s, s', now, id, reached, created);
      } else {
        assert TaskKey(id) !in s'.cache;
        WritesOnlyRows(dir, s, now, step);
      }
    }
  }

  lemma WritesOnlyRows(dir: Directory, s: TaskState, now: Time, step: TaskStep)
    requires Mutates(step) || step.DeleteStep?
    ensures Exec(dir, s, now, step).tasks.Keys <= s.tasks.Keys
  {
    if Mutates(step) {
      MutationIsStep(dir, s, now, step);
    }
  }

  lemma OtherLedger(dir: Directory, s: TaskState, now: Time, step: TaskStep, id: Uuid, reached: bool, created: bool)
    requires CopyLedger(s, now, id, reached, created)
    requires step.ListStep? || step.SweepStep? || step.UserAddedStep? || (step.GetStep? && step.id != id)
    ensures CopyLedger(Exec(dir, s, now, step), now, id, reached, created)
  {
    SameLedger(s, Exec(dir, s, now, step), now, id, reached, created);
  }

  lemma StepLedger(dir: Directory, s: TaskState, now: Time, step: TaskStep, id: Uuid, reached: bool, created: bool)
    requires CopyLedger(s, now, id, reached, created) && (step.CreateStep? && step.id == id ==> !created)
    ensures CopyLedger(Exec(dir, s, now, step), now, id, ReachedAfter(s, now, step, id, reached),
                       created || (step.CreateStep? && step.id == id))
  {
    if step.UserDeletedStep? {
      UserDeletedLedger(s, now, step.user, id, reached, created);
    } else if step == GetStep(id) {
      GetLedger(s, now, id, reached, created);
    } else if step.CreateStep? {
      CreateLedger(dir, s, now, step, id, reached, created);
    } else if Mutates(step) || step.DeleteStep? {
      WriteLedger(dir, s, now, step, id, reached, created);
    } else {
      OtherLedger(dir, s, now, step, id, reached, created);
    }
  }

  lemma {:induction false} CopyLedgerKept(dir: Directory, start: TaskState, trace: seq<TimedStep>, now: Time, id: Uuid)
    requires Empty(start) && Proper(dir, start, trace) && NewIds(trace) && NotBefore(trace, now)
    ensures CopyLedger(Run(dir, start, trace), now, id, ReachedSince(dir, start, trace, id), id in CreatedIds(trace))
    decreases |trace|
  {
    if trace != [] {
      var init, last := trace[..|trace| - 1], trace[|trace| - 1];
      CopyLedgerKept(dir, start, init, last.at, id);
      StepLedger(dir, Run(dir, start, init), last.at, last.step, id, ReachedSince(dir, start, init, id), id in CreatedIds(init));
    }
  }

  /**
    In every run, whatever is asked of it, a live copy of a task is the stored row exactly if no user's deletion
    has reached the task since the copy was made.
   */
  lemma CopyRightExactly(dir: Directory, start: TaskState, trace: seq<TimedStep>, now: Time, id: Uuid)
    requires Empty(start) && Proper(dir, start, trace) && NewIds(trace) && NotBefore(trace, now)
    requires Live(Run(dir, start, trace).cache, now, TaskKey(id))
    ensures var s := Run(dir, start, trace);
            IsCopyOf(s.cache[TaskKey(id)].value, s.tasks, id) <==> !ReachedSince(dir, start, trace, id)
  {
    CopyLedgerKept(dir, start, trace, now, id);
  }
}
