/**
  What a stored row holds, column by column: the value the last step gave that was not refused and named the
  column, read off the trace. Which steps are refused, and what the answers say.
 */
module TaskColumns {
  import opened Prelude
  import opened CacheKeys
  import opened MemoryCache
  import opened EntryCache
  import opened ListKeys
  import opened Tasks
  import opened TaskTheorems
  import opened TaskEvents

  // ---- Which steps are refused ----

  /** The step writes a row, or deletes one: told from the step and the rows before it. */
  predicate Goes(dir: Directory, s: TaskState, step: TaskStep) {
    match step
    case CreateStep(input, creatorId, _, _) => CreateAccepted(dir, s, input, creatorId)
    case UpdateStep(id, c, _) => id in s.tasks && c.valid && c.title != Some("") && c.priority != Some(None)
    case DeleteStep(id, _) => id in s.tasks
    case AssignStep(id, u, _) => id in s.tasks && u in s.users && s.tasks[id].status != Archived
    case UnassignStep(id, _) => id in s.tasks
    case ChangeStatusStep(id, target, _) =>
      id in s.tasks && target.Some? && s.tasks[id].status != Archived && (s.tasks[id].status == Done ==> target == Some(Archived))
    case CompleteStep(id, _) => id in s.tasks && s.tasks[id].status != Archived
    case ArchiveStep(id, _) => id in s.tasks && s.tasks[id].status == Done
    case AddLabelStep(id, l, _) => id in s.tasks && l in dir.labels
    case RemoveLabelStep(id, _, _) => id in s.tasks
    case _ => false
  }

  /** What the step answers with, if it writes a row. */
  ghost function Answer(dir: Directory, s: TaskState, now: Time, step: TaskStep): Result<Task, TaskError>
    requires step.CreateStep? || Mutates(step)
  {
    match step
    case CreateStep(input, creatorId, id, p) => CreateTask(s, dir, now, input, creatorId, id, p).1
    case UpdateStep(id, c, p) => UpdateTask(s, now, id, c, p).1
    case AssignStep(id, u, p) => AssignTask(s, now, id, u, p).1
    case UnassignStep(id, p) => UnassignTask(s, now, id, p).1
    case ChangeStatusStep(id, target, p) => ChangeTaskStatus(s, now, id, target, p).1
    case CompleteStep(id, p) => CompleteTask(s, now, id, p).1
    case ArchiveStep(id, p) => ArchiveTask(s, now, id, p).1
    case AddLabelStep(id, l, p) => AddLabel(s, dir, now, id, l, p).1
    case RemoveLabelStep(id, l, p) => RemoveLabel(s, now, id, l, p).1
  }

  /** A refused step changes nothing; one that goes answers with the row it stores, up to stamp and blanked description. */
  lemma AnswersExactly(dir: Directory, s: TaskState, now: Time, step: TaskStep)
    requires SoundRows(s.tasks) && (step.CreateStep? || Mutates(step))
    ensures var s', answer := Exec(dir, s, now, step), Answer(dir, s, now, step);
            && (answer.Ok? <==> Goes(dir, s, step))
            && (answer.Err? ==> s' == s)
            && (answer.Ok? ==> step.id in s'.tasks && AnswerTells(answer.value, s'.tasks[step.id]))
  {
    if step.CreateStep? {
      CreatedColumns(dir, s, now, step);
    }
  }

  predicate AnswerTells(t: Task, row: Task) {
    t.(updatedAt := row.updatedAt, description := row.description) == row && (t.description != "" ==> t.description == row.description)
  }

  /** What a step tells the world: nothing of a task nobody was assigned to when it is unassigned. */
  function Tells(s: TaskState, step: TaskStep): Option<TaskEvent> {
    match step
    case CreateStep(_, _, id, _) => Some(Created(id))
    case UpdateStep(id, _, _) => Some(Updated(id))
    case DeleteStep(id, _) => Some(Deleted(id))
    case AssignStep(id, u, _) => Some(Assigned(id, u))
    case UnassignStep(id, _) => if id in s.tasks && s.tasks[id].assigneeId.Some? then Some(Unassigned(id, s.tasks[id].assigneeId.value)) else None
    case ChangeStatusStep(id, target, _) =>
      if id in s.tasks && target.Some? then Some(StatusChanged(id, s.tasks[id].status, target.value)) else None
    case CompleteStep(id, _) => Some(Completed(id))
    case ArchiveStep(id, _) => Some(ArchivedTask(id))
    case AddLabelStep(id, l, _) => Some(LabelAdded(id, l))
    case RemoveLabelStep(id, l, _) => Some(LabelRemoved(id, l))
    case _ => None
  }

  /** Every step that goes and whose event gets through appends that one event; no other step appends anything. */
  lemma EventsExactly(dir: Directory, s: TaskState, now: Time, step: TaskStep)
    ensures Exec(dir, s, now, step).events
         == s.events + if Goes(dir, s, step) && Publishes(step) && Tells(s, step).Some? then [Tells(s, step).value] else []
  {
    if step.CreateStep? {
      CreateOutcome(dir, s, now, step);
    } else if Mutates(step) {
      MutationIsStep(dir, s, now, step);
      MutationTells(dir, s, now, step);
    }
  }

  lemma MutationTells(dir: Directory, s: TaskState, now: Time, step: TaskStep)
    requires Mutates(step)
    ensures Goes(dir, s, step) <==> Mutation(dir, s, now, step).Some?
    ensures Goes(dir, s, step) ==> Mutation(dir, s, now, step).value.1 == Tells(s, step)
  {
  }

  // ---- What a step says of a column ----

  function SaysTitle(t: TimedStep): Option<string> {
    match t.step
    case CreateStep(input, _, _, _) => Some(input.title)
    case UpdateStep(_, c, _) => c.title
    case _ => None
  }

  /** An update to the empty description says nothing: the database keeps the old one. */
  function SaysDescription(t: TimedStep): Option<string> {
    match t.step
    case CreateStep(input, _, _, _) => Some(input.description)
    case UpdateStep(_, c, _) => if c.description == Some("") then None else c.description
    case _ => None
  }

  function SaysPriority(t: TimedStep): Option<Option<Priority>> {
    match t.step
    case CreateStep(input, _, _, _) => Some(input.priority)
    case UpdateStep(_, c, _) => c.priority
    case _ => None
  }

  function SaysDueDate(t: TimedStep): Option<Option<Time>> {
    match t.step
    case CreateStep(input, _, _, _) => Some(input.dueDate)
    case UpdateStep(_, c, _) => if c.dueDate.Some? then Some(c.dueDate) else if c.clearDueDate then Some(None) else None
    case _ => None
  }

  function SaysAssignee(t: TimedStep): Option<Option<Uuid>> {
    match t.step
    case CreateStep(input, _, _, _) => Some(input.assigneeId)
    case AssignStep(_, u, _) => Some(Some(u))
    case UnassignStep(_, _) => Some(None)
    case _ => None
  }

  function SaysStatus(t: TimedStep): Option<Option<Status>> {
    match t.step
    case CreateStep(_, _, _, _) => Some(Some(Todo))
    case ChangeStatusStep(_, target, _) => Some(target)
    case CompleteStep(_, _) => Some(Some(Done))
    case ArchiveStep(_, _) => Some(Some(Archived))
    case _ => None
  }

  function SaysCreator(t: TimedStep): Option<Option<Uuid>> {
    if t.step.CreateStep? then Some(Some(t.step.creatorId)) else None
  }

  function SaysCreated(t: TimedStep): Option<Time> {
    if t.step.CreateStep? then Some(t.at) else None
  }

  /** Every step that writes the row stamps it. */
  function SaysStamp(t: TimedStep): Option<Time> {
    Some(t.at)
  }

  predicate Writes(dir: Directory, s: TaskState, step: TaskStep, id: Uuid) {
    (step.CreateStep? || Mutates(step)) && step.id == id && Goes(dir, s, step)
  }

  function Said<T>(goes: bool, says: Option<T>, before: T): T {
    if goes && says.Some? then says.value else before
  }

  // ---- One step ----

  lemma CreatedColumns(dir: Directory, s: TaskState, now: Time, step: TaskStep)
    requires step.CreateStep?
    ensures var s', input := Exec(dir, s, now, step), step.input;
            if CreateAccepted(dir, s, input, step.creatorId)
            then s'.tasks == s.tasks[step.id := Task(step.id, input.title, input.description, Todo, input.priority.value, input.dueDate,
                                                     input.assigneeId, step.creatorId, [], now, now)]
            else s' == s
  {
    var input := step.input;
    if CreateAccepted(dir, s, input, step.creatorId) {
      WithLabelsKeeps(Task(step.id, input.title, input.description, Todo, input.priority.value, input.dueDate, input.assigneeId,
                           step.creatorId, [], now, now), input.labelIds, now);
    }
  }

  /** The row of a task before and after a step that is not about it, and is no deletion of a user. */
  lemma OtherRowsStay(dir: Directory, s: TaskState, now: Time, step: TaskStep, id: Uuid)
    requires !step.UserDeletedStep? && !Writes(dir, s, step, id) && id in Exec(dir, s, now, step).tasks
    ensures id in s.tasks && Exec(dir, s, now, step).tasks[id] == s.tasks[id]
  {
    if step.CreateStep? {
      CreatedColumns(dir, s, now, step);
    } else if Mutates(step) {
      MutationIsStep(dir, s, now, step);
      GoesIsMutation(dir, s, now, step);
    } else {
      ReadsKeepRows(dir, s, now, step, id);
    }
  }

  lemma ReadsKeepRows(dir: Directory, s: TaskState, now: Time, step: TaskStep, id: Uuid)
    requires !step.UserDeletedStep? && !step.CreateStep? && !Mutates(step) && id in Exec(dir, s, now, step).tasks
    ensures id in s.tasks && Exec(dir, s, now, step).tasks[id] == s.tasks[id]
  {
  }

  lemma GoesIsMutation(dir: Directory, s: TaskState, now: Time, step: TaskStep)
    requires Mutates(step)
    ensures Goes(dir, s, step) <==> Mutation(dir, s, now, step).Some?
  {
  }

  ghost predicate ColumnsFollow(dir: Directory, s: TaskState, t: TimedStep, id: Uuid, before: Task, after: Task) {
    var goes := Writes(dir, s, t.step, id);
    && after.id == id && after.labels == []
    && after.title == Said(goes, SaysTitle(t), before.title)
    && after.description == Said(goes, SaysDescription(t), before.description)
    && Some(after.priority) == Said(goes, SaysPriority(t), Some(before.priority))
    && after.dueDate == Said(goes, SaysDueDate(t), before.dueDate)
    && Some(after.status) == Said(goes, SaysStatus(t), Some(before.status))
    && Some(after.creatorId) == Said(goes, SaysCreator(t), Some(before.creatorId))
    && after.createdAt == Said(goes, SaysCreated(t), before.createdAt)
  }

  /** The two columns a user's deletion may change. */
  ghost predicate PeopleFollow(dir: Directory, s: TaskState, t: TimedStep, id: Uuid, before: Task, after: Task) {
    var goes := Writes(dir, s, t.step, id);
    var left := t.step.UserDeletedStep? && t.step.user in s.users && before.assigneeId == Some(t.step.user);
    && after.assigneeId == (if left then None else Said(goes, SaysAssignee(t), before.assigneeId))
    && after.updatedAt == (if left then t.at else Said(goes, SaysStamp(t), before.updatedAt))
  }

  function RowBefore(s: TaskState, id: Uuid): Task {
    if id in s.tasks then s.tasks[id] else Task(id, "", "", Todo, Low, None, None, id, [], 0, 0)
  }

  lemma WrittenColumns(dir: Directory, s: TaskState, t: TimedStep, id: Uuid)
    requires SoundRows(s.tasks) && Writes(dir, s, t.step, id)
    ensures id in Exec(dir, s, t.at, t.step).tasks
    ensures ColumnsFollow(dir, s, t, id, RowBefore(s, id), Exec(dir, s, t.at, t.step).tasks[id])
    ensures PeopleFollow(dir, s, t, id, RowBefore(s, id), Exec(dir, s, t.at, t.step).tasks[id])
  {
    if t.step.CreateStep? {
      CreatedColumns(dir, s, t.at, t.step);
    } else {
      MutationIsStep(dir, s, t.at, t.step);
      GoesIsMutation(dir, s, t.at, t.step);
      MutatedColumns(dir, s, t, id);
    }
  }

  /** The entity a mutation stores, as the columns are then written. */
  lemma MutatedColumns(dir: Directory, s: TaskState, t: TimedStep, id: Uuid)
    requires SoundRows(s.tasks) && Mutates(t.step) && Writes(dir, s, t.step, id) && id in s.tasks
    requires Mutation(dir, s, t.at, t.step).Some?
    ensures var row := UpdatedRow(s.tasks[id], Mutation(dir, s, t.at, t.step).value.0, t.at);
            ColumnsFollow(dir, s, t, id, s.tasks[id], row) && PeopleFollow(dir, s, t, id, s.tasks[id], row)
  {
  }

  lemma StepColumns(dir: Directory, s: TaskState, t: TimedStep, id: Uuid)
    requires SoundRows(s.tasks) && id in Exec(dir, s, t.at, t.step).tasks
    ensures ColumnsFollow(dir, s, t, id, RowBefore(s, id), Exec(dir, s, t.at, t.step).tasks[id])
    ensures PeopleFollow(dir, s, t, id, RowBefore(s, id), Exec(dir, s, t.at, t.step).tasks[id])
    ensures !Writes(dir, s, t.step, id) ==> id in s.tasks
  {
    if Writes(dir, s, t.step, id) {
      WrittenColumns(dir, s, t, id);
    } else if !t.step.UserDeletedStep? {
      OtherRowsStay(dir, s, t.at, t.step, id);
    }
  }

  // ---- Any run ----

  /** What the last step that wrote the row and said something of a column said of it. */
  ghost function LastSaid<T>(dir: Directory, start: TaskState, trace: seq<TimedStep>, id: Uuid, says: TimedStep -> Option<T>, none: T): T
    decreases |trace|
  {
    if trace == [] then none
    else
      var init, last := trace[..|trace| - 1], trace[|trace| - 1];
      Said(Writes(dir, Run(dir, start, init), last.step, id), says(last), LastSaid(dir, start, init, id, says, none))
  }

  /** The assignee last given, unless that user has been deleted since. */
  ghost function LastAssignee(dir: Directory, start: TaskState, trace: seq<TimedStep>, id: Uuid): Option<Uuid>
    decreases |trace|
  {
    if trace == [] then None
    else
      var init, last := trace[..|trace| - 1], trace[|trace| - 1];
      if Leaves(dir, start, trace, id) then None
      else Said(Writes(dir, Run(dir, start, init), last.step, id), SaysAssignee(last), LastAssignee(dir, start, init, id))
  }

  /** The last step deletes the user the task is assigned to. */
  ghost predicate Leaves(dir: Directory, start: TaskState, trace: seq<TimedStep>, id: Uuid)
    requires trace != []
    decreases |trace|, 0
  {
    var init, last := trace[..|trace| - 1], trace[|trace| - 1].step;
    last.UserDeletedStep? && last.user in Run(dir, start, init).users && LastAssignee(dir, start, init, id) == Some(last.user)
  }

  ghost function LastStamp(dir: Directory, start: TaskState, trace: seq<TimedStep>, id: Uuid): Time
    decreases |trace|
  {
    if trace == [] then 0
    else
      var init, last := trace[..|trace| - 1], trace[|trace| - 1];
      if Leaves(dir, start, trace, id) then last.at
      else Said(Writes(dir, Run(dir, start, init), last.step, id), SaysStamp(last), LastStamp(dir, start, init, id))
  }

  /** The row is what the trace says of each of its columns. */
  ghost predicate RowTold(dir: Directory, start: TaskState, trace: seq<TimedStep>, id: Uuid, row: Task) {
    && row.id == id && row.labels == []
    && row.title == LastSaid(dir, start, trace, id, SaysTitle, "")
    && row.description == LastSaid(dir, start, trace, id, SaysDescription, "")
    && Some(row.priority) == LastSaid(dir, start, trace, id, SaysPriority, None)
    && row.dueDate == LastSaid(dir, start, trace, id, SaysDueDate, None)
    && Some(row.status) == LastSaid(dir, start, trace, id, SaysStatus, None)
    && Some(row.creatorId) == LastSaid(dir, start, trace, id, SaysCreator, None)
    && row.createdAt == LastSaid(dir, start, trace, id, SaysCreated, 0)
    && row.assigneeId == LastAssignee(dir, start, trace, id)
    && row.updatedAt == LastStamp(dir, start, trace, id)
  }

  lemma StepTold(dir: Directory, start: TaskState, trace: seq<TimedStep>, id: Uuid, before: Task, after: Task)
    requires trace != []
    requires var init, last := trace[..|trace| - 1], trace[|trace| - 1];
             var s := Run(dir, start, init);
             && ColumnsFollow(dir, s, last, id, before, after) && PeopleFollow(dir, s, last, id, before, after)
             && ((Writes(dir, s, last.step, id) && last.step.CreateStep?) || RowTold(dir, start, init, id, before))
    ensures RowTold(dir, start, trace, id, after)
  {
  }

  /** In every run each stored row holds, column by column, what the last step that wrote the row and named the column gave. */
  lemma {:induction false} RowsAsTold(dir: Directory, start: TaskState, trace: seq<TimedStep>, id: Uuid)
    requires Empty(start) && id in Run(dir, start, trace).tasks
    ensures RowTold(dir, start, trace, id, Run(dir, start, trace).tasks[id])
    decreases |trace|
  {
    var init, last := trace[..|trace| - 1], trace[|trace| - 1];
    var s := Run(dir, start, init);
    LabelsNeverStored(dir, start, init);
    StepColumns(dir, s, last, id);
    if id in s.tasks {
      RowsAsTold(dir, start, init, id);
    }
    StepTold(dir, start, trace, id, RowBefore(s, id), Run(dir, start, trace).tasks[id]);
  }
}
