/** What the published events tell about the stored tasks, in runs that may lose some of them. */
module TaskEvents {
  import opened Prelude
  import opened CacheKeys
  import opened MemoryCache
  import opened EntryCache
  import opened ListKeys
  import opened Tasks
  import opened TaskTheorems

  // ---- Replaying events ----

  /** What an event says about a task's status. */
  function Replayed(before: Option<Status>, e: TaskEvent, id: Uuid): Option<Status> {
    if e.taskId != id then before
    else
      match e
      case Created(_) => Some(Todo)
      case Deleted(_) => None
      case StatusChanged(_, _, new_) => Some(new_)
      case Completed(_) => Some(Done)
      case ArchivedTask(_) => Some(Archived)
      case Updated(_) => before
      case Assigned(_, _) => before
      case Unassigned(_, _) => before
      case LabelAdded(_, _) => before
      case LabelRemoved(_, _) => before
  }

  function Replay(events: seq<TaskEvent>, id: Uuid): Option<Status> {
    if events == [] then None
    else Replayed(Replay(events[..|events| - 1], id), events[|events| - 1], id)
  }

  lemma {:induction false} ReplayAppend(events: seq<TaskEvent>, e: TaskEvent, id: Uuid)
    ensures Replay(events + [e], id) == Replayed(Replay(events, id), e, id)
  {
    assert (events + [e])[..|events|] == events;
  }

  /** The events tell every task's stored status. */
  ghost predicate Replays(s: TaskState) {
    forall id :: Replay(s.events, id) == StatusOf(s, id)
  }

  /** Every status change says truthfully what the status was before. */
  ghost predicate OldStatusTrue(events: seq<TaskEvent>) {
    forall k | 0 <= k < |events| && events[k].StatusChanged? ::
      Replay(events[..k], events[k].taskId) == Some(events[k].oldStatus)
  }

  // ---- What a step does to a status, told from the step and the rows before it ----

  /** The step's event gets through, or it has none to send. Nobody tells of the tasks that go with a deleted user. */
  predicate Publishes(step: TaskStep) {
    if step.UserDeletedStep? then false
    else step.GetStep? || step.ListStep? || step.SweepStep? || step.UserAddedStep? || step.publishes
  }

  predicate CreateAccepted(dir: Directory, s: TaskState, input: TaskInput, creatorId: Uuid) {
    && input.valid && input.priority.Some? && input.title != ""
    && (input.assigneeId.Some? ==> input.assigneeId.value in s.users)
    && (forall l | l in input.labelIds :: l in dir.labels)
    && creatorId in s.users
  }

  /** The step is about this task's status, and is not refused. */
  predicate SetsStatus(dir: Directory, s: TaskState, step: TaskStep, id: Uuid) {
    match step
    case CreateStep(input, creatorId, i, _) => i == id && CreateAccepted(dir, s, input, creatorId)
    case DeleteStep(i, _) => i == id && id in s.tasks
    case ChangeStatusStep(i, target, _) =>
      i == id && id in s.tasks && target.Some? && s.tasks[id].status != Archived && (s.tasks[id].status == Done ==> target == Some(Archived))
    case CompleteStep(i, _) => i == id && id in s.tasks && s.tasks[id].status != Archived
    case ArchiveStep(i, _) => i == id && id in s.tasks && s.tasks[id].status == Done
    case UserDeletedStep(user) => user in s.users && id in s.tasks && s.tasks[id].creatorId == user
    case _ => false
  }

  /** The status such a step sets. */
  function Target(step: TaskStep): Option<Status> {
    match step
    case CreateStep(_, _, _, _) => Some(Todo)
    case ChangeStatusStep(_, target, _) => target
    case CompleteStep(_, _) => Some(Done)
    case ArchiveStep(_, _) => Some(Archived)
    case _ => None
  }

  /** The step changes this task's status. */
  predicate Changes(dir: Directory, s: TaskState, step: TaskStep, id: Uuid) {
    SetsStatus(dir, s, step, id) && Target(step) != StatusOf(s, id)
  }

  lemma CreateOutcome(dir: Directory, s: TaskState, now: Time, step: TaskStep)
    requires step.CreateStep?
    ensures var s' := Exec(dir, s, now, step);
            if CreateAccepted(dir, s, step.input, step.creatorId)
            then step.id in s'.tasks && s'.tasks == s.tasks[step.id := s'.tasks[step.id]] && s'.tasks[step.id].status == Todo
              && s'.events == Published(s.events, Created(step.id), step.publishes)
            else s' == s
  {
    if CreateAccepted(dir, s, step.input, step.creatorId) {
      WithLabelsKeeps(Task(step.id, step.input.title, step.input.description, Todo, step.input.priority.value, step.input.dueDate,
                           step.input.assigneeId, step.creatorId, [], now, now), step.input.labelIds, now);
    }
  }

  lemma CreateStatusAfter(dir: Directory, s: TaskState, now: Time, step: TaskStep, id: Uuid)
    requires step.CreateStep?
    ensures StatusOf(Exec(dir, s, now, step), id) == if SetsStatus(dir, s, step, id) then Target(step) else StatusOf(s, id)
  {
    CreateOutcome(dir, s, now, step);
  }

  lemma MutationStatusAfter(dir: Directory, s: TaskState, now: Time, step: TaskStep, id: Uuid)
    requires Mutates(step)
    ensures StatusOf(Exec(dir, s, now, step), id) == if SetsStatus(dir, s, step, id) then Target(step) else StatusOf(s, id)
  {
    MutationIsStep(dir, s, now, step);
  }

  lemma OtherStatusAfter(dir: Directory, s: TaskState, now: Time, step: TaskStep, id: Uuid)
    requires !step.CreateStep? && !Mutates(step)
    ensures StatusOf(Exec(dir, s, now, step), id) == if SetsStatus(dir, s, step, id) then Target(step) else StatusOf(s, id)
  {
  }

  lemma StatusAfter(dir: Directory, s: TaskState, now: Time, step: TaskStep, id: Uuid)
    ensures StatusOf(Exec(dir, s, now, step), id) == if SetsStatus(dir, s, step, id) then Target(step) else StatusOf(s, id)
  {
    if step.CreateStep? {
      CreateStatusAfter(dir, s, now, step, id);
    } else if Mutates(step) {
      MutationStatusAfter(dir, s, now, step, id);
    } else {
      OtherStatusAfter(dir, s, now, step, id);
    }
  }

  /** The event of a step that sets a status says what it set, and other events say nothing about it. */
  ghost predicate Reports(dir: Directory, s: TaskState, step: TaskStep, e: TaskEvent) {
    && (forall id, before :: Replayed(before, e, id) == if SetsStatus(dir, s, step, id) then Target(step) else before)
    && (e.StatusChanged? ==> StatusOf(s, e.taskId) == Some(e.oldStatus))
  }

  ghost predicate Quiet(dir: Directory, s: TaskState, step: TaskStep) {
    forall id :: !SetsStatus(dir, s, step, id)
  }

  /** A step appends the one event that reports it, or nothing if the event is lost or there is nothing to report. */
  ghost predicate Told(dir: Directory, s: TaskState, step: TaskStep, events: seq<TaskEvent>) {
    || (events == s.events && (Quiet(dir, s, step) || !Publishes(step)))
    || (events != [] && events == s.events + [events[|events| - 1]] && Publishes(step) && Reports(dir, s, step, events[|events| - 1]))
  }

  lemma MutationReports(dir: Directory, s: TaskState, now: Time, step: TaskStep)
    requires Mutates(step)
    ensures var m := Mutation(dir, s, now, step);
            if m.None? || m.value.1.None? then Quiet(dir, s, step) else Reports(dir, s, step, m.value.1.value)
  {
  }

  lemma MutationTold(dir: Directory, s: TaskState, now: Time, step: TaskStep)
    requires Mutates(step)
    ensures Told(dir, s, step, Exec(dir, s, now, step).events)
  {
    MutationIsStep(dir, s, now, step);
    MutationReports(dir, s, now, step);
    var m := Mutation(dir, s, now, step);
    if m.Some? && m.value.1.Some? && step.publishes {
      assert (s.events + [m.value.1.value])[|s.events|] == m.value.1.value;
    }
  }

  lemma DeleteTold(dir: Directory, s: TaskState, now: Time, step: TaskStep)
    requires step.DeleteStep?
    ensures Told(dir, s, step, Exec(dir, s, now, step).events)
  {
    if step.id in s.tasks && step.publishes {
      assert (s.events + [Deleted(step.id)])[|s.events|] == Deleted(step.id);
    }
  }

  lemma CreateTold(dir: Directory, s: TaskState, now: Time, step: TaskStep)
    requires step.CreateStep?
    ensures Told(dir, s, step, Exec(dir, s, now, step).events)
  {
    CreateOutcome(dir, s, now, step);
    if CreateAccepted(dir, s, step.input, step.creatorId) && step.publishes {
      assert (s.events + [Created(step.id)])[|s.events|] == Created(step.id);
    }
  }

  lemma StepTold(dir: Directory, s: TaskState, now: Time, step: TaskStep)
    ensures Told(dir, s, step, Exec(dir, s, now, step).events)
  {
    if step.CreateStep? {
      CreateTold(dir, s, now, step);
    } else if step.DeleteStep? {
      DeleteTold(dir, s, now, step);
    } else if Mutates(step) {
      MutationTold(dir, s, now, step);
    } else {
      assert Quiet(dir, s, step) || !Publishes(step);
    }
  }

  /** What the events say after a step. */
  lemma ReplayAfter(dir: Directory, s: TaskState, now: Time, step: TaskStep, id: Uuid)
    ensures Replay(Exec(dir, s, now, step).events, id)
            == if SetsStatus(dir, s, step, id) && Publishes(step) then Target(step) else Replay(s.events, id)
  {
    var events := Exec(dir, s, now, step).events;
    StepTold(dir, s, now, step);
    if events != s.events {
      ReplayAppend(s.events, events[|events| - 1], id);
    }
  }

  // ---- One lost event ----

  /**
    What a caller can check before a step whose event will be lost: it is refused, it sets no status, or it
    sets the one the task has.
   */
  predicate Harmless(dir: Directory, s: TaskState, step: TaskStep) {
    match step
    case CreateStep(input, creatorId, _, _) => !CreateAccepted(dir, s, input, creatorId)
    case DeleteStep(id, _) => id !in s.tasks
    case ChangeStatusStep(id, target, _) =>
      || target.None? || id !in s.tasks || s.tasks[id].status == Archived
      || (s.tasks[id].status == Done && target.value != Archived) || target.value == s.tasks[id].status
    case CompleteStep(id, _) => id !in s.tasks || !Open(s.tasks[id].status)
    case ArchiveStep(id, _) => id !in s.tasks || s.tasks[id].status != Done
    case UserDeletedStep(user) => user !in s.users || forall id | id in s.tasks :: s.tasks[id].creatorId != user
    case _ => true
  }

  lemma HarmlessExactly(dir: Directory, s: TaskState, step: TaskStep)
    requires step.CreateStep? ==> step.id !in s.tasks
    ensures Harmless(dir, s, step) <==> forall id :: !Changes(dir, s, step, id)
  {
    match step
    case CreateStep(input, creatorId, id, _) => assert Changes(dir, s, step, id) <==> CreateAccepted(dir, s, input, creatorId);
    case DeleteStep(id, _) => assert Changes(dir, s, step, id) <==> id in s.tasks;
    case ChangeStatusStep(id, _, _) => assert Changes(dir, s, step, id) <==> !Harmless(dir, s, step);
    case CompleteStep(id, _) => assert Changes(dir, s, step, id) <==> !Harmless(dir, s, step);
    case ArchiveStep(id, _) => assert Changes(dir, s, step, id) <==> !Harmless(dir, s, step);
    case UserDeletedStep(user) =>
      forall id | id in s.tasks && user in s.users && s.tasks[id].creatorId == user ensures Changes(dir, s, step, id) {}
    case _ =>
  }

  /** While the events tell every status, losing the event of the next step keeps it so exactly if the step is harmless. */
  lemma LostEventExact(dir: Directory, s: TaskState, now: Time, step: TaskStep)
    requires Replays(s) && !Publishes(step) && (step.CreateStep? ==> step.id !in s.tasks)
    ensures Replays(Exec(dir, s, now, step)) <==> Harmless(dir, s, step)
  {
    var s' := Exec(dir, s, now, step);
    HarmlessExactly(dir, s, step);
    forall id ensures Replay(s'.events, id) == StatusOf(s', id) <==> !Changes(dir, s, step, id) {
      assert Replay(s.events, id) == StatusOf(s, id);
      ReplayAfter(dir, s, now, step, id);
      StatusAfter(dir, s, now, step, id);
    }
  }

  lemma TruthAfter(dir: Directory, s: TaskState, now: Time, step: TaskStep)
    requires Replays(s) && OldStatusTrue(s.events)
    ensures OldStatusTrue(Exec(dir, s, now, step).events)
  {
    var events := Exec(dir, s, now, step).events;
    StepTold(dir, s, now, step);
    forall k | 0 <= k < |events| && events[k].StatusChanged?
      ensures Replay(events[..k], events[k].taskId) == Some(events[k].oldStatus)
    {
      if events != s.events {
        assert events[..|s.events|] == s.events;
        assert k < |s.events| ==> events[..k] == s.events[..k];
      }
    }
  }

  lemma StepReplays(dir: Directory, s: TaskState, now: Time, step: TaskStep)
    requires Replays(s) && (Publishes(step) || Harmless(dir, s, step))
    ensures Replays(Exec(dir, s, now, step))
  {
    var s' := Exec(dir, s, now, step);
    forall id ensures Replay(s'.events, id) == StatusOf(s', id) {
      assert Replay(s.events, id) == StatusOf(s, id);
      ReplayAfter(dir, s, now, step, id);
      StatusAfter(dir, s, now, step, id);
    }
  }

  /**
    While every event that is lost is a harmless one, replaying the events gives every task's stored status,
    and no event lies about the old one.
   */
  lemma {:induction false} EventsTellStatuses(dir: Directory, start: TaskState, trace: seq<TimedStep>)
    requires Empty(start)
    requires forall i | 0 <= i < |trace| :: Publishes(trace[i].step) || Harmless(dir, Run(dir, start, trace[..i]), trace[i].step)
    ensures var s := Run(dir, start, trace); Replays(s) && OldStatusTrue(s.events)
    decreases |trace|
  {
    if trace != [] {
      var init, last := trace[..|trace| - 1], trace[|trace| - 1];
      forall i | 0 <= i < |init| ensures Publishes(init[i].step) || Harmless(dir, Run(dir, start, init[..i]), init[i].step) {
        assert init[..i] == trace[..i] && init[i] == trace[i];
      }
      EventsTellStatuses(dir, start, init);
      StepReplays(dir, Run(dir, start, init), last.at, last.step);
      TruthAfter(dir, Run(dir, start, init), last.at, last.step);
    }
  }

  // ---- Any number of lost events ----

  /** The status the last event that got through has set for this task. */
  ghost function Heard(dir: Directory, start: TaskState, trace: seq<TimedStep>, id: Uuid): Option<Status> {
    if trace == [] then None
    else
      var init, last := trace[..|trace| - 1], trace[|trace| - 1].step;
      if SetsStatus(dir, Run(dir, start, init), last, id) && Publishes(last) then Target(last) else Heard(dir, start, init, id)
  }

  /** The last step that changed this task's status unheard, if none has been heard to set it since. */
  ghost function LostSince(dir: Directory, start: TaskState, trace: seq<TimedStep>, id: Uuid): Option<TaskStep> {
    if trace == [] then None
    else
      var init, last := trace[..|trace| - 1], trace[|trace| - 1].step;
      var s := Run(dir, start, init);
      if SetsStatus(dir, s, last, id) && Publishes(last) then None
      else if Changes(dir, s, last, id) then Some(last)
      else LostSince(dir, start, init, id)
  }

  /** The lost step put the status back to what was last heard: an open status, or no task at all. */
  predicate PutsBack(step: TaskStep, heard: Option<Status>) {
    match step
    case ChangeStatusStep(_, target, _) => target.Some? && Open(target.value) && heard == target
    case DeleteStep(_, _) => heard == None
    case UserDeletedStep(_) => heard == None
    case _ => false
  }

  /** What the run knows of one task: its stored status, the heard one, the step lost since, and whether its ID is in use. */
  ghost predicate Ledger(status: Option<Status>, heard: Option<Status>, lost: Option<TaskStep>, created: bool) {
    && (lost.None? ==> status == heard)
    && (lost.Some? ==> status == Target(lost.value) && (Target(lost.value) == heard <==> PutsBack(lost.value, heard)))
    && (status.Some? && heard.Some? ==> Phase(heard.value) <= Phase(status.value))
    && (status.Some? || heard.Some? ==> created)
  }

  /** A change of status goes forward, or stays within the open ones. */
  lemma LostLedger(dir: Directory, s: TaskState, step: TaskStep, id: Uuid, heard: Option<Status>, lost: Option<TaskStep>, created: bool)
    requires Ledger(StatusOf(s, id), heard, lost, created) && Changes(dir, s, step, id) && (step.CreateStep? ==> !created)
    ensures Ledger(Target(step), heard, Some(step), created || step.CreateStep?)
  {
  }

  lemma {:induction false} LedgerKept(dir: Directory, start: TaskState, trace: seq<TimedStep>, id: Uuid)
    requires Empty(start) && NewIds(trace)
    ensures var s := Run(dir, start, trace);
            && Replay(s.events, id) == Heard(dir, start, trace, id)
            && Ledger(StatusOf(s, id), Heard(dir, start, trace, id), LostSince(dir, start, trace, id), id in CreatedIds(trace))
    decreases |trace|
  {
    if trace != [] {
      var init, last := trace[..|trace| - 1], trace[|trace| - 1];
      var s := Run(dir, start, init);
      LedgerKept(dir, start, init, id);
      ReplayAfter(dir, s, last.at, last.step, id);
      StatusAfter(dir, s, last.at, last.step, id);
      if Changes(dir, s, last.step, id) {
        LostLedger(dir, s, last.step, id, Heard(dir, start, init, id), LostSince(dir, start, init, id), id in CreatedIds(init));
      }
    }
  }

  /**
    In every run, whatever events are lost, replaying the events gives a task's stored status exactly if no
    change of it was lost since one was last heard, or the last lost one put the status back to the heard one.
   */
  lemma ReplayRightExactly(dir: Directory, start: TaskState, trace: seq<TimedStep>, id: Uuid)
    requires Empty(start) && NewIds(trace)
    ensures var s, lost := Run(dir, start, trace), LostSince(dir, start, trace, id);
            Replay(s.events, id) == StatusOf(s, id) <==> lost.None? || PutsBack(lost.value, Heard(dir, start, trace, id))
  {
    LedgerKept(dir, start, trace, id);
  }

  /** Two lost changes of an open task that undo each other are no harmless ones, yet the replay is right again after the second. */
  lemma LostPairCancels(dir: Directory, s: TaskState, now: Time, id: Uuid, other: Status)
    requires Replays(s) && id in s.tasks && Open(s.tasks[id].status) && Open(other) && other != s.tasks[id].status
    ensures var there, back := ChangeStatusStep(id, Some(other), false), ChangeStatusStep(id, Some(s.tasks[id].status), false);
            var s1 := Exec(dir, s, now, there);
            !Harmless(dir, s, there) && !Harmless(dir, s1, back) && !Replays(s1) && Replays(Exec(dir, s1, now, back))
  {
    var there, back := ChangeStatusStep(id, Some(other), false), ChangeStatusStep(id, Some(s.tasks[id].status), false);
    var s1 := Exec(dir, s, now, there);
    var s2 := Exec(dir, s1, now, back);
    LostEventExact(dir, s, now, there);
    StatusAfter(dir, s, now, there, id);
    forall i ensures Replay(s2.events, i) == StatusOf(s2, i) {
      assert Replay(s.events, i) == StatusOf(s, i);
      ReplayAfter(dir, s, now, there, i);
      ReplayAfter(dir, s1, now, back, i);
      StatusAfter(dir, s, now, there, i);
      StatusAfter(dir, s1, now, back, i);
    }
  }
}
