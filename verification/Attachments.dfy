/**
  The attachment saga: files in object storage, records in the database, clean-up requests in an event
  queue. Every call to one of them may work, fail, or fail after taking effect. Upload, roll-back,
  deletion and background clean-up are functions from state to state; the theorems account for every
  file in every run.
 */
module Attachments {
  import opened Prelude
  import opened FileNames

  datatype Outcome = Works | Fails | FailsAfter

  datatype Record = Record(id: Uuid, taskId: Uuid, filename: string, key: string)

  datatype Cleanup = Cleanup(taskId: Uuid, attachmentId: Uuid, key: string)

  /** Which dependencies the service was given at all. */
  datatype Services = Services(storage: bool, publisher: bool)

  /**
    The task rows with their creators, the attachment records, the files and the queue; then three accounts
    that only the statements use: the attachment every key was made for, the keys whose deletion was asked for,
    and the keys given up with nobody left to clean them.
   */
  datatype Depot = Depot(
    tasks: map<Uuid, Uuid>, records: map<Uuid, Record>, blobs: set<string>, queue: seq<Cleanup>,
    owner: map<string, Uuid>, doomed: set<string>, givenUp: set<string>)

  datatype UploadError = StorageUnavailable | TaskNotFound | InvalidFilename | UploadFailed | SaveFailed

  // ---- Single effects ----

  /** A key is made for an attachment. */
  function Named(d: Depot, r: Record): Depot {
    d.(owner := d.owner[r.key := r.id])
  }

  function WithFile(d: Depot, key: string): Depot {
    d.(blobs := d.blobs + {key})
  }

  function WithRecord(d: Depot, r: Record): Depot {
    d.(records := d.records[r.id := r])
  }

  /** The deletion of a file is asked for, and carried out or not. */
  function Doomed(d: Depot, key: string, gone: bool): Depot {
    d.(doomed := d.doomed + {key}, blobs := if gone then d.blobs - {key} else d.blobs)
  }

  function Enqueued(d: Depot, e: Cleanup): Depot {
    d.(queue := d.queue + [e])
  }

  function GivenUp(d: Depot, key: string): Depot {
    d.(givenUp := d.givenUp + {key})
  }

  function WithoutRecord(d: Depot, id: Uuid): Depot {
    d.(records := d.records - {id})
  }

  /** Deleting task rows takes the records of their attachments along. */
  function WithoutTasks(d: Depot, gone: set<Uuid>): Depot {
    d.(tasks := d.tasks - gone, records := map j | j in d.records && d.records[j].taskId !in gone :: d.records[j])
  }

  /** Deleting a user's row takes the rows of the tasks the user created along. */
  function TasksOf(d: Depot, user: Uuid): set<Uuid> {
    set t | t in d.tasks && d.tasks[t] == user
  }

  // ---- The operations ----

  /** Ask for a clean-up in the background; the answer is whether the publisher said it worked. */
  function RequestCleanup(sv: Services, d: Depot, e: Cleanup, pub: Outcome): (Depot, bool) {
    if !sv.publisher || pub == Fails then (d, false)
    else (Enqueued(d, e), pub == Works)
  }

  /** Delete the file, or failing that ask for its clean-up. */
  function DeleteObject(sv: Services, d: Depot, e: Cleanup, del: Outcome, pub: Outcome): (Depot, bool) {
    var asked := Doomed(d, e.key, sv.storage && del != Fails);
    if sv.storage && del == Works then (asked, true) else RequestCleanup(sv, asked, e, pub)
  }

  /** Undo an upload whose record could not be saved; when nobody can be asked, the file is given up. */
  function RollBack(sv: Services, d: Depot, e: Cleanup, del: Outcome, pub: Outcome): Depot {
    var d' := DeleteObject(sv, d, e, del, pub).0;
    if e.key in d'.blobs && d'.queue == d.queue then GivenUp(d', e.key) else d'
  }

  /** Make the key, store the file, then its record; if the record cannot be saved, take the file back. */
  function StoreBoth(sv: Services, d: Depot, r: Record, up: Outcome, save: Outcome, del: Outcome, pub: Outcome)
      : (Depot, Result<Record, UploadError>) {
    StoreNamed(sv, Named(d, r), r, up, save, del, pub)
  }

  function StoreNamed(sv: Services, d: Depot, r: Record, up: Outcome, save: Outcome, del: Outcome, pub: Outcome)
      : (Depot, Result<Record, UploadError>) {
    var d1 := WithFile(d, r.key);
    var d2 := if save == Fails then d1 else WithRecord(d1, r);
    if up == Fails then (d, Err(UploadFailed))
    else if up == FailsAfter then (GivenUp(d1, r.key), Err(UploadFailed))
    else if save == Works then (d2, Ok(r))
    else (RollBack(sv, d2, Cleanup(r.taskId, r.id, r.key), del, pub), Err(SaveFailed))
  }

  /** The record an upload would make. */
  function RecordFor(taskId: Uuid, filename: string, name: Uuid, id: Uuid): Record {
    var safe := SanitizeAttachmentFilename(filename);
    Record(id, taskId, safe, StorageKey(taskId, name, safe))
  }

  function Upload(sv: Services, d: Depot, taskId: Uuid, filename: string, name: Uuid, id: Uuid,
                  up: Outcome, save: Outcome, del: Outcome, pub: Outcome): (Depot, Result<Record, UploadError>) {
    if !sv.storage then (d, Err(StorageUnavailable))
    else if taskId !in d.tasks then (d, Err(TaskNotFound))
    else if !Acceptable(SanitizeAttachmentFilename(filename)) then (d, Err(InvalidFilename))
    else StoreBoth(sv, d, RecordFor(taskId, filename, name, id), up, save, del, pub)
  }

  datatype DeleteError = NotFound | CleanupUnavailable | DatabaseError

  function DeleteAttachment(sv: Services, d: Depot, taskId: Uuid, id: Uuid, del: Outcome, pub: Outcome, drop: Outcome)
      : (Depot, Result<(), DeleteError>) {
    if id !in d.records || d.records[id].taskId != taskId then (d, Err(NotFound))
    else
      var (d1, ok) := DeleteObject(sv, d, Cleanup(taskId, id, d.records[id].key), del, pub);
      if !ok then (d1, Err(CleanupUnavailable))
      else if drop == Fails then (d1, Err(DatabaseError))
      else (WithoutRecord(d1, id), if drop == Works then Ok(()) else Err(DatabaseError))
  }

  /** Delete the files of a list of records, stopping at the first that can be neither deleted nor queued. */
  function DeleteObjects(sv: Services, d: Depot, taskId: Uuid, listing: seq<Record>, outcomes: Uuid -> (Outcome, Outcome)): (Depot, bool)
    decreases |listing|
  {
    if listing == [] then (d, true)
    else
      var init, last := listing[..|listing| - 1], listing[|listing| - 1];
      var (d1, ok) := DeleteObjects(sv, d, taskId, init, outcomes);
      if !ok then (d1, false)
      else DeleteObject(sv, d1, Cleanup(taskId, last.id, last.key), outcomes(last.id).0, outcomes(last.id).1)
  }

  function DeleteTask(sv: Services, d: Depot, taskId: Uuid, listing: seq<Record>, outcomes: Uuid -> (Outcome, Outcome), drop: Outcome)
      : (Depot, Result<(), DeleteError>) {
    if taskId !in d.tasks then (d, Err(NotFound))
    else
      var (d1, ok) := DeleteObjects(sv, d, taskId, listing, outcomes);
      if !ok then (d1, Err(CleanupUnavailable))
      else if drop == Fails then (d1, Err(DatabaseError))
      else (WithoutTasks(d1, {taskId}), if drop == Works then Ok(()) else Err(DatabaseError))
  }

  /** The background handler takes an event off the queue and tries once; its failure is only logged. */
  function Handle(sv: Services, d: Depot, i: nat, del: Outcome): Depot
    requires i < |d.queue|
  {
    var key := d.queue[i].key;
    var d1 := d.(queue := d.queue[..i] + d.queue[i + 1..]);
    if !sv.storage || del == Fails then d1.(givenUp := d1.givenUp + {key})
    else d1.(blobs := d1.blobs - {key})
  }

  // ---- Runs ----

  datatype Step =
    | NewTask(taskId: Uuid, creator: Uuid)
    | UserDeleted(user: Uuid)
    | UploadStep(taskId: Uuid, filename: string, name: Uuid, id: Uuid, up: Outcome, save: Outcome, del: Outcome, pub: Outcome)
    | DeleteStep(taskId: Uuid, id: Uuid, del: Outcome, pub: Outcome, drop: Outcome)
    | DeleteTaskStep(taskId: Uuid, listing: seq<Record>, outcomes: Uuid -> (Outcome, Outcome), drop: Outcome)
    | HandleStep(index: nat, del: Outcome)
    | Redeliver(key: string, del: Outcome)

  /** The records of a task, in the order the database returns them. */
  ghost predicate Lists(d: Depot, taskId: Uuid, listing: seq<Record>) {
    && (forall r | r in listing :: r.id in d.records && d.records[r.id] == r && r.taskId == taskId)
    && (forall j | j in d.records && d.records[j].taskId == taskId :: d.records[j] in listing)
  }

  /** Generated UUIDs are new, task listings are complete, and an event may come a second time. */
  ghost predicate Enabled(d: Depot, step: Step) {
    match step
    case NewTask(taskId, _) => taskId !in d.tasks
    case UserDeleted(_) => true
    case UploadStep(_, _, name, id, _, _, _, _) =>
      (forall k | k in d.owner :: |k| >= 103 && NameIn(k) != name.text && d.owner[k] != id)
    case DeleteStep(_, _, _, _, _) => true
    case DeleteTaskStep(taskId, listing, _, _) => Lists(d, taskId, listing)
    case HandleStep(i, _) => i < |d.queue|
    case Redeliver(key, _) => key in d.doomed
  }

  ghost function Exec(sv: Services, d: Depot, step: Step): Depot
    requires Enabled(d, step)
  {
    match step
    case NewTask(taskId, creator) => d.(tasks := d.tasks[taskId := creator])
    case UserDeleted(user) => WithoutTasks(d, TasksOf(d, user))
    case UploadStep(taskId, filename, name, id, up, save, del, pub) => Upload(sv, d, taskId, filename, name, id, up, save, del, pub).0
    case DeleteStep(taskId, id, del, pub, drop) => DeleteAttachment(sv, d, taskId, id, del, pub, drop).0
    case DeleteTaskStep(taskId, listing, outcomes, drop) => DeleteTask(sv, d, taskId, listing, outcomes, drop).0
    case HandleStep(i, del) => Handle(sv, d, i, del)
    case Redeliver(key, del) => if sv.storage && del != Fails then d.(blobs := d.blobs - {key}) else d
  }

  const EMPTY := Depot(map[], map[], {}, [], map[], {}, {})

  /** The states a run goes through. */
  ghost predicate IsRun(sv: Services, states: seq<Depot>, steps: seq<Step>) {
    && |states| == |steps| + 1
    && states[0] == EMPTY
    && forall i | 0 <= i < |steps| :: Enabled(states[i], steps[i]) && states[i + 1] == Exec(sv, states[i], steps[i])
  }

  // ---- The invariant ----

  ghost predicate Referenced(d: Depot, key: string) {
    exists j :: j in d.records && d.records[j].key == key
  }

  ghost predicate Queued(d: Depot, key: string) {
    exists i :: 0 <= i < |d.queue| && d.queue[i].key == key
  }

  /** Someone will still clean the file up, or it is known to be given up. */
  ghost predicate InHand(d: Depot, key: string) {
    Queued(d, key) || key in d.givenUp
  }

  ghost predicate Settled(d: Depot, key: string) {
    key in d.blobs ==> InHand(d, key)
  }

  ghost predicate Accounted(d: Depot, key: string) {
    key in d.blobs ==> Referenced(d, key) || InHand(d, key)
  }

  /** Every key is known, belongs to one attachment, and whatever names it names that attachment. */
  ghost predicate Keyed(d: Depot) {
    && (forall k | k in d.owner :: |k| >= 103)
    && (forall j | j in d.records :: d.records[j].id == j && d.records[j].key in d.owner && d.owner[d.records[j].key] == j)
    && (forall i | 0 <= i < |d.queue| :: EventSound(d, d.queue[i]))
    && d.blobs <= d.owner.Keys && d.doomed <= d.owner.Keys
  }

  predicate EventSound(d: Depot, e: Cleanup) {
    e.key in d.owner && d.owner[e.key] == e.attachmentId && e.key in d.doomed
  }

  /** A record's file is there unless its deletion was asked for. */
  ghost predicate Kept(d: Depot) {
    forall j | j in d.records :: d.records[j].key in d.blobs || d.records[j].key in d.doomed
  }

  ghost predicate Sound(d: Depot) {
    Keyed(d) && Kept(d)
  }

  // ---- What single effects keep ----

  lemma StillInHand(d: Depot, d': Depot, key: string)
    requires InHand(d, key) && d.givenUp <= d'.givenUp && |d.queue| <= |d'.queue| && d'.queue[..|d.queue|] == d.queue
    ensures InHand(d', key)
  {
    if key !in d.givenUp {
      var i :| 0 <= i < |d.queue| && d.queue[i].key == key;
      assert d'.queue[i] == d'.queue[..|d.queue|][i];
    }
  }

  /** Same events: what was sound of them is, as long as owners stay and dooms grow. */
  lemma EventsSound(d: Depot, d': Depot)
    requires Keyed(d) && d'.queue == d.queue && d.doomed <= d'.doomed
    requires forall k | k in d.owner :: k in d'.owner && d'.owner[k] == d.owner[k]
    ensures forall i | 0 <= i < |d'.queue| :: EventSound(d', d'.queue[i])
  {
    forall i | 0 <= i < |d'.queue| ensures EventSound(d', d'.queue[i]) {
      assert EventSound(d, d.queue[i]);
    }
  }

  ghost predicate FreshRecord(d: Depot, r: Record) {
    r.key !in d.owner && |r.key| >= 103 && forall k | k in d.owner :: d.owner[k] != r.id
  }

  lemma NamedSound(d: Depot, r: Record)
    requires Sound(d) && FreshRecord(d, r)
    ensures Sound(Named(d, r)) && r.id !in d.records && r.key !in d.blobs && r.key !in d.doomed
  {
    EventsSound(d, Named(d, r));
  }

  lemma WithFileSound(d: Depot, key: string)
    requires Sound(d) && key in d.owner
    ensures Sound(WithFile(d, key))
  {
    EventsSound(d, WithFile(d, key));
  }

  lemma WithRecordSound(d: Depot, r: Record)
    requires Sound(d) && r.key in d.owner && d.owner[r.key] == r.id && (r.key in d.blobs || r.key in d.doomed)
    ensures Sound(WithRecord(d, r)) && Referenced(WithRecord(d, r), r.key)
  {
    var d' := WithRecord(d, r);
    EventsSound(d, d');
    assert d'.records[r.id].key == r.key;
  }

  lemma WithRecordKey(d: Depot, r: Record, key: string)
    requires Accounted(d, key) && r.id !in d.records
    ensures Accounted(WithRecord(d, r), key)
  {
    if key in d.blobs && !InHand(d, key) {
      var j :| j in d.records && d.records[j].key == key;
      assert WithRecord(d, r).records[j].key == key;
    }
  }

  lemma DoomedSound(d: Depot, key: string, gone: bool)
    requires Sound(d) && key in d.owner
    ensures Sound(Doomed(d, key, gone))
  {
    EventsSound(d, Doomed(d, key, gone));
  }

  lemma EnqueuedSound(d: Depot, e: Cleanup)
    requires Sound(d) && EventSound(d, e)
    ensures Sound(Enqueued(d, e)) && InHand(Enqueued(d, e), e.key)
  {
    var d' := Enqueued(d, e);
    forall i | 0 <= i < |d'.queue| ensures EventSound(d', d'.queue[i]) {
      assert i < |d.queue| ==> EventSound(d, d.queue[i]);
    }
    assert d'.queue[|d.queue|] == e;
  }

  lemma GivenUpSound(d: Depot, key: string)
    requires Sound(d)
    ensures Sound(GivenUp(d, key)) && InHand(GivenUp(d, key), key)
  {
    EventsSound(d, GivenUp(d, key));
  }

  /** An effect that adds no file, drops no record and takes nothing off the queue leaves every account in order. */
  lemma TidyKey(d: Depot, d': Depot, key: string)
    requires Accounted(d, key) && d'.records == d.records && d'.blobs <= d.blobs
    requires d.givenUp <= d'.givenUp && |d.queue| <= |d'.queue| && d'.queue[..|d.queue|] == d.queue
    ensures Accounted(d', key)
  {
    if key in d'.blobs && InHand(d, key) {
      StillInHand(d, d', key);
    }
  }

  lemma FewerRecordsSound(d: Depot, d': Depot)
    requires Sound(d) && d' == d.(tasks := d'.tasks, records := d'.records)
    requires forall j | j in d'.records :: j in d.records && d'.records[j] == d.records[j]
    ensures Sound(d')
  {
    EventsSound(d, d');
  }

  /** When records go, an account stays in order exactly if the file, if stored, is still referenced or is in hand. */
  lemma FewerRecordsKey(d: Depot, d': Depot, key: string)
    requires Accounted(d, key) && d' == d.(tasks := d'.tasks, records := d'.records)
    requires forall j | j in d'.records :: j in d.records && d'.records[j] == d.records[j]
    requires (exists j :: j in d.records && d.records[j].key == key && j !in d'.records) ==> Settled(d, key)
    ensures Accounted(d', key)
  {
    if key in d.blobs && !InHand(d, key) {
      var j :| j in d.records && d.records[j].key == key;
      assert j in d'.records && d'.records[j].key == key;
    }
  }

  // ---- Asking for a file's deletion ----

  /** It touches that file alone, and may queue one request for it. */
  ghost predicate OnlyThisFile(d: Depot, d': Depot, key: string) {
    && d'.tasks == d.tasks && d'.records == d.records && d'.owner == d.owner && d'.givenUp == d.givenUp
    && d.blobs - {key} <= d'.blobs <= d.blobs
    && d'.doomed == d.doomed + {key}
    && |d.queue| <= |d'.queue| && d'.queue[..|d.queue|] == d.queue
  }

  lemma DeleteObjectEffect(sv: Services, d: Depot, e: Cleanup, del: Outcome, pub: Outcome)
    ensures var (d', ok) := DeleteObject(sv, d, e, del, pub);
            && OnlyThisFile(d, d', e.key)
            && (d'.queue == d.queue || d'.queue == d.queue + [e])
            && (ok ==> Settled(d', e.key))
  {
    var d' := DeleteObject(sv, d, e, del, pub).0;
    if d'.queue == d.queue + [e] {
      assert d'.queue[|d.queue|].key == e.key;
    }
  }

  lemma DeleteObjectSound(sv: Services, d: Depot, e: Cleanup, del: Outcome, pub: Outcome)
    requires Sound(d) && e.key in d.owner && d.owner[e.key] == e.attachmentId
    ensures Sound(DeleteObject(sv, d, e, del, pub).0)
  {
    var asked := Doomed(d, e.key, sv.storage && del != Fails);
    DoomedSound(d, e.key, sv.storage && del != Fails);
    EnqueuedSound(asked, e);
  }

  lemma DeleteObjectKey(sv: Services, d: Depot, e: Cleanup, del: Outcome, pub: Outcome, key: string)
    requires Accounted(d, key)
    ensures Accounted(DeleteObject(sv, d, e, del, pub).0, key)
  {
    DeleteObjectEffect(sv, d, e, del, pub);
    TidyKey(d, DeleteObject(sv, d, e, del, pub).0, key);
  }

  /** A failure part way is the failure of the whole list. */
  lemma {:induction false} StopsThere(sv: Services, d: Depot, taskId: Uuid, listing: seq<Record>, outcomes: Uuid -> (Outcome, Outcome), n: nat)
    requires n <= |listing| && !DeleteObjects(sv, d, taskId, listing[..n], outcomes).1
    ensures DeleteObjects(sv, d, taskId, listing, outcomes) == DeleteObjects(sv, d, taskId, listing[..n], outcomes)
    decreases |listing|
  {
    if n < |listing| {
      var init := listing[..|listing| - 1];
      assert init[..n] == listing[..n];
      StopsThere(sv, d, taskId, init, outcomes, n);
    } else {
      assert listing[..n] == listing;
    }
  }

  // ---- Each operation ----

  lemma FreshKey(d: Depot, step: Step)
    requires step.UploadStep? && Enabled(d, step)
    ensures FreshRecord(d, RecordFor(step.taskId, step.filename, step.name, step.id))
  {
    KeyHoldsName(step.taskId, step.name, SanitizeAttachmentFilename(step.filename));
  }

  lemma RollBackSound(sv: Services, d: Depot, e: Cleanup, del: Outcome, pub: Outcome)
    requires Sound(d) && e.key in d.owner && d.owner[e.key] == e.attachmentId
    ensures Sound(RollBack(sv, d, e, del, pub))
  {
    DeleteObjectSound(sv, d, e, del, pub);
    GivenUpSound(DeleteObject(sv, d, e, del, pub).0, e.key);
  }

  /** Rolling back puts the file it is about in order, whatever it was before, and disturbs no other. */
  lemma RollBackKey(sv: Services, d: Depot, e: Cleanup, del: Outcome, pub: Outcome, key: string)
    requires key == e.key || Accounted(d, key)
    ensures Accounted(RollBack(sv, d, e, del, pub), key)
  {
    DeleteObjectEffect(sv, d, e, del, pub);
    var d1, d' := DeleteObject(sv, d, e, del, pub).0, RollBack(sv, d, e, del, pub);
    if key == e.key {
      assert d1.queue == d.queue + [e] ==> d'.queue[|d.queue|].key == key;
    } else {
      TidyKey(d, d', key);
    }
  }

  lemma StoreBothSound(sv: Services, d: Depot, r: Record, up: Outcome, save: Outcome, del: Outcome, pub: Outcome)
    requires Sound(d) && FreshRecord(d, r)
    ensures Sound(StoreBoth(sv, d, r, up, save, del, pub).0)
  {
    var d0, e := Named(d, r), Cleanup(r.taskId, r.id, r.key);
    var d1 := WithFile(d0, r.key);
    NamedSound(d, r);
    WithFileSound(d0, r.key);
    GivenUpSound(d1, r.key);
    WithRecordSound(d1, r);
    RollBackSound(sv, d1, e, del, pub);
    RollBackSound(sv, WithRecord(d1, r), e, del, pub);
  }

  lemma WithFileKey(d: Depot, k: string, key: string)
    requires Accounted(d, key) && key != k
    ensures Accounted(WithFile(d, k), key)
  {
    assert Queued(WithFile(d, k), key) <==> Queued(d, key);
    assert Referenced(WithFile(d, k), key) <==> Referenced(d, key);
  }

  /** The file is stored, in whatever order the account is: saving the record or rolling back puts it right. */
  lemma StoredKey(sv: Services, d: Depot, r: Record, save: Outcome, del: Outcome, pub: Outcome, key: string)
    requires r.id !in d.records && (key == r.key || Accounted(d, key))
    ensures var d2 := if save == Fails then d else WithRecord(d, r);
            Accounted(if save == Works then d2 else RollBack(sv, d2, Cleanup(r.taskId, r.id, r.key), del, pub), key)
  {
    var d2, e := if save == Fails then d else WithRecord(d, r), Cleanup(r.taskId, r.id, r.key);
    if key == r.key {
      assert WithRecord(d, r).records[r.id].key == key;
    } else if save != Fails {
      WithRecordKey(d, r, key);
    }
    if save != Works {
      RollBackKey(sv, d2, e, del, pub, key);
    }
  }

  lemma StoreBothKey(sv: Services, d: Depot, r: Record, up: Outcome, save: Outcome, del: Outcome, pub: Outcome, key: string)
    requires Sound(d) && FreshRecord(d, r) && Accounted(d, key)
    ensures Accounted(StoreBoth(sv, d, r, up, save, del, pub).0, key)
  {
    var d0 := Named(d, r);
    var d1 := WithFile(d0, r.key);
    NamedSound(d, r);
    TidyKey(d, d0, key);
    if key != r.key {
      WithFileKey(d0, r.key, key);
      TidyKey(d1, GivenUp(d1, r.key), key);
    }
    StoredKey(sv, d1, r, save, del, pub, key);
  }

  lemma UploadKeeps(sv: Services, d: Depot, step: Step, key: string)
    requires Sound(d) && step.UploadStep? && Enabled(d, step)
    ensures Sound(Exec(sv, d, step)) && (Accounted(d, key) ==> Accounted(Exec(sv, d, step), key))
  {
    var r := RecordFor(step.taskId, step.filename, step.name, step.id);
    FreshKey(d, step);
    StoreBothSound(sv, d, r, step.up, step.save, step.del, step.pub);
    if Accounted(d, key) {
      StoreBothKey(sv, d, r, step.up, step.save, step.del, step.pub, key);
    }
  }

  lemma DeleteAttachmentKeeps(sv: Services, d: Depot, taskId: Uuid, id: Uuid, del: Outcome, pub: Outcome, drop: Outcome, key: string)
    requires Sound(d)
    ensures var d' := DeleteAttachment(sv, d, taskId, id, del, pub, drop).0; Sound(d') && (Accounted(d, key) ==> Accounted(d', key))
  {
    if id in d.records && d.records[id].taskId == taskId {
      var e := Cleanup(taskId, id, d.records[id].key);
      DeleteObjectEffect(sv, d, e, del, pub);
      DeleteObjectSound(sv, d, e, del, pub);
      var d1 := DeleteObject(sv, d, e, del, pub).0;
      FewerRecordsSound(d1, WithoutRecord(d1, id));
      if Accounted(d, key) {
        DeleteObjectKey(sv, d, e, del, pub, key);
        if DeleteObject(sv, d, e, del, pub).1 {
          FewerRecordsKey(d1, WithoutRecord(d1, id), key);
        }
      }
    }
  }

  lemma {:induction false} DeleteObjectsKeeps(sv: Services, d: Depot, taskId: Uuid, listing: seq<Record>, outcomes: Uuid -> (Outcome, Outcome), key: string)
    requires Sound(d) && forall r | r in listing :: r.id in d.records && d.records[r.id] == r
    ensures var (d', ok) := DeleteObjects(sv, d, taskId, listing, outcomes);
            && Sound(d') && d'.records == d.records && d'.tasks == d.tasks && d'.givenUp == d.givenUp && d'.owner == d.owner
            && (ok ==> forall r | r in listing :: Settled(d', r.key))
            && (Accounted(d, key) ==> Accounted(d', key))
    decreases |listing|
  {
    if listing != [] {
      var init, last := listing[..|listing| - 1], listing[|listing| - 1];
      assert listing == init + [last];
      DeleteObjectsKeeps(sv, d, taskId, init, outcomes, key);
      var (d1, ok1) := DeleteObjects(sv, d, taskId, init, outcomes);
      if ok1 {
        var e := Cleanup(taskId, last.id, last.key);
        var (del, pub) := outcomes(last.id);
        assert last in listing;
        DeleteObjectEffect(sv, d1, e, del, pub);
        DeleteObjectSound(sv, d1, e, del, pub);
        if Accounted(d, key) {
          DeleteObjectKey(sv, d1, e, del, pub, key);
        }
        var (d', ok) := DeleteObject(sv, d1, e, del, pub);
        if ok {
          SettledAll(d1, d', init, last);
        }
      }
    }
  }

  lemma SettledAll(d: Depot, d': Depot, init: seq<Record>, last: Record)
    requires OnlyThisFile(d, d', last.key) && Settled(d', last.key)
    requires forall r | r in init :: Settled(d, r.key)
    ensures forall r | r in init + [last] :: Settled(d', r.key)
  {
    forall r | r in init + [last] ensures Settled(d', r.key) {
      if r in init {
        assert Settled(d, r.key);
        if r.key in d'.blobs {
          StillInHand(d, d', r.key);
        }
      }
    }
  }

  lemma DeleteTaskKeeps(sv: Services, d: Depot, taskId: Uuid, listing: seq<Record>, outcomes: Uuid -> (Outcome, Outcome), drop: Outcome, key: string)
    requires Sound(d) && Lists(d, taskId, listing)
    ensures var d' := DeleteTask(sv, d, taskId, listing, outcomes, drop).0; Sound(d') && (Accounted(d, key) ==> Accounted(d', key))
  {
    DeleteObjectsKeeps(sv, d, taskId, listing, outcomes, key);
    var (d1, ok) := DeleteObjects(sv, d, taskId, listing, outcomes);
    var d' := WithoutTasks(d1, {taskId});
    FewerRecordsSound(d1, d');
    if ok && Accounted(d, key) {
      forall j | j in d1.records && j !in d'.records ensures d1.records[j] in listing {
        assert d.records[j] in listing;
      }
      FewerRecordsKey(d1, d', key);
    }
  }

  lemma HandleKeeps(sv: Services, d: Depot, i: nat, del: Outcome, key: string)
    requires Sound(d) && i < |d.queue|
    ensures Sound(Handle(sv, d, i, del)) && (Accounted(d, key) ==> Accounted(Handle(sv, d, i, del), key))
    ensures Settled(d, key) ==> Settled(Handle(sv, d, i, del), key)
  {
    var d' := Handle(sv, d, i, del);
    assert EventSound(d, d.queue[i]);
    forall k | 0 <= k < |d'.queue| ensures EventSound(d', d'.queue[k]) {
      assert EventSound(d, d.queue[if k < i then k else k + 1]);
    }
    if key != d.queue[i].key && Queued(d, key) {
      var n :| 0 <= n < |d.queue| && d.queue[n].key == key;
      assert d'.queue[if n < i then n else n - 1].key == key;
    }
  }

  // ---- Deleting a user ----

  /** The cascade takes the record of a stored file that nobody has in hand. */
  ghost predicate Loses(d: Depot, step: Step, key: string) {
    && step.UserDeleted? && key in d.blobs && !InHand(d, key)
    && exists j :: j in d.records && d.records[j].key == key && d.records[j].taskId in TasksOf(d, step.user)
  }

  lemma CascadeKeeps(d: Depot, gone: set<Uuid>, key: string)
    requires Sound(d)
    ensures Sound(WithoutTasks(d, gone))
    ensures Accounted(d, key) ==>
      (Accounted(WithoutTasks(d, gone), key)
       <==> !(key in d.blobs && !InHand(d, key) && exists j :: j in d.records && d.records[j].key == key && d.records[j].taskId in gone))
  {
    var d' := WithoutTasks(d, gone);
    FewerRecordsSound(d, d');
    assert InHand(d', key) <==> InHand(d, key);
    if Accounted(d, key) && key in d.blobs && !InHand(d, key) {
      var j :| j in d.records && d.records[j].key == key;
      if d.records[j].taskId !in gone {
        assert d'.records[j].key == key;
        OneRecord(d, j, key);
      } else {
        OneRecord(d, j, key);
        assert !Referenced(d', key);
      }
    }
  }

  lemma OneRecord(d: Depot, j: Uuid, key: string)
    requires Sound(d) && j in d.records && d.records[j].key == key
    ensures forall i | i in d.records && d.records[i].key == key :: i == j
  {
  }

  /** Deleting a user makes orphans of exactly the stored files whose record's task the user created and for which nothing is queued. */
  lemma UserDeletedOrphansExactly(sv: Services, d: Depot, user: Uuid, key: string)
    requires Sound(d)
    ensures var d' := Exec(sv, d, UserDeleted(user));
            !Orphan(d, key) && Orphan(d', key)
            <==> && key in d.blobs && !Queued(d, key)
                 && exists j :: j in d.records && d.records[j].key == key && d.records[j].taskId in TasksOf(d, user)
  {
    var d' := Exec(sv, d, UserDeleted(user));
    assert Queued(d', key) <==> Queued(d, key);
    if key in d.blobs && !Queued(d, key) && Referenced(d, key) {
      var j :| j in d.records && d.records[j].key == key;
      OneRecord(d, j, key);
      if d.records[j].taskId !in TasksOf(d, user) {
        assert d'.records[j].key == key;
      }
    }
  }

  // ---- Every step ----

  lemma QuietKeeps(sv: Services, d: Depot, step: Step, key: string)
    requires Sound(d) && Enabled(d, step) && (step.NewTask? || step.Redeliver?)
    ensures Sound(Exec(sv, d, step)) && (Accounted(d, key) ==> Accounted(Exec(sv, d, step), key))
  {
    var d' := Exec(sv, d, step);
    EventsSound(d, d');
    if Accounted(d, key) {
      TidyKey(d, d', key);
    }
  }

  lemma StepSound(sv: Services, d: Depot, step: Step, key: string)
    requires Sound(d) && Enabled(d, step)
    ensures Sound(Exec(sv, d, step))
    ensures Accounted(d, key) ==> (Accounted(Exec(sv, d, step), key) <==> !Loses(d, step, key))
  {
    match step
    case NewTask(_, _) => QuietKeeps(sv, d, step, key);
    case Redeliver(_, _) => QuietKeeps(sv, d, step, key);
    case UserDeleted(user) => CascadeKeeps(d, TasksOf(d, user), key);
    case UploadStep(_, _, _, _, _, _, _, _) => UploadKeeps(sv, d, step, key);
    case DeleteStep(taskId, id, del, pub, drop) => DeleteAttachmentKeeps(sv, d, taskId, id, del, pub, drop, key);
    case DeleteTaskStep(taskId, listing, outcomes, drop) => DeleteTaskKeeps(sv, d, taskId, listing, outcomes, drop, key);
    case HandleStep(i, del) => HandleKeeps(sv, d, i, del, key);
  }

  // ---- What every run keeps ----

  lemma {:induction false} RunSound(sv: Services, states: seq<Depot>, steps: seq<Step>, n: nat)
    requires IsRun(sv, states, steps) && n <= |steps|
    ensures Sound(states[n])
  {
    if n > 0 {
      RunSound(sv, states, steps, n - 1);
      StepSound(sv, states[n - 1], steps[n - 1], "");
    }
  }

  /**
    In every run the file of every record is there unless its deletion was asked for; and a stored file is
    at all times referenced by a record, or queued for clean-up, or given up, if and only if no deletion of a
    user took the record of that file while it was stored and nobody had it in hand.
   */
  lemma {:induction false} EveryFileAccountedFor(sv: Services, states: seq<Depot>, steps: seq<Step>, n: nat, key: string)
    requires IsRun(sv, states, steps) && n <= |steps|
    ensures Sound(states[n])
    ensures (forall i | 0 <= i <= n :: Accounted(states[i], key)) <==> (forall i | 0 <= i < n :: !Loses(states[i], steps[i], key))
  {
    RunSound(sv, states, steps, n);
    if n > 0 {
      EveryFileAccountedFor(sv, states, steps, n - 1, key);
      StepSound(sv, states[n - 1], steps[n - 1], key);
    }
  }

  /** The three ways a file can be given up: stored by a failed upload, roll-back unqueued, clean-up failed. */
  predicate GivesUp(sv: Services, step: Step) {
    match step
    case UploadStep(_, _, _, _, up, save, del, pub) =>
      sv.storage && (up == FailsAfter || (up == Works && save != Works && del == Fails && (pub == Fails || !sv.publisher)))
    case HandleStep(_, del) => !sv.storage || del == Fails
    case NewTask(_, _) => false
    case UserDeleted(_) => false
    case DeleteStep(_, _, _, _, _) => false
    case DeleteTaskStep(_, _, _, _) => false
    case Redeliver(_, _) => false
  }

  lemma {:induction false} DeleteObjectsGivesUpNothing(sv: Services, d: Depot, taskId: Uuid, listing: seq<Record>, outcomes: Uuid -> (Outcome, Outcome))
    ensures DeleteObjects(sv, d, taskId, listing, outcomes).0.givenUp == d.givenUp
    decreases |listing|
  {
    if listing != [] {
      DeleteObjectsGivesUpNothing(sv, d, taskId, listing[..|listing| - 1], outcomes);
    }
  }

  lemma StoreBothGivesUpNothing(sv: Services, d: Depot, r: Record, up: Outcome, save: Outcome, del: Outcome, pub: Outcome)
    requires sv.storage && up != FailsAfter
    requires up == Works && save != Works && del == Fails ==> pub != Fails && sv.publisher
    ensures StoreBoth(sv, d, r, up, save, del, pub).0.givenUp == d.givenUp
  {
  }

  lemma StepGivesUp(sv: Services, d: Depot, step: Step)
    requires Enabled(d, step) && !GivesUp(sv, step)
    ensures Exec(sv, d, step).givenUp == d.givenUp
  {
    if step.UploadStep? {
      var r := RecordFor(step.taskId, step.filename, step.name, step.id);
      if sv.storage {
        StoreBothGivesUpNothing(sv, d, r, step.up, step.save, step.del, step.pub);
      }
    } else if step.DeleteTaskStep? {
      DeleteObjectsGivesUpNothing(sv, d, step.taskId, step.listing, step.outcomes);
    }
  }

  lemma {:induction false} NothingGivenUp(sv: Services, states: seq<Depot>, steps: seq<Step>, n: nat)
    requires IsRun(sv, states, steps) && n <= |steps| && forall i | 0 <= i < n :: !GivesUp(sv, steps[i])
    ensures states[n].givenUp == {}
  {
    if n > 0 {
      NothingGivenUp(sv, states, steps, n - 1);
      StepGivesUp(sv, states[n - 1], steps[n - 1]);
    }
  }

  /**
    If none of the three ever happens and no deletion of a user takes the record, then whenever the queue is
    empty a stored file has a record.
   */
  lemma NoOrphans(sv: Services, states: seq<Depot>, steps: seq<Step>, n: nat, key: string)
    requires IsRun(sv, states, steps) && n <= |steps| && forall i | 0 <= i < n :: !GivesUp(sv, steps[i])
    requires forall i | 0 <= i < n :: !Loses(states[i], steps[i], key)
    requires states[n].queue == [] && key in states[n].blobs
    ensures Referenced(states[n], key)
  {
    EveryFileAccountedFor(sv, states, steps, n, key);
    NothingGivenUp(sv, states, steps, n);
    assert Accounted(states[n], key);
  }

  // ---- The account is tight ----

  /** Nobody refers to the file and nobody will clean it up. */
  ghost predicate Orphan(d: Depot, key: string) {
    key in d.blobs && !Referenced(d, key) && !Queued(d, key)
  }

  lemma StoreBothOrphansExactly(sv: Services, d: Depot, r: Record, up: Outcome, save: Outcome, del: Outcome, pub: Outcome)
    requires Sound(d) && FreshRecord(d, r) && sv.storage
    ensures Orphan(StoreBoth(sv, d, r, up, save, del, pub).0, r.key)
       <==> up == FailsAfter || (up == Works && save == Fails && del == Fails && (pub == Fails || !sv.publisher))
  {
    KeyUnused(d, r.key);
    var d' := StoreBoth(sv, d, r, up, save, del, pub).0;
    var e := Cleanup(r.taskId, r.id, r.key);
    if d'.queue == d.queue + [e] {
      assert d'.queue[|d.queue|].key == r.key;
    }
    if d'.records == d.records[r.id := r] {
      assert d'.records[r.id].key == r.key;
    }
  }

  /** An upload leaves its file an orphan exactly when it fails in one of two ways. */
  lemma UploadOrphansExactly(sv: Services, d: Depot, step: Step)
    requires Sound(d) && step.UploadStep? && Enabled(d, step)
    ensures var r := RecordFor(step.taskId, step.filename, step.name, step.id);
            Orphan(Exec(sv, d, step), r.key)
            <==> && sv.storage && step.taskId in d.tasks && Acceptable(r.filename)
                 && (|| step.up == FailsAfter
                     || (step.up == Works && step.save == Fails && step.del == Fails && (step.pub == Fails || !sv.publisher)))
  {
    var r := RecordFor(step.taskId, step.filename, step.name, step.id);
    FreshKey(d, step);
    KeyUnused(d, r.key);
    if sv.storage {
      StoreBothOrphansExactly(sv, d, r, step.up, step.save, step.del, step.pub);
    }
  }

  lemma KeyUnused(d: Depot, key: string)
    requires Sound(d) && key !in d.owner
    ensures key !in d.blobs && !Referenced(d, key) && !Queued(d, key)
    ensures forall j | j in d.records :: d.records[j].key in d.owner && d.owner[d.records[j].key] == j
  {
    forall i | 0 <= i < |d.queue| ensures d.queue[i].key != key {
      assert EventSound(d, d.queue[i]);
    }
  }

  // ---- No operation touches another attachment's file ----

  /** The step is about this attachment: it deletes it, deletes its task, or handles a request made for it. */
  predicate About(d: Depot, step: Step, id: Uuid)
    requires id in d.records && (step.HandleStep? ==> step.index < |d.queue|)
  {
    match step
    case DeleteStep(_, i, _, _, _) => i == id
    case DeleteTaskStep(taskId, _, _, _) => d.records[id].taskId == taskId
    case HandleStep(i, _) => d.queue[i].attachmentId == id
    case Redeliver(key, _) => key in d.owner && d.owner[key] == id
    case NewTask(_, _) => false
    case UserDeleted(_) => false
    case UploadStep(_, _, _, _, _, _, _, _) => false
  }

  lemma {:induction false} DeleteObjectsOnly(sv: Services, d: Depot, taskId: Uuid, listing: seq<Record>, outcomes: Uuid -> (Outcome, Outcome), key: string)
    requires key in d.blobs && forall r | r in listing :: r.key != key
    ensures key in DeleteObjects(sv, d, taskId, listing, outcomes).0.blobs
    decreases |listing|
  {
    if listing != [] {
      DeleteObjectsOnly(sv, d, taskId, listing[..|listing| - 1], outcomes, key);
    }
  }

  lemma UploadOnly(sv: Services, d: Depot, step: Step, key: string)
    requires step.UploadStep? && Enabled(d, step) && key in d.blobs && key in d.owner
    ensures key in Exec(sv, d, step).blobs
  {
    FreshKey(d, step);
    StoreBothOnly(sv, d, RecordFor(step.taskId, step.filename, step.name, step.id), step.up, step.save, step.del, step.pub, key);
  }

  lemma StoreBothOnly(sv: Services, d: Depot, r: Record, up: Outcome, save: Outcome, del: Outcome, pub: Outcome, key: string)
    requires key in d.blobs && key != r.key
    ensures key in StoreBoth(sv, d, r, up, save, del, pub).0.blobs
  {
  }

  /** A step that is not about an attachment leaves its file alone. */
  lemma OthersUntouched(sv: Services, d: Depot, step: Step, id: Uuid)
    requires Sound(d) && Enabled(d, step) && id in d.records && d.records[id].key in d.blobs && !About(d, step, id)
    ensures d.records[id].key in Exec(sv, d, step).blobs
  {
    var key := d.records[id].key;
    match step
    case NewTask(_, _) =>
    case UserDeleted(_) =>
    case UploadStep(_, _, _, _, _, _, _, _) => UploadOnly(sv, d, step, key);
    case DeleteStep(_, _, _, _, _) =>
    case DeleteTaskStep(taskId, listing, outcomes, _) => DeleteObjectsOnly(sv, d, taskId, listing, outcomes, key);
    case HandleStep(i, _) => assert EventSound(d, d.queue[i]);
    case Redeliver(_, _) =>
  }
}
