/**
  The attachment saga with calls that overlap: every storage, database and publisher call is one step, and
  any number of uploads and deletions may be under way. An upload checks, stores, saves, and on failure rolls
  back; the deletion of a task lists its attachments, deletes their files one by one, and drops the row.
 */
module AttachmentOverlap {
  import opened Prelude
  import opened FileNames
  import opened Attachments

  /** How far a call has come: what it does next. */
  datatype Phase =
    | Storing(record: Record)
    | Saving(record: Record)
    | RollingBack(e: Cleanup)
    | AskingBack(e: Cleanup)
    | Found(e: Cleanup)
    | AskingOne(e: Cleanup)
    | Dropping(e: Cleanup)
    | Listed(taskId: Uuid, listing: seq<Record>, next: nat)
    | Asking(taskId: Uuid, listing: seq<Record>, next: nat)

  datatype World = World(d: Depot, calls: map<nat, Phase>)

  datatype Action =
    | NewTaskRow(taskId: Uuid, creator: Uuid)
    | DeleteUserRow(user: Uuid)
    | HandleEvent(index: nat, del: Outcome)
    | RedeliverEvent(key: string, del: Outcome)
    | BeginUpload(call: nat, taskId: Uuid, filename: string, name: Uuid, id: Uuid)
    | StoreFile(call: nat, up: Outcome)
    | SaveRecord(call: nat, save: Outcome)
    | BeginDelete(call: nat, taskId: Uuid, id: Uuid)
    | BeginDeleteTask(call: nat, taskId: Uuid, listing: seq<Record>)
    | DeleteFile(call: nat, del: Outcome)
    | Ask(call: nat, pub: Outcome)
    | DropRecord(call: nat, drop: Outcome)
    | DropRow(call: nat, drop: Outcome)

  predicate HasFile(p: Phase) {
    p.RollingBack? || p.Found? || (p.Listed? && p.next < |p.listing|)
  }

  predicate Asks(p: Phase) {
    p.AskingBack? || p.AskingOne? || (p.Asking? && p.next < |p.listing|)
  }

  /** The file a call is deleting or asking the clean-up of. */
  function Target(p: Phase): Cleanup
    requires HasFile(p) || Asks(p)
  {
    if p.Listed? || p.Asking? then Cleanup(p.taskId, p.listing[p.next].id, p.listing[p.next].key) else p.e
  }

  /** What a call checks before it begins; generated UUIDs are new, and a listing is complete when it is made. */
  ghost predicate Ready(sv: Services, w: World, a: Action) {
    match a
    case NewTaskRow(taskId, _) => taskId !in w.d.tasks
    case DeleteUserRow(_) => true
    case HandleEvent(i, _) => i < |w.d.queue|
    case RedeliverEvent(key, _) => key in w.d.doomed
    case BeginUpload(c, taskId, filename, name, id) =>
      && c !in w.calls && sv.storage && taskId in w.d.tasks && Acceptable(SanitizeAttachmentFilename(filename))
      && FreshRecord(w.d, RecordFor(taskId, filename, name, id))
    case StoreFile(c, _) => c in w.calls && w.calls[c].Storing?
    case SaveRecord(c, _) => c in w.calls && w.calls[c].Saving?
    case BeginDelete(c, taskId, id) => c !in w.calls && id in w.d.records && w.d.records[id].taskId == taskId
    case BeginDeleteTask(c, taskId, listing) => c !in w.calls && taskId in w.d.tasks && Lists(w.d, taskId, listing)
    case DeleteFile(c, _) => c in w.calls && HasFile(w.calls[c])
    case Ask(c, _) => c in w.calls && Asks(w.calls[c])
    case DropRecord(c, _) => c in w.calls && w.calls[c].Dropping?
    case DropRow(c, _) => c in w.calls && w.calls[c].Listed? && w.calls[c].next == |w.calls[c].listing|
  }

  /** A call goes on with another phase, or ends. */
  function Went(w: World, d: Depot, c: nat, p: Option<Phase>): World {
    World(d, if p.Some? then w.calls[c := p.value] else w.calls - {c})
  }

  /** Saving fails when the task's row is gone. */
  predicate Saved(d: Depot, r: Record, save: Outcome) {
    save != Fails && r.taskId in d.tasks
  }

  function Stores(d: Depot, r: Record, up: Outcome): (Depot, Option<Phase>) {
    match up
    case Works => (WithFile(d, r.key), Some(Saving(r)))
    case Fails => (d, None)
    case FailsAfter => (GivenUp(WithFile(d, r.key), r.key), None)
  }

  function Saves(d: Depot, r: Record, save: Outcome): (Depot, Option<Phase>) {
    var d' := if Saved(d, r, save) then WithRecord(d, r) else d;
    (d', if Saved(d, r, save) && save == Works then None else Some(RollingBack(Cleanup(r.taskId, r.id, r.key))))
  }

  function Deletes(sv: Services, d: Depot, p: Phase, del: Outcome): (Depot, Option<Phase>)
    requires HasFile(p)
  {
    var gone := sv.storage && del == Works;
    (Doomed(d, Target(p).key, sv.storage && del != Fails),
     match p
     case RollingBack(e) => if gone then None else Some(AskingBack(e))
     case Found(e) => Some(if gone then Dropping(e) else AskingOne(e))
     case Listed(t, l, i) => Some(if gone then Listed(t, l, i + 1) else Asking(t, l, i)))
  }

  function AsksFor(sv: Services, d: Depot, p: Phase, pub: Outcome): (Depot, Option<Phase>)
    requires Asks(p)
  {
    var (d', ok) := RequestCleanup(sv, d, Target(p), pub);
    match p
    case AskingBack(e) => (if e.key in d'.blobs && d'.queue == d.queue then GivenUp(d', e.key) else d', None)
    case AskingOne(e) => (d', if ok then Some(Dropping(e)) else None)
    case Asking(t, l, i) => (d', if ok then Some(Listed(t, l, i + 1)) else None)
  }

  ghost function Next(sv: Services, w: World, a: Action): World
    requires Ready(sv, w, a)
  {
    match a
    case NewTaskRow(taskId, creator) => w.(d := w.d.(tasks := w.d.tasks[taskId := creator]))
    case DeleteUserRow(user) => w.(d := WithoutTasks(w.d, TasksOf(w.d, user)))
    case HandleEvent(i, del) => w.(d := Handle(sv, w.d, i, del))
    case RedeliverEvent(key, del) => w.(d := if sv.storage && del != Fails then w.d.(blobs := w.d.blobs - {key}) else w.d)
    case BeginUpload(c, taskId, filename, name, id) =>
      var r := RecordFor(taskId, filename, name, id);
      Went(w, Named(w.d, r), c, Some(Storing(r)))
    case StoreFile(c, up) => var (d, p) := Stores(w.d, w.calls[c].record, up); Went(w, d, c, p)
    case SaveRecord(c, save) => var (d, p) := Saves(w.d, w.calls[c].record, save); Went(w, d, c, p)
    case BeginDelete(c, taskId, id) => Went(w, w.d, c, Some(Found(Cleanup(taskId, id, w.d.records[id].key))))
    case BeginDeleteTask(c, taskId, listing) => Went(w, w.d, c, Some(Listed(taskId, listing, 0)))
    case DeleteFile(c, del) => var (d, p) := Deletes(sv, w.d, w.calls[c], del); Went(w, d, c, p)
    case Ask(c, pub) => var (d, p) := AsksFor(sv, w.d, w.calls[c], pub); Went(w, d, c, p)
    case DropRecord(c, drop) => Went(w, if drop == Fails then w.d else WithoutRecord(w.d, w.calls[c].e.attachmentId), c, None)
    case DropRow(c, drop) => Went(w, if drop == Fails then w.d else WithoutTasks(w.d, {w.calls[c].taskId}), c, None)
  }

  ghost predicate IsOverlap(sv: Services, worlds: seq<World>, actions: seq<Action>) {
    && |worlds| == |actions| + 1
    && worlds[0] == World(EMPTY, map[])
    && forall i | 0 <= i < |actions| :: Taken(sv, worlds, actions, i)
  }

  ghost predicate Taken(sv: Services, worlds: seq<World>, actions: seq<Action>, i: nat)
    requires i < |actions| && |worlds| == |actions| + 1
  {
    Ready(sv, worlds[i], actions[i]) && worlds[i + 1] == Next(sv, worlds[i], actions[i])
  }

  // ---- What is known of a call under way ----

  predicate Mentions(p: Phase, id: Uuid) {
    match p
    case Storing(r) => r.id == id
    case Saving(r) => r.id == id
    case RollingBack(e) => e.attachmentId == id
    case AskingBack(e) => e.attachmentId == id
    case Found(e) => e.attachmentId == id
    case AskingOne(e) => e.attachmentId == id
    case Dropping(e) => e.attachmentId == id
    case Listed(_, l, _) => exists r :: r in l && r.id == id
    case Asking(_, l, _) => exists r :: r in l && r.id == id
  }

  predicate Owned(d: Depot, key: string, id: Uuid) {
    key in d.owner && d.owner[key] == id
  }

  /** Nobody else knows of the attachment yet. */
  ghost predicate Private(w: World, c: nat, r: Record) {
    && Owned(w.d, r.key, r.id) && r.id !in w.d.records && r.key !in w.d.doomed
    && forall b | b in w.calls && b != c :: !Mentions(w.calls[b], r.id)
  }

  /** The files before the next one are dealt with. */
  ghost predicate ListSound(d: Depot, listing: seq<Record>, next: nat) {
    && next <= |listing|
    && (forall r | r in listing :: Owned(d, r.key, r.id))
    && (forall k | 0 <= k < next :: listing[k].key in d.doomed && Settled(d, listing[k].key))
  }

  /** What is known of a phase whose attachment others may know of too. */
  ghost predicate PhaseSound(d: Depot, p: Phase) {
    match p
    case Storing(_) => false
    case Saving(_) => false
    case RollingBack(e) => Owned(d, e.key, e.attachmentId)
    case AskingBack(e) => Owned(d, e.key, e.attachmentId) && e.key in d.doomed
    case Found(e) => Owned(d, e.key, e.attachmentId)
    case AskingOne(e) => Owned(d, e.key, e.attachmentId) && e.key in d.doomed
    case Dropping(e) => Owned(d, e.key, e.attachmentId) && e.key in d.doomed && Settled(d, e.key)
    case Listed(_, l, i) => ListSound(d, l, i)
    case Asking(_, l, i) => i < |l| && ListSound(d, l, i) && l[i].key in d.doomed
  }

  predicate IsPrivate(p: Phase) {
    p.Storing? || p.Saving?
  }

  ghost predicate CallSound(w: World, c: nat)
    requires c in w.calls
  {
    var p := w.calls[c];
    if IsPrivate(p) then Private(w, c, p.record) && (p.record.key in w.d.blobs <==> p.Saving?) else PhaseSound(w.d, p)
  }

  ghost predicate WorldSound(w: World) {
    Sound(w.d) && forall c | c in w.calls :: CallSound(w, c)
  }

  /** A change of the stores that concerns the given attachments only, as far as other calls can tell. */
  ghost predicate Concerns(d: Depot, d': Depot, ids: set<Uuid>) {
    && (forall k | k in d.owner :: k in d'.owner && d'.owner[k] == d.owner[k])
    && (forall j | j in d'.records && j !in ids :: j in d.records)
    && (forall k | k in d.doomed :: k in d'.doomed)
    && (forall k | k in d'.doomed && k !in d.doomed :: k in d'.owner && d'.owner[k] in ids)
    && (forall k | k in d'.blobs && k !in d.blobs :: k in d'.owner && d'.owner[k] in ids)
    && (forall k | k in d.blobs && k !in d'.blobs :: k in d'.doomed)
    && (forall k | k in d.doomed && Settled(d, k) :: Settled(d', k))
  }

  /** A call that does not step keeps what is known of it. */
  lemma Bystander(w: World, w': World, c: nat, ids: set<Uuid>)
    requires c in w.calls && CallSound(w, c) && c in w'.calls && w'.calls[c] == w.calls[c] && Concerns(w.d, w'.d, ids)
    requires IsPrivate(w.calls[c]) ==>
      w.calls[c].record.id !in ids && forall b | b in w'.calls && b != c :: !Mentions(w'.calls[b], w.calls[c].record.id)
    ensures CallSound(w', c)
  {
  }

  ghost predicate SameBut(w: World, w': World, c: nat) {
    forall b | b != c :: (b in w'.calls <==> b in w.calls) && (b in w.calls ==> w'.calls[b] == w.calls[b])
  }

  lemma OthersSound(w: World, w': World, c: nat, ids: set<Uuid>)
    requires WorldSound(w) && SameBut(w, w', c) && Concerns(w.d, w'.d, ids)
    requires forall b | b in w.calls && b != c && IsPrivate(w.calls[b]) ::
               w.calls[b].record.id !in ids && (c in w'.calls ==> !Mentions(w'.calls[c], w.calls[b].record.id))
    ensures forall b | b in w'.calls && b != c :: CallSound(w', b)
  {
    forall b | b in w'.calls && b != c ensures CallSound(w', b) {
      assert CallSound(w, b);
      Bystander(w, w', b, ids);
    }
  }

  /** A call steps, about attachments it mentions and to a phase that mentions no more: the others are bystanders. */
  lemma StepsOn(w: World, w': World, c: nat, ids: set<Uuid>)
    requires WorldSound(w) && SameBut(w, w', c) && Concerns(w.d, w'.d, ids) && c in w.calls
    requires forall id | id in ids :: Mentions(w.calls[c], id)
    requires c in w'.calls ==> forall i | Mentions(w'.calls[c], i) :: Mentions(w.calls[c], i)
    ensures forall b | b in w'.calls && b != c :: CallSound(w', b)
  {
    forall b | b in w.calls && b != c && IsPrivate(w.calls[b])
      ensures w.calls[b].record.id !in ids && (c in w'.calls ==> !Mentions(w'.calls[c], w.calls[b].record.id))
    {
      assert CallSound(w, b);
      assert !Mentions(w.calls[c], w.calls[b].record.id);
    }
    OthersSound(w, w', c, ids);
  }

  /** A call begins; what it mentions is new, or has a record, so nobody else has it to himself. */
  lemma Begins(w: World, w': World, c: nat, ids: set<Uuid>)
    requires WorldSound(w) && SameBut(w, w', c) && Concerns(w.d, w'.d, ids) && c !in w.calls && c in w'.calls
    requires forall id | id in ids :: forall k | k in w.d.owner :: w.d.owner[k] != id
    requires forall i | Mentions(w'.calls[c], i) :: i in ids || i in w.d.records
    ensures forall b | b in w'.calls && b != c :: CallSound(w', b)
  {
    forall b | b in w.calls && b != c && IsPrivate(w.calls[b])
      ensures w.calls[b].record.id !in ids && !Mentions(w'.calls[c], w.calls[b].record.id)
    {
      assert CallSound(w, b);
      assert Owned(w.d, w.calls[b].record.key, w.calls[b].record.id);
    }
    OthersSound(w, w', c, ids);
  }

  // ---- Every action keeps what is known ----

  /** A doomed file stays settled if it does not come back and nothing is taken off the queue. */
  lemma SettledStays(d: Depot, d': Depot)
    requires forall k | k in d'.blobs && k in d.doomed :: k in d.blobs
    requires d.givenUp <= d'.givenUp && |d.queue| <= |d'.queue| && d'.queue[..|d.queue|] == d.queue
    ensures forall k | k in d.doomed && Settled(d, k) :: Settled(d', k)
  {
    forall k | k in d.doomed && Settled(d, k) ensures Settled(d', k) {
      if k in d'.blobs {
        StillInHand(d, d', k);
      }
    }
  }

  /** A call goes on with a phase that is sound in the new stores, or ends. */
  lemma WentSound(w: World, d: Depot, c: nat, p: Option<Phase>, ids: set<Uuid>)
    requires WorldSound(w) && Sound(d) && Concerns(w.d, d, ids) && c in w.calls
    requires forall id | id in ids :: Mentions(w.calls[c], id)
    requires p.Some? ==> PhaseSound(d, p.value) && forall i | Mentions(p.value, i) :: Mentions(w.calls[c], i)
    ensures WorldSound(Went(w, d, c, p))
  {
    StepsOn(w, Went(w, d, c, p), c, ids);
  }

  lemma StoreFileSound(sv: Services, w: World, c: nat, up: Outcome)
    requires WorldSound(w) && Ready(sv, w, StoreFile(c, up))
    ensures WorldSound(Next(sv, w, StoreFile(c, up)))
  {
    var w', r := Next(sv, w, StoreFile(c, up)), w.calls[c].record;
    assert CallSound(w, c);
    WithFileSound(w.d, r.key);
    GivenUpSound(WithFile(w.d, r.key), r.key);
    SettledStays(w.d, w'.d);
    StepsOn(w, w', c, {r.id});
    if c in w'.calls {
      assert CallSound(w', c);
    }
  }

  lemma SavesSound(d: Depot, r: Record, save: Outcome)
    requires Sound(d) && Owned(d, r.key, r.id) && r.key in d.blobs
    ensures var (d', p) := Saves(d, r, save); Sound(d') && Concerns(d, d', {r.id}) && (p.Some? ==> PhaseSound(d', p.value))
  {
    WithRecordSound(d, r);
    SettledStays(d, Saves(d, r, save).0);
  }

  lemma SaveRecordSound(sv: Services, w: World, c: nat, save: Outcome)
    requires WorldSound(w) && Ready(sv, w, SaveRecord(c, save))
    ensures WorldSound(Next(sv, w, SaveRecord(c, save)))
  {
    var r := w.calls[c].record;
    assert CallSound(w, c);
    SavesSound(w.d, r, save);
    var (d, p) := Saves(w.d, r, save);
    WentSound(w, d, c, p, {r.id});
  }

  /** The file a sound phase is about belongs to an attachment it mentions. */
  lemma TargetOwned(d: Depot, p: Phase)
    requires PhaseSound(d, p) && (HasFile(p) || Asks(p))
    ensures Owned(d, Target(p).key, Target(p).attachmentId) && Mentions(p, Target(p).attachmentId)
    ensures Asks(p) ==> EventSound(d, Target(p))
  {
    if p.Listed? || p.Asking? {
      assert p.listing[p.next] in p.listing;
    }
  }

  lemma DeletesSound(sv: Services, d: Depot, p: Phase, del: Outcome)
    requires Sound(d) && HasFile(p) && PhaseSound(d, p)
    ensures var (d', p') := Deletes(sv, d, p, del);
            Sound(d') && Concerns(d, d', {Target(p).attachmentId}) && (p'.Some? ==> PhaseSound(d', p'.value))
  {
    var d' := Deletes(sv, d, p, del).0;
    TargetOwned(d, p);
    DoomedSound(d, Target(p).key, sv.storage && del != Fails);
    SettledStays(d, d');
  }

  lemma SamePhaseMentions(p: Phase, p': Phase)
    requires HasFile(p) || Asks(p)
    requires if p.Listed? || p.Asking? then (p'.Listed? || p'.Asking?) && p'.listing == p.listing
             else (p'.RollingBack? || p'.AskingBack? || p'.Found? || p'.AskingOne? || p'.Dropping?) && p'.e == p.e
    ensures forall i | Mentions(p', i) :: Mentions(p, i)
  {
  }

  lemma DeleteFileSound(sv: Services, w: World, c: nat, del: Outcome)
    requires WorldSound(w) && Ready(sv, w, DeleteFile(c, del))
    ensures WorldSound(Next(sv, w, DeleteFile(c, del)))
  {
    var p := w.calls[c];
    assert CallSound(w, c);
    TargetOwned(w.d, p);
    DeletesSound(sv, w.d, p, del);
    var (d, p') := Deletes(sv, w.d, p, del);
    if p'.Some? {
      SamePhaseMentions(p, p'.value);
    }
    WentSound(w, d, c, p', {Target(p).attachmentId});
  }

  lemma AskedSound(sv: Services, d: Depot, e: Cleanup, pub: Outcome)
    requires Sound(d) && EventSound(d, e)
    ensures var (d', ok) := RequestCleanup(sv, d, e, pub);
            && Sound(d') && Sound(GivenUp(d', e.key)) && d'.doomed == d.doomed && d'.owner == d.owner
            && Concerns(d, d', {}) && Concerns(d, GivenUp(d', e.key), {}) && (ok ==> Settled(d', e.key))
  {
    var d' := RequestCleanup(sv, d, e, pub).0;
    EnqueuedSound(d, e);
    GivenUpSound(d', e.key);
    SettledStays(d, d');
    SettledStays(d, GivenUp(d', e.key));
  }

  lemma AskedList(d: Depot, d': Depot, l: seq<Record>, i: nat)
    requires i < |l| && ListSound(d, l, i) && l[i].key in d.doomed && Concerns(d, d', {}) && Settled(d', l[i].key)
    ensures ListSound(d', l, i + 1)
  {
  }

  lemma AsksSound(sv: Services, d: Depot, p: Phase, pub: Outcome)
    requires Sound(d) && Asks(p) && PhaseSound(d, p)
    ensures var (d', p') := AsksFor(sv, d, p, pub); Sound(d') && Concerns(d, d', {}) && (p'.Some? ==> PhaseSound(d', p'.value))
  {
    TargetOwned(d, p);
    AskedSound(sv, d, Target(p), pub);
    var (d', ok) := RequestCleanup(sv, d, Target(p), pub);
    if p.Asking? && ok {
      AskedList(d, d', p.listing, p.next);
    }
  }

  lemma AskSound(sv: Services, w: World, c: nat, pub: Outcome)
    requires WorldSound(w) && Ready(sv, w, Ask(c, pub))
    ensures WorldSound(Next(sv, w, Ask(c, pub)))
  {
    var p := w.calls[c];
    assert CallSound(w, c);
    AsksSound(sv, w.d, p, pub);
    var (d, p') := AsksFor(sv, w.d, p, pub);
    if p'.Some? {
      SamePhaseMentions(p, p'.value);
    }
    WentSound(w, d, c, p', {});
  }

  lemma DropSound(sv: Services, w: World, a: Action)
    requires WorldSound(w) && Ready(sv, w, a) && (a.DropRecord? || a.DropRow?)
    ensures WorldSound(Next(sv, w, a))
  {
    var w' := Next(sv, w, a);
    FewerRecordsSound(w.d, w'.d);
    SettledStays(w.d, w'.d);
    WentSound(w, w'.d, a.call, None, {});
  }

  lemma BeginUploadSound(sv: Services, w: World, a: Action)
    requires WorldSound(w) && Ready(sv, w, a) && a.BeginUpload?
    ensures WorldSound(Next(sv, w, a))
  {
    var r := RecordFor(a.taskId, a.filename, a.name, a.id);
    var w' := Went(w, Named(w.d, r), a.call, Some(Storing(r)));
    NamedSound(w.d, r);
    SettledStays(w.d, w'.d);
    Begins(w, w', a.call, {r.id});
    NobodyKnows(w, r);
    assert CallSound(w', a.call);
  }

  lemma BeginDeleteSound(sv: Services, w: World, a: Action)
    requires WorldSound(w) && Ready(sv, w, a) && (a.BeginDelete? || a.BeginDeleteTask?)
    ensures WorldSound(Next(sv, w, a))
  {
    var w' := Next(sv, w, a);
    SettledStays(w.d, w'.d);
    Begins(w, w', a.call, {});
    assert CallSound(w', a.call);
  }

  /** What a sound call mentions owns some key. */
  lemma NobodyKnows(w: World, r: Record)
    requires WorldSound(w) && FreshRecord(w.d, r)
    ensures forall b | b in w.calls :: !Mentions(w.calls[b], r.id)
  {
    forall b | b in w.calls ensures !Mentions(w.calls[b], r.id) {
      assert CallSound(w, b);
    }
  }

  /** A change of the stores that concerns no attachment leaves every call as it is. */
  lemma StoresChange(w: World, d: Depot)
    requires WorldSound(w) && Sound(d) && Concerns(w.d, d, {})
    ensures WorldSound(w.(d := d))
  {
    var w' := w.(d := d);
    forall b | b in w'.calls ensures CallSound(w', b) {
      assert CallSound(w, b);
      Bystander(w, w', b, {});
    }
  }

  lemma HandleEventSound(sv: Services, w: World, i: nat, del: Outcome)
    requires WorldSound(w) && i < |w.d.queue|
    ensures WorldSound(w.(d := Handle(sv, w.d, i, del)))
  {
    var d := Handle(sv, w.d, i, del);
    HandleKeeps(sv, w.d, i, del, "");
    forall k | k in w.d.doomed && Settled(w.d, k) ensures Settled(d, k) {
      HandleKeeps(sv, w.d, i, del, k);
    }
    assert EventSound(w.d, w.d.queue[i]);
    StoresChange(w, d);
  }

  lemma OutsideSound(sv: Services, w: World, a: Action)
    requires WorldSound(w) && Ready(sv, w, a) && (a.NewTaskRow? || a.DeleteUserRow? || a.RedeliverEvent?)
    ensures WorldSound(Next(sv, w, a))
  {
    var d := Next(sv, w, a).d;
    if a.DeleteUserRow? {
      FewerRecordsSound(w.d, d);
    } else {
      EventsSound(w.d, d);
    }
    SettledStays(w.d, d);
    StoresChange(w, d);
  }

  lemma ActionSound(sv: Services, w: World, a: Action)
    requires WorldSound(w) && Ready(sv, w, a)
    ensures WorldSound(Next(sv, w, a))
  {
    match a
    case NewTaskRow(_, _) => OutsideSound(sv, w, a);
    case DeleteUserRow(_) => OutsideSound(sv, w, a);
    case HandleEvent(i, del) => HandleEventSound(sv, w, i, del);
    case RedeliverEvent(_, _) => OutsideSound(sv, w, a);
    case BeginUpload(_, _, _, _, _) => BeginUploadSound(sv, w, a);
    case BeginDelete(_, _, _) => BeginDeleteSound(sv, w, a);
    case BeginDeleteTask(_, _, _) => BeginDeleteSound(sv, w, a);
    case StoreFile(c, up) => StoreFileSound(sv, w, c, up);
    case SaveRecord(c, save) => SaveRecordSound(sv, w, c, save);
    case DeleteFile(c, del) => DeleteFileSound(sv, w, c, del);
    case Ask(c, pub) => AskSound(sv, w, c, pub);
    case DropRecord(_, _) => DropSound(sv, w, a);
    case DropRow(_, _) => DropSound(sv, w, a);
  }

  lemma {:induction false} OverlapSound(sv: Services, worlds: seq<World>, actions: seq<Action>, n: nat)
    requires IsOverlap(sv, worlds, actions) && n <= |actions|
    ensures WorldSound(worlds[n])
  {
    if n > 0 {
      OverlapSound(sv, worlds, actions, n - 1);
      assert Taken(sv, worlds, actions, n - 1);
      ActionSound(sv, worlds[n - 1], actions[n - 1]);
    }
  }

  /** No attachment has two keys. */
  ghost predicate OneKeyEach(d: Depot) {
    forall k, l | k in d.owner && l in d.owner && d.owner[k] == d.owner[l] :: k == l
  }

  lemma ActionOneKey(sv: Services, w: World, a: Action)
    requires Ready(sv, w, a) && OneKeyEach(w.d)
    ensures OneKeyEach(Next(sv, w, a).d)
  {
    if !a.BeginUpload? {
      assert Next(sv, w, a).d.owner == w.d.owner;
    }
  }

  lemma {:induction false} OverlapOneKey(sv: Services, worlds: seq<World>, actions: seq<Action>, n: nat)
    requires IsOverlap(sv, worlds, actions) && n <= |actions|
    ensures OneKeyEach(worlds[n].d)
  {
    if n > 0 {
      OverlapOneKey(sv, worlds, actions, n - 1);
      assert Taken(sv, worlds, actions, n - 1);
      ActionOneKey(sv, worlds[n - 1], actions[n - 1]);
    }
  }

  // ---- The account ----

  /** An upload under way has the file in hand: it is about to save it or to take it back. */
  predicate Holds(p: Phase, key: string) {
    match p
    case Saving(r) => r.key == key
    case RollingBack(e) => e.key == key
    case AskingBack(e) => e.key == key
    case Storing(_) => false
    case Found(_) => false
    case AskingOne(_) => false
    case Dropping(_) => false
    case Listed(_, _, _) => false
    case Asking(_, _, _) => false
  }

  ghost predicate Held(w: World, key: string) {
    exists c :: c in w.calls && Holds(w.calls[c], key)
  }

  ghost predicate HeldElsewhere(w: World, c: nat, key: string) {
    exists b :: b in w.calls && b != c && Holds(w.calls[b], key)
  }

  /** Stored files are referenced, queued for clean-up, given up, or held by an upload under way. */
  ghost predicate AccountedIn(w: World, key: string) {
    Held(w, key) || Accounted(w.d, key)
  }

  /** The rows that go take the record of a stored file that nobody has in hand. */
  ghost predicate LosesIn(w: World, a: Action, key: string) {
    && key in w.d.blobs && !InHand(w.d, key) && !Held(w, key)
    && exists j :: j in w.d.records && w.d.records[j].key == key && RowGoes(w, a, w.d.records[j].taskId)
  }

  /** The action deletes the row of this task. */
  predicate RowGoes(w: World, a: Action, taskId: Uuid) {
    match a
    case DeleteUserRow(user) => taskId in TasksOf(w.d, user)
    case DropRow(c, drop) => drop != Fails && c in w.calls && w.calls[c].Listed? && w.calls[c].taskId == taskId
    case NewTaskRow(_, _) => false
    case HandleEvent(_, _) => false
    case RedeliverEvent(_, _) => false
    case BeginUpload(_, _, _, _, _) => false
    case StoreFile(_, _) => false
    case SaveRecord(_, _) => false
    case BeginDelete(_, _, _) => false
    case BeginDeleteTask(_, _, _) => false
    case DeleteFile(_, _) => false
    case Ask(_, _) => false
    case DropRecord(_, _) => false
  }

  /** A call steps: an account is in order after if another call holds the file, or the stores and the new phase say so. */
  lemma WentAccount(w: World, d: Depot, c: nat, p: Option<Phase>, key: string)
    requires AccountedIn(w, key)
    requires (c in w.calls && Holds(w.calls[c], key)) || Accounted(w.d, key) ==> Accounted(d, key) || (p.Some? && Holds(p.value, key))
    ensures AccountedIn(Went(w, d, c, p), key)
  {
    var w' := Went(w, d, c, p);
    if HeldElsewhere(w, c, key) {
      var b :| b in w.calls && b != c && Holds(w.calls[b], key);
      assert b in w'.calls && Holds(w'.calls[b], key);
    } else if p.Some? && Holds(p.value, key) {
      assert Holds(w'.calls[c], key);
    }
  }

  lemma StoresAccount(d: Depot, r: Record, up: Outcome, key: string)
    requires Accounted(d, key) && r.key !in d.blobs
    ensures var (d', p) := Stores(d, r, up); Accounted(d', key) || (p.Some? && Holds(p.value, key))
  {
    var d' := Stores(d, r, up).0;
    assert Referenced(d', key) <==> Referenced(d, key);
    assert Queued(d', key) <==> Queued(d, key);
  }

  lemma SavesAccount(d: Depot, r: Record, save: Outcome, key: string)
    requires (key == r.key || Accounted(d, key)) && r.id !in d.records
    ensures var (d', p) := Saves(d, r, save); Accounted(d', key) || (p.Some? && Holds(p.value, key))
  {
    if key == r.key {
      assert WithRecord(d, r).records[r.id].key == key;
    } else {
      WithRecordKey(d, r, key);
    }
  }

  lemma DeletesAccount(sv: Services, d: Depot, p: Phase, del: Outcome, key: string)
    requires HasFile(p) && (Holds(p, key) || Accounted(d, key))
    ensures var (d', p') := Deletes(sv, d, p, del); Accounted(d', key) || (p'.Some? && Holds(p'.value, key))
  {
    if Accounted(d, key) {
      TidyKey(d, Deletes(sv, d, p, del).0, key);
    }
  }

  lemma AsksAccount(sv: Services, d: Depot, p: Phase, pub: Outcome, key: string)
    requires Asks(p) && (Holds(p, key) || Accounted(d, key))
    ensures Accounted(AsksFor(sv, d, p, pub).0, key)
  {
    var d' := AsksFor(sv, d, p, pub).0;
    if Accounted(d, key) {
      TidyKey(d, d', key);
    } else if d'.queue == d.queue + [Target(p)] {
      assert d'.queue[|d.queue|] == Target(p);
    }
  }

  lemma CallAccount(sv: Services, w: World, a: Action, key: string)
    requires WorldSound(w) && Ready(sv, w, a) && AccountedIn(w, key)
    requires a.StoreFile? || a.SaveRecord? || a.DeleteFile? || a.Ask?
    ensures AccountedIn(Next(sv, w, a), key)
  {
    var p := w.calls[a.call];
    assert CallSound(w, a.call);
    if Holds(p, key) || Accounted(w.d, key) {
      match a
      case StoreFile(_, up) => StoresAccount(w.d, p.record, up, key);
      case SaveRecord(_, save) => SavesAccount(w.d, p.record, save, key);
      case DeleteFile(_, del) => DeletesAccount(sv, w.d, p, del, key);
      case Ask(_, pub) => AsksAccount(sv, w.d, p, pub, key);
    }
    var (d, p') := match a
      case StoreFile(_, up) => Stores(w.d, p.record, up)
      case SaveRecord(_, save) => Saves(w.d, p.record, save)
      case DeleteFile(_, del) => Deletes(sv, w.d, p, del)
      case Ask(_, pub) => AsksFor(sv, w.d, p, pub);
    WentAccount(w, d, a.call, p', key);
  }

  lemma BeginAccount(sv: Services, w: World, a: Action, key: string)
    requires WorldSound(w) && Ready(sv, w, a) && AccountedIn(w, key)
    requires a.BeginUpload? || a.BeginDelete? || a.BeginDeleteTask?
    ensures AccountedIn(Next(sv, w, a), key)
  {
    var w' := Next(sv, w, a);
    if Accounted(w.d, key) {
      TidyKey(w.d, w'.d, key);
    } else {
      var b :| b in w.calls && Holds(w.calls[b], key);
      assert b in w'.calls && Holds(w'.calls[b], key);
    }
  }

  /** A record goes after its file has been settled. */
  lemma DropRecordAccount(sv: Services, w: World, c: nat, drop: Outcome, key: string)
    requires WorldSound(w) && OneKeyEach(w.d) && Ready(sv, w, DropRecord(c, drop)) && AccountedIn(w, key)
    ensures AccountedIn(Next(sv, w, DropRecord(c, drop)), key)
  {
    assert CallSound(w, c);
    var e := w.calls[c].e;
    if Accounted(w.d, key) {
      if e.attachmentId in w.d.records {
        assert w.d.records[e.attachmentId].key == e.key;
      }
      FewerRecordsKey(w.d, WithoutRecord(w.d, e.attachmentId), key);
    }
    WentAccount(w, if drop == Fails then w.d else WithoutRecord(w.d, e.attachmentId), c, None, key);
  }

  /** Rows go: an account in order stays so exactly unless this loses the file. */
  lemma RowsAccount(w: World, w': World, gone: set<Uuid>, key: string)
    requires WorldSound(w) && w'.d == WithoutTasks(w.d, gone) && AccountedIn(w, key) && (Held(w', key) <==> Held(w, key))
    ensures AccountedIn(w', key)
       <==> !(&& key in w.d.blobs && !InHand(w.d, key) && !Held(w, key)
              && exists j :: j in w.d.records && w.d.records[j].key == key && w.d.records[j].taskId in gone)
  {
    CascadeKeeps(w.d, gone, key);
  }

  lemma DropRowAccount(sv: Services, w: World, c: nat, drop: Outcome, key: string)
    requires WorldSound(w) && Ready(sv, w, DropRow(c, drop)) && AccountedIn(w, key)
    ensures AccountedIn(Next(sv, w, DropRow(c, drop)), key) <==> !LosesIn(w, DropRow(c, drop), key)
  {
    var w' := Next(sv, w, DropRow(c, drop));
    if Held(w, key) {
      var b :| b in w.calls && Holds(w.calls[b], key);
      assert b in w'.calls && Holds(w'.calls[b], key);
    }
    if drop != Fails {
      RowsAccount(w, w', {w.calls[c].taskId}, key);
    }
  }

  lemma OutsideAccount(sv: Services, w: World, a: Action, key: string)
    requires WorldSound(w) && Ready(sv, w, a) && AccountedIn(w, key)
    requires a.NewTaskRow? || a.DeleteUserRow? || a.HandleEvent? || a.RedeliverEvent?
    ensures AccountedIn(Next(sv, w, a), key) <==> !LosesIn(w, a, key)
  {
    var w' := Next(sv, w, a);
    assert w'.calls == w.calls;
    match a
    case DeleteUserRow(user) => RowsAccount(w, w', TasksOf(w.d, user), key);
    case HandleEvent(i, del) => HandleKeeps(sv, w.d, i, del, key);
    case NewTaskRow(_, _) =>
      if Accounted(w.d, key) {
        TidyKey(w.d, w'.d, key);
      }
    case RedeliverEvent(_, _) =>
      if Accounted(w.d, key) {
        TidyKey(w.d, w'.d, key);
      }
  }

  lemma ActionAccount(sv: Services, w: World, a: Action, key: string)
    requires WorldSound(w) && OneKeyEach(w.d) && Ready(sv, w, a) && AccountedIn(w, key)
    ensures AccountedIn(Next(sv, w, a), key) <==> !LosesIn(w, a, key)
  {
    match a
    case NewTaskRow(_, _) => OutsideAccount(sv, w, a, key);
    case DeleteUserRow(_) => OutsideAccount(sv, w, a, key);
    case HandleEvent(_, _) => OutsideAccount(sv, w, a, key);
    case RedeliverEvent(_, _) => OutsideAccount(sv, w, a, key);
    case BeginUpload(_, _, _, _, _) => BeginAccount(sv, w, a, key);
    case BeginDelete(_, _, _) => BeginAccount(sv, w, a, key);
    case BeginDeleteTask(_, _, _) => BeginAccount(sv, w, a, key);
    case StoreFile(_, _) => CallAccount(sv, w, a, key);
    case SaveRecord(_, _) => CallAccount(sv, w, a, key);
    case DeleteFile(_, _) => CallAccount(sv, w, a, key);
    case Ask(_, _) => CallAccount(sv, w, a, key);
    case DropRecord(c, drop) => DropRecordAccount(sv, w, c, drop, key);
    case DropRow(c, drop) => DropRowAccount(sv, w, c, drop, key);
  }

  lemma AccountAt(sv: Services, worlds: seq<World>, actions: seq<Action>, i: nat, key: string)
    requires IsOverlap(sv, worlds, actions) && i < |actions|
    ensures AccountedIn(worlds[i], key) ==> (AccountedIn(worlds[i + 1], key) <==> !LosesIn(worlds[i], actions[i], key))
  {
    OverlapSound(sv, worlds, actions, i);
    OverlapOneKey(sv, worlds, actions, i);
    assert Taken(sv, worlds, actions, i);
    if AccountedIn(worlds[i], key) {
      ActionAccount(sv, worlds[i], actions[i], key);
    }
  }

  /**
    Under every interleaving a stored file is at all times referenced, queued, given up or held by an upload
    under way, if and only if no row was deleted that took the record of the file while it was stored and
    nobody had it in hand.
   */
  lemma {:induction false} OverlapAccountsExactly(sv: Services, worlds: seq<World>, actions: seq<Action>, n: nat, key: string)
    requires IsOverlap(sv, worlds, actions) && n <= |actions|
    ensures (forall i | 0 <= i <= n :: AccountedIn(worlds[i], key)) <==> (forall i | 0 <= i < n :: !LosesIn(worlds[i], actions[i], key))
  {
    if n > 0 {
      OverlapAccountsExactly(sv, worlds, actions, n - 1, key);
      AccountAt(sv, worlds, actions, n - 1, key);
    }
  }

  // ---- When does the deletion of a task lose a file? ----

  /** From its listing to its end a call keeps the task and the listing. */
  lemma {:induction false} ListingStays(sv: Services, worlds: seq<World>, actions: seq<Action>, k: nat, n: nat, c: nat)
    requires IsOverlap(sv, worlds, actions) && k < n <= |actions| && actions[k].BeginDeleteTask? && actions[k].call == c
    requires forall i | k < i <= n :: c in worlds[i].calls
    ensures c in worlds[n].calls && (worlds[n].calls[c].Listed? || worlds[n].calls[c].Asking?)
    ensures worlds[n].calls[c].taskId == actions[k].taskId && worlds[n].calls[c].listing == actions[k].listing
  {
    if n == k + 1 {
      assert Taken(sv, worlds, actions, k);
    } else {
      ListingStays(sv, worlds, actions, k, n - 1, c);
      assert Taken(sv, worlds, actions, n - 1);
    }
  }

  /** The action saves this record. */
  predicate SavesRecord(w: World, a: Action, r: Record) {
    a.SaveRecord? && a.call in w.calls && w.calls[a.call] == Saving(r) && Saved(w.d, r, a.save)
  }

  ghost predicate SavedBetween(worlds: seq<World>, actions: seq<Action>, k: nat, n: nat, r: Record)
    requires n <= |actions| < |worlds|
  {
    exists i :: k < i < n && SavesRecord(worlds[i], actions[i], r)
  }

  predicate Recorded(d: Depot, r: Record) {
    r.id in d.records && d.records[r.id] == r
  }

  lemma NewlyRecorded(sv: Services, w: World, a: Action, r: Record)
    requires Ready(sv, w, a) && Recorded(Next(sv, w, a).d, r) && !Recorded(w.d, r)
    ensures SavesRecord(w, a, r)
  {
  }

  lemma {:induction false} RecordedSince(sv: Services, worlds: seq<World>, actions: seq<Action>, k: nat, n: nat, r: Record)
    requires IsOverlap(sv, worlds, actions) && k < n <= |actions| && !actions[k].SaveRecord?
    requires Recorded(worlds[n].d, r) && !Recorded(worlds[k].d, r)
    ensures SavedBetween(worlds, actions, k, n, r)
  {
    assert Taken(sv, worlds, actions, n - 1);
    if !Recorded(worlds[n - 1].d, r) {
      NewlyRecorded(sv, worlds[n - 1], actions[n - 1], r);
    } else if n - 1 > k {
      RecordedSince(sv, worlds, actions, k, n - 1, r);
      var i :| k < i < n - 1 && SavesRecord(worlds[i], actions[i], r);
      assert SavesRecord(worlds[i], actions[i], r);
    }
  }

  /**
    The deletion of a task loses a file exactly if the task's row goes while there is a record for the file
    that was saved since the deletion listed the task's attachments, and the file is stored and in nobody's hand.
   */
  lemma DropRowLosesExactly(sv: Services, worlds: seq<World>, actions: seq<Action>, k: nat, n: nat, c: nat, drop: Outcome, key: string)
    requires IsOverlap(sv, worlds, actions) && k < n < |actions| && actions[k].BeginDeleteTask? && actions[k].call == c
    requires actions[n] == DropRow(c, drop) && forall i | k < i <= n :: c in worlds[i].calls
    ensures LosesIn(worlds[n], actions[n], key)
       <==> && drop != Fails && key in worlds[n].d.blobs && !InHand(worlds[n].d, key) && !Held(worlds[n], key)
            && exists r: Record :: r.key == key && r.taskId == actions[k].taskId && Recorded(worlds[n].d, r)
                 && SavedBetween(worlds, actions, k, n, r)
  {
    ListingStays(sv, worlds, actions, k, n, c);
    OverlapSound(sv, worlds, actions, n);
    assert Taken(sv, worlds, actions, k) && Taken(sv, worlds, actions, n);
    assert CallSound(worlds[n], c);
    if LosesIn(worlds[n], actions[n], key) {
      var j :| j in worlds[n].d.records && worlds[n].d.records[j].key == key
            && RowGoes(worlds[n], actions[n], worlds[n].d.records[j].taskId);
      var r := worlds[n].d.records[j];
      assert Recorded(worlds[n].d, r);
      if Recorded(worlds[k].d, r) {
        ListedIsSettled(worlds[n].d, actions[k].listing, r);
      }
      RecordedSince(sv, worlds, actions, k, n, r);
    }
  }

  lemma ListedIsSettled(d: Depot, listing: seq<Record>, r: Record)
    requires ListSound(d, listing, |listing|) && r in listing
    ensures Settled(d, r.key)
  {
    var i :| 0 <= i < |listing| && listing[i] == r;
  }

  /** If no record of the task is saved between the listing and the row's deletion, nothing is lost. */
  lemma NothingSavedNothingLost(sv: Services, worlds: seq<World>, actions: seq<Action>, k: nat, n: nat, c: nat, drop: Outcome, key: string)
    requires IsOverlap(sv, worlds, actions) && k < n < |actions| && actions[k].BeginDeleteTask? && actions[k].call == c
    requires actions[n] == DropRow(c, drop) && forall i | k < i <= n :: c in worlds[i].calls
    requires forall r: Record | r.taskId == actions[k].taskId :: !SavedBetween(worlds, actions, k, n, r)
    ensures !LosesIn(worlds[n], actions[n], key)
  {
    DropRowLosesExactly(sv, worlds, actions, k, n, c, drop, key);
  }

  // ---- A run that loses a file ----

  lemma Extend(sv: Services, worlds: seq<World>, actions: seq<Action>, a: Action) returns (worlds': seq<World>, actions': seq<Action>)
    requires IsOverlap(sv, worlds, actions) && Ready(sv, worlds[|actions|], a)
    ensures IsOverlap(sv, worlds', actions') && |actions'| == |actions| + 1
    ensures worlds'[|actions'|] == Next(sv, worlds[|actions|], a) && actions'[|actions|] == a
    ensures (forall i | 0 <= i <= |actions| :: worlds'[i] == worlds[i]) && forall i | 0 <= i < |actions| :: actions'[i] == actions[i]
  {
    worlds', actions' := worlds + [Next(sv, worlds[|actions|], a)], actions + [a];
    forall i | 0 <= i < |actions'| ensures Taken(sv, worlds', actions', i) {
      if i < |actions| {
        assert Taken(sv, worlds, actions, i);
      }
    }
  }

  /** An upload has stored its file, and a deletion of its task has listed nothing. */
  lemma ListedTooEarly(sv: Services, taskId: Uuid, creator: Uuid, filename: string, name: Uuid, id: Uuid)
    returns (worlds: seq<World>, actions: seq<Action>, r: Record)
    requires sv.storage && Acceptable(SanitizeAttachmentFilename(filename))
    ensures IsOverlap(sv, worlds, actions) && r == RecordFor(taskId, filename, name, id)
    ensures |actions| == 4 && actions[3] == BeginDeleteTask(1, taskId, [])
    ensures worlds[|actions|].calls == map[0 := Saving(r), 1 := Listed(taskId, [], 0)]
    ensures worlds[|actions|].d == WithFile(Named(EMPTY.(tasks := map[taskId := creator]), r), r.key)
  {
    r := RecordFor(taskId, filename, name, id);
    KeyHoldsName(taskId, name, SanitizeAttachmentFilename(filename));
    worlds, actions := [World(EMPTY, map[])], [];
    worlds, actions := Extend(sv, worlds, actions, NewTaskRow(taskId, creator));
    worlds, actions := Extend(sv, worlds, actions, BeginUpload(0, taskId, filename, name, id));
    worlds, actions := Extend(sv, worlds, actions, StoreFile(0, Works));
    worlds, actions := Extend(sv, worlds, actions, BeginDeleteTask(1, taskId, []));
  }

  /** Then the record is saved, the row goes, and the file is an orphan. */
  lemma OverlapLoses(sv: Services, taskId: Uuid, creator: Uuid, filename: string, name: Uuid, id: Uuid)
    returns (worlds: seq<World>, actions: seq<Action>, r: Record)
    requires sv.storage && Acceptable(SanitizeAttachmentFilename(filename))
    ensures IsOverlap(sv, worlds, actions) && !AccountedIn(worlds[|actions|], r.key) && Orphan(worlds[|actions|].d, r.key)
  {
    worlds, actions, r := ListedTooEarly(sv, taskId, creator, filename, name, id);
    worlds, actions := Extend(sv, worlds, actions, SaveRecord(0, Works));
    worlds, actions := Extend(sv, worlds, actions, DropRow(1, Works));
  }

  /** A record may be saved in between and nothing be lost: here it is deleted again, with its file, before the row goes. */
  lemma SavedInBetweenAndKept(sv: Services, taskId: Uuid, creator: Uuid, filename: string, name: Uuid, id: Uuid)
    returns (worlds: seq<World>, actions: seq<Action>, r: Record)
    requires sv.storage && Acceptable(SanitizeAttachmentFilename(filename))
    ensures IsOverlap(sv, worlds, actions) && |actions| > 5 && actions[|actions| - 1] == DropRow(1, Works)
    ensures actions[3].BeginDeleteTask? && SavedBetween(worlds, actions, 3, |actions| - 1, r) && r.taskId == taskId
    ensures !LosesIn(worlds[|actions| - 1], actions[|actions| - 1], r.key) && r.key !in worlds[|actions|].d.blobs
  {
    worlds, actions, r := ListedTooEarly(sv, taskId, creator, filename, name, id);
    worlds, actions := Extend(sv, worlds, actions, SaveRecord(0, Works));
    assert SavesRecord(worlds[4], actions[4], r);
    worlds, actions := Extend(sv, worlds, actions, BeginDelete(2, taskId, id));
    worlds, actions := Extend(sv, worlds, actions, DeleteFile(2, Works));
    worlds, actions := Extend(sv, worlds, actions, DropRecord(2, Works));
    worlds, actions := Extend(sv, worlds, actions, DropRow(1, Works));
    assert SavesRecord(worlds[4], actions[4], r);
  }

  // ---- Calls nobody interrupts ----

  /** The steps of an upload from the storing of its file on. */
  ghost function StoringAlone(sv: Services, w: World, c: nat, up: Outcome, save: Outcome, del: Outcome, pub: Outcome): World
    requires c in w.calls && w.calls[c].Storing?
  {
    var w2 := Next(sv, w, StoreFile(c, up));
    if c !in w2.calls then w2
    else
      var w3 := Next(sv, w2, SaveRecord(c, save));
      if c !in w3.calls then w3
      else
        var w4 := Next(sv, w3, DeleteFile(c, del));
        if c !in w4.calls then w4 else Next(sv, w4, Ask(c, pub))
  }

  lemma CallGone(calls: map<nat, Phase>, c: nat, p: Phase)
    ensures calls[c := p] - {c} == calls - {c}
    ensures c !in calls ==> calls - {c} == calls
  {
  }

  /** The roll-back of the sequential model, in two steps. */
  lemma RollingBackAlone(sv: Services, w: World, c: nat, del: Outcome, pub: Outcome)
    requires c in w.calls && w.calls[c].RollingBack?
    ensures var w4 := Next(sv, w, DeleteFile(c, del));
            var w5 := if c !in w4.calls then w4 else Next(sv, w4, Ask(c, pub));
            w5 == World(RollBack(sv, w.d, w.calls[c].e, del, pub), w.calls - {c})
  {
    CallGone(w.calls, c, AskingBack(w.calls[c].e));
  }

  lemma StoringAloneIs(sv: Services, w: World, c: nat, up: Outcome, save: Outcome, del: Outcome, pub: Outcome)
    requires c in w.calls && w.calls[c].Storing? && w.calls[c].record.taskId in w.d.tasks
    ensures StoringAlone(sv, w, c, up, save, del, pub) == World(StoreNamed(sv, w.d, w.calls[c].record, up, save, del, pub).0, w.calls - {c})
  {
    var r := w.calls[c].record;
    CallGone(w.calls, c, Saving(r));
    if up == Works {
      var w2 := World(WithFile(w.d, r.key), w.calls[c := Saving(r)]);
      var e := Cleanup(r.taskId, r.id, r.key);
      if save != Works {
        var w3 := Next(sv, w2, SaveRecord(c, save));
        assert w3.calls == w2.calls[c := RollingBack(e)];
        CallGone(w2.calls, c, RollingBack(e));
        RollingBackAlone(sv, w3, c, del, pub);
      }
    }
  }

  /** The steps of one upload, uninterrupted, are the upload of the sequential model. */
  lemma UploadAloneIsUpload(sv: Services, w: World, c: nat, taskId: Uuid, filename: string, name: Uuid, id: Uuid,
                            up: Outcome, save: Outcome, del: Outcome, pub: Outcome)
    requires Ready(sv, w, BeginUpload(c, taskId, filename, name, id))
    ensures StoringAlone(sv, Next(sv, w, BeginUpload(c, taskId, filename, name, id)), c, up, save, del, pub)
         == World(Upload(sv, w.d, taskId, filename, name, id, up, save, del, pub).0, w.calls)
  {
    var r := RecordFor(taskId, filename, name, id);
    var w1 := Next(sv, w, BeginUpload(c, taskId, filename, name, id));
    StoringAloneIs(sv, w1, c, up, save, del, pub);
    CallGone(w.calls, c, Storing(r));
  }

  ghost function DeleteAlone(sv: Services, w: World, c: nat, taskId: Uuid, id: Uuid, del: Outcome, pub: Outcome, drop: Outcome): World
    requires Ready(sv, w, BeginDelete(c, taskId, id))
  {
    var w1 := Next(sv, w, BeginDelete(c, taskId, id));
    var w2 := Next(sv, w1, DeleteFile(c, del));
    var w3 := if w2.calls[c].AskingOne? then Next(sv, w2, Ask(c, pub)) else w2;
    if c !in w3.calls then w3 else Next(sv, w3, DropRecord(c, drop))
  }

  /** Deleting the file, and if need be asking, is the one function of the sequential model. */
  lemma FoundIsDeleteObject(sv: Services, w: World, c: nat, del: Outcome, pub: Outcome)
    requires c in w.calls && w.calls[c].Found?
    ensures var w2 := Next(sv, w, DeleteFile(c, del));
            var w3 := if w2.calls[c].AskingOne? then Next(sv, w2, Ask(c, pub)) else w2;
            var (d', ok) := DeleteObject(sv, w.d, w.calls[c].e, del, pub);
            w3 == if ok then World(d', w.calls[c := Dropping(w.calls[c].e)]) else World(d', w.calls - {c})
  {
    var e := w.calls[c].e;
    CallGone(w.calls, c, AskingOne(e));
    assert w.calls[c := AskingOne(e)][c := Dropping(e)] == w.calls[c := Dropping(e)];
  }

  /** And of one deletion of an attachment. */
  lemma DeleteAloneIsDelete(sv: Services, w: World, c: nat, taskId: Uuid, id: Uuid, del: Outcome, pub: Outcome, drop: Outcome)
    requires Ready(sv, w, BeginDelete(c, taskId, id))
    ensures DeleteAlone(sv, w, c, taskId, id, del, pub, drop) == World(DeleteAttachment(sv, w.d, taskId, id, del, pub, drop).0, w.calls)
  {
    var e := Cleanup(taskId, id, w.d.records[id].key);
    var w1 := World(w.d, w.calls[c := Found(e)]);
    FoundIsDeleteObject(sv, w1, c, del, pub);
    CallGone(w.calls, c, Found(e));
    CallGone(w1.calls, c, Dropping(e));
  }

  /** The loop over the listing, then the row. */
  ghost function LoopAlone(sv: Services, w: World, c: nat, outcomes: Uuid -> (Outcome, Outcome), drop: Outcome): World
    requires c in w.calls && w.calls[c].Listed? && w.calls[c].next <= |w.calls[c].listing|
    decreases |w.calls[c].listing| - w.calls[c].next
  {
    var p := w.calls[c];
    if p.next == |p.listing| then Next(sv, w, DropRow(c, drop))
    else
      var (del, pub) := outcomes(p.listing[p.next].id);
      var w1 := Next(sv, w, DeleteFile(c, del));
      var w2 := if w1.calls[c].Asking? then Next(sv, w1, Ask(c, pub)) else w1;
      if c !in w2.calls then w2 else LoopAlone(sv, w2, c, outcomes, drop)
  }

  /** One turn of the loop is one deletion of a file. */
  lemma TurnIsDeleteObject(sv: Services, w: World, c: nat, del: Outcome, pub: Outcome)
    requires c in w.calls && w.calls[c].Listed? && w.calls[c].next < |w.calls[c].listing|
    ensures var p := w.calls[c];
            var w1 := Next(sv, w, DeleteFile(c, del));
            var w2 := if w1.calls[c].Asking? then Next(sv, w1, Ask(c, pub)) else w1;
            var (d', ok) := DeleteObject(sv, w.d, Target(p), del, pub);
            w2 == if ok then World(d', w.calls[c := Listed(p.taskId, p.listing, p.next + 1)]) else World(d', w.calls - {c})
  {
    var p := w.calls[c];
    assert w.calls[c := Asking(p.taskId, p.listing, p.next)] - {c} == w.calls - {c};
    assert w.calls[c := Asking(p.taskId, p.listing, p.next)][c := Listed(p.taskId, p.listing, p.next + 1)] == w.calls[c := Listed(p.taskId, p.listing, p.next + 1)];
  }

  /** One more file of the listing in the sequential model. */
  lemma OneMoreObject(sv: Services, d0: Depot, taskId: Uuid, listing: seq<Record>, outcomes: Uuid -> (Outcome, Outcome), i: nat)
    requires i < |listing| && DeleteObjects(sv, d0, taskId, listing[..i], outcomes).1
    ensures DeleteObjects(sv, d0, taskId, listing[..i + 1], outcomes)
         == DeleteObject(sv, DeleteObjects(sv, d0, taskId, listing[..i], outcomes).0, Cleanup(taskId, listing[i].id, listing[i].key),
                         outcomes(listing[i].id).0, outcomes(listing[i].id).1)
  {
    assert listing[..i + 1][..i] == listing[..i];
  }

  lemma LoopEnds(sv: Services, d0: Depot, w: World, c: nat, outcomes: Uuid -> (Outcome, Outcome), drop: Outcome)
    requires c in w.calls && w.calls[c].Listed? && w.calls[c].next == |w.calls[c].listing| && w.calls[c].taskId in d0.tasks
    requires (w.d, true) == DeleteObjects(sv, d0, w.calls[c].taskId, w.calls[c].listing, outcomes)
    ensures LoopAlone(sv, w, c, outcomes, drop)
         == World(DeleteTask(sv, d0, w.calls[c].taskId, w.calls[c].listing, outcomes, drop).0, w.calls - {c})
  {
  }

  lemma LoopStops(sv: Services, d0: Depot, d': Depot, taskId: Uuid, listing: seq<Record>, outcomes: Uuid -> (Outcome, Outcome), drop: Outcome, n: nat)
    requires n <= |listing| && taskId in d0.tasks && DeleteObjects(sv, d0, taskId, listing[..n], outcomes) == (d', false)
    ensures DeleteTask(sv, d0, taskId, listing, outcomes, drop).0 == d'
  {
    StopsThere(sv, d0, taskId, listing, outcomes, n);
  }

  lemma {:induction false} LoopIsDeleteTask(sv: Services, d0: Depot, w: World, c: nat, outcomes: Uuid -> (Outcome, Outcome), drop: Outcome)
    requires c in w.calls && w.calls[c].Listed? && w.calls[c].next <= |w.calls[c].listing| && w.calls[c].taskId in d0.tasks
    requires var p := w.calls[c]; (w.d, true) == DeleteObjects(sv, d0, p.taskId, p.listing[..p.next], outcomes)
    ensures LoopAlone(sv, w, c, outcomes, drop)
         == World(DeleteTask(sv, d0, w.calls[c].taskId, w.calls[c].listing, outcomes, drop).0, w.calls - {c})
    decreases |w.calls[c].listing| - w.calls[c].next
  {
    var p := w.calls[c];
    if p.next == |p.listing| {
      assert p.listing[..p.next] == p.listing;
      LoopEnds(sv, d0, w, c, outcomes, drop);
    } else {
      var (del, pub) := outcomes(p.listing[p.next].id);
      TurnIsDeleteObject(sv, w, c, del, pub);
      OneMoreObject(sv, d0, p.taskId, p.listing, outcomes, p.next);
      var (d', ok) := DeleteObject(sv, w.d, Target(p), del, pub);
      if ok {
        CallGone(w.calls, c, Listed(p.taskId, p.listing, p.next + 1));
        LoopIsDeleteTask(sv, d0, World(d', w.calls[c := Listed(p.taskId, p.listing, p.next + 1)]), c, outcomes, drop);
      } else {
        LoopStops(sv, d0, d', p.taskId, p.listing, outcomes, drop, p.next + 1);
      }
    }
  }

  /** And of one deletion of a task, however many attachments it has. */
  lemma DeleteTaskAloneIsDeleteTask(sv: Services, w: World, c: nat, taskId: Uuid, listing: seq<Record>,
                                    outcomes: Uuid -> (Outcome, Outcome), drop: Outcome)
    requires Ready(sv, w, BeginDeleteTask(c, taskId, listing))
    ensures LoopAlone(sv, Next(sv, w, BeginDeleteTask(c, taskId, listing)), c, outcomes, drop)
         == World(DeleteTask(sv, w.d, taskId, listing, outcomes, drop).0, w.calls)
  {
    var w1 := Next(sv, w, BeginDeleteTask(c, taskId, listing));
    assert listing[..0] == [];
    LoopIsDeleteTask(sv, w.d, w1, c, outcomes, drop);
    CallGone(w.calls, c, Listed(taskId, listing, 0));
  }
}
