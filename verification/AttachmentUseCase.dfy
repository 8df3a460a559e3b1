/**
  The attachment half of the task use case and the background handler, call by call: storage,
  database and publisher calls one after another, any of which may fail. Every method is proved equal to
  the function of the same name in Attachments.
 */
module AttachmentUseCase {
  import opened Prelude
  import opened FileNames
  import opened Attachments

  class FileStorage {
    var blobs: set<string>

    /** The answer is whether the call reported success. */
    method Upload(key: string, up: Outcome) returns (ok: bool)
      modifies this
      ensures ok <==> up == Works
      ensures blobs == if up == Fails then old(blobs) else old(blobs) + {key}
    {
      if up != Fails {
        blobs := blobs + {key};
      }
      return up == Works;
    }

    method Delete(key: string, del: Outcome) returns (ok: bool)
      modifies this
      ensures ok <==> del == Works
      ensures blobs == if del == Fails then old(blobs) else old(blobs) - {key}
    {
      if del != Fails {
        blobs := blobs - {key};
      }
      return del == Works;
    }
  }

  class AttachmentRepository {
    var tasks: map<Uuid, Uuid>
    var records: map<Uuid, Record>

    method SaveAttachment(r: Record, save: Outcome) returns (ok: bool)
      modifies this`records
      ensures ok <==> save == Works
      ensures records == if save == Fails then old(records) else old(records)[r.id := r]
    {
      if save != Fails {
        records := records[r.id := r];
      }
      return save == Works;
    }

    method DeleteAttachment(id: Uuid, drop: Outcome) returns (ok: bool)
      modifies this`records
      ensures ok <==> drop == Works
      ensures records == if drop == Fails then old(records) else old(records) - {id}
    {
      if drop != Fails {
        records := records - {id};
      }
      return drop == Works;
    }

    /** The records of a task, in whatever order the database returns them. */
    method FindAttachmentsByTaskID(taskId: Uuid) returns (found: seq<Record>)
      requires forall j | j in records :: records[j].id == j
      ensures forall r | r in found :: r.id in records && records[r.id] == r && r.taskId == taskId
      ensures forall j | j in records && records[j].taskId == taskId :: records[j] in found
    {
      found := [];
      var rest := records.Keys;
      while rest != {}
        invariant rest <= records.Keys
        invariant forall r | r in found :: r.id in records && records[r.id] == r && r.taskId == taskId
        invariant forall j | j in records && j !in rest && records[j].taskId == taskId :: records[j] in found
        decreases |rest|
      {
        var j :| j in rest;
        if records[j].taskId == taskId {
          found := found + [records[j]];
        }
        rest := rest - {j};
      }
    }

    /** The row and, by the foreign key, the records that refer to it. */
    method DeleteTask(taskId: Uuid, drop: Outcome) returns (ok: bool)
      modifies this
      ensures ok <==> drop == Works
      ensures drop == Fails ==> tasks == old(tasks) && records == old(records)
      ensures drop != Fails ==> tasks == old(tasks) - {taskId}
      ensures drop != Fails ==> records == map j | j in old(records) && old(records)[j].taskId !in {taskId} :: old(records)[j]
    {
      if drop != Fails {
        tasks := tasks - {taskId};
        records := map j | j in records && records[j].taskId !in {taskId} :: records[j];
      }
      return drop == Works;
    }

    /** What the foreign keys make of the deletion of a user: the tasks the user created go, with their records. */
    method UserDeleted(user: Uuid)
      modifies this
      ensures tasks == old(tasks) - set t | t in old(tasks) && old(tasks)[t] == user
      ensures records == map j | j in old(records) && old(records)[j].taskId !in (set t | t in old(tasks) && old(tasks)[t] == user) :: old(records)[j]
    {
      var gone := set t | t in tasks && tasks[t] == user;
      tasks := tasks - gone;
      records := map j | j in records && records[j].taskId !in gone :: records[j];
    }
  }

  class CleanupQueue {
    var pending: seq<Cleanup>

    method Publish(e: Cleanup, pub: Outcome) returns (ok: bool)
      modifies this
      ensures ok <==> pub == Works
      ensures pending == if pub == Fails then old(pending) else old(pending) + [e]
    {
      if pub != Fails {
        pending := pending + [e];
      }
      return pub == Works;
    }
  }

  class AttachmentService {
    const services: Services
    const storage: FileStorage
    const repo: AttachmentRepository
    const queue: CleanupQueue
    ghost var owner: map<string, Uuid>
    ghost var doomed: set<string>
    ghost var givenUp: set<string>

    constructor (services: Services, storage: FileStorage, repo: AttachmentRepository, queue: CleanupQueue)
      ensures this.services == services && this.storage == storage && this.repo == repo && this.queue == queue
      ensures owner == map[] && doomed == {} && givenUp == {}
    {
      this.services, this.storage, this.repo, this.queue := services, storage, repo, queue;
      owner, doomed, givenUp := map[], {}, {};
    }

    ghost function Now(): Depot
      reads this, storage, repo, queue
    {
      Depot(repo.tasks, repo.records, storage.blobs, queue.pending, owner, doomed, givenUp)
    }

    method UploadTaskAttachment(taskId: Uuid, filename: string, name: Uuid, id: Uuid,
                                up: Outcome, save: Outcome, del: Outcome, pub: Outcome) returns (r: Result<Record, UploadError>)
      modifies this, storage, repo, queue
      ensures (Now(), r) == Upload(services, old(Now()), taskId, filename, name, id, up, save, del, pub)
    {
      if !services.storage {
        return Err(StorageUnavailable);
      }
      if taskId !in repo.tasks {
        return Err(TaskNotFound);
      }
      if !Acceptable(SanitizeAttachmentFilename(filename)) {
        return Err(InvalidFilename);
      }
      var record := RecordFor(taskId, filename, name, id);
      r := Store(record, up, save, del, pub);
    }

    method Store(record: Record, up: Outcome, save: Outcome, del: Outcome, pub: Outcome) returns (r: Result<Record, UploadError>)
      requires services.storage
      modifies this, storage, repo, queue
      ensures (Now(), r) == StoreBoth(services, old(Now()), record, up, save, del, pub)
    {
      owner := owner[record.key := record.id];
      var uploaded := storage.Upload(record.key, up);
      if !uploaded {
        if up == FailsAfter {
          givenUp := givenUp + {record.key};
        }
        return Err(UploadFailed);
      }
      var saved := repo.SaveAttachment(record, save);
      if !saved {
        CleanupUploadedAttachmentObject(Cleanup(record.taskId, record.id, record.key), del, pub);
        return Err(SaveFailed);
      }
      return Ok(record);
    }

    /** Its own errors are only logged. */
    method CleanupUploadedAttachmentObject(e: Cleanup, del: Outcome, pub: Outcome)
      requires services.storage
      modifies this, storage, queue
      ensures Now() == RollBack(services, old(Now()), e, del, pub)
    {
      var before := queue.pending;
      doomed := doomed + {e.key};
      var deleted := storage.Delete(e.key, del);
      if !deleted {
        var queued := PublishAttachmentCleanupRequested(e, pub);
      }
      if e.key in storage.blobs && queue.pending == before {
        givenUp := givenUp + {e.key};
      }
    }

    method PublishAttachmentCleanupRequested(e: Cleanup, pub: Outcome) returns (ok: bool)
      modifies queue
      ensures (Now(), ok) == RequestCleanup(services, old(Now()), e, pub)
    {
      if !services.publisher {
        return false;
      }
      ok := queue.Publish(e, pub);
    }

    method DeleteAttachmentObject(e: Cleanup, del: Outcome, pub: Outcome) returns (ok: bool)
      modifies this, storage, queue
      ensures (Now(), ok) == DeleteObject(services, old(Now()), e, del, pub)
    {
      doomed := doomed + {e.key};
      if !services.storage {
        ok := PublishAttachmentCleanupRequested(e, pub);
        return;
      }
      var deleted := storage.Delete(e.key, del);
      if !deleted {
        ok := PublishAttachmentCleanupRequested(e, pub);
        return;
      }
      return true;
    }

    method DeleteTaskAttachment(taskId: Uuid, id: Uuid, del: Outcome, pub: Outcome, drop: Outcome) returns (r: Result<(), DeleteError>)
      modifies this, storage, repo, queue
      ensures (Now(), r) == DeleteAttachment(services, old(Now()), taskId, id, del, pub, drop)
    {
      if id !in repo.records {
        return Err(NotFound);
      }
      var attachment := repo.records[id];
      if attachment.taskId != taskId {
        return Err(NotFound);
      }
      var ok := DeleteAttachmentObject(Cleanup(taskId, id, attachment.key), del, pub);
      if !ok {
        return Err(CleanupUnavailable);
      }
      var dropped := repo.DeleteAttachment(id, drop);
      if !dropped {
        return Err(DatabaseError);
      }
      return Ok(());
    }

    /** Stops at the first file that can be neither deleted nor queued, leaving the task in place. */
    method DeleteTask(taskId: Uuid, outcomes: Uuid -> (Outcome, Outcome), drop: Outcome)
      returns (r: Result<(), DeleteError>, ghost listing: seq<Record>)
      requires forall j | j in repo.records :: repo.records[j].id == j
      modifies this, storage, repo, queue
      ensures taskId in old(repo.tasks) ==> Lists(old(Now()), taskId, listing)
      ensures (Now(), r) == Attachments.DeleteTask(services, old(Now()), taskId, listing, outcomes, drop)
    {
      if taskId !in repo.tasks {
        return Err(NotFound), [];
      }
      var attachments := repo.FindAttachmentsByTaskID(taskId);
      listing := attachments;
      var ok := DeleteAll(taskId, attachments, outcomes);
      if !ok {
        return Err(CleanupUnavailable), listing;
      }
      ghost var settled := Now();
      var dropped := repo.DeleteTask(taskId, drop);
      assert drop != Fails ==> Now().records == WithoutTasks(settled, {taskId}).records;
      if !dropped {
        return Err(DatabaseError), listing;
      }
      return Ok(()), listing;
    }

    method DeleteAll(taskId: Uuid, attachments: seq<Record>, outcomes: Uuid -> (Outcome, Outcome)) returns (ok: bool)
      modifies this, storage, queue
      ensures (Now(), ok) == DeleteObjects(services, old(Now()), taskId, attachments, outcomes)
    {
      for i := 0 to |attachments|
        invariant (Now(), true) == DeleteObjects(services, old(Now()), taskId, attachments[..i], outcomes)
      {
        var a := attachments[i];
        assert attachments[..i + 1][..i] == attachments[..i];
        ok := DeleteAttachmentObject(Cleanup(taskId, a.id, a.key), outcomes(a.id).0, outcomes(a.id).1);
        if !ok {
          StopsThere(services, old(Now()), taskId, attachments, outcomes, i + 1);
          return;
        }
      }
      assert attachments[..|attachments|] == attachments;
      return true;
    }

    /** Nothing of this service runs when a user is deleted: no file is deleted and nothing is queued. */
    method UserDeleted(user: Uuid)
      modifies repo
      ensures Now() == WithoutTasks(old(Now()), TasksOf(old(Now()), user))
    {
      repo.UserDeleted(user);
    }

    /** The background handler: one event off the queue, one attempt. */
    method HandleCleanup(i: nat, del: Outcome) returns (ok: bool)
      requires i < |queue.pending|
      modifies this, storage, queue
      ensures Now() == Handle(services, old(Now()), i, del)
      ensures ok <==> services.storage && del == Works
    {
      var e := queue.pending[i];
      queue.pending := queue.pending[..i] + queue.pending[i + 1..];
      if !services.storage {
        givenUp := givenUp + {e.key};
        return false;
      }
      ok := storage.Delete(e.key, del);
      if del == Fails {
        givenUp := givenUp + {e.key};
      }
    }
  }
}
