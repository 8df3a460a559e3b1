/** What the attachment operations answer, and what a yes means for the record, the file and the queue. */
module AttachmentAnswers {
  import opened Prelude
  import opened FileNames
  import opened Attachments

  /** The call about the file worked out: it is deleted, or its clean-up is asked for, and the caller was told so. */
  predicate TakenCare(sv: Services, del: Outcome, pub: Outcome) {
    (sv.storage && del == Works) || (sv.publisher && pub == Works)
  }

  /** The file is gone, or somebody will see to it. */
  ghost predicate GoneOrQueued(d: Depot, key: string) {
    key !in d.blobs || Queued(d, key)
  }

  /**
    An upload is answered with the record if and only if everything it asks for holds and works; then record and
    file are there under the new ID and key, and nothing else has changed.
   */
  lemma UploadAnswersExactly(sv: Services, d: Depot, taskId: Uuid, filename: string, name: Uuid, id: Uuid,
                             up: Outcome, save: Outcome, del: Outcome, pub: Outcome)
    ensures var (d', r) := Upload(sv, d, taskId, filename, name, id, up, save, del, pub);
            var safe := SanitizeAttachmentFilename(filename);
            && (r.Ok? <==> sv.storage && taskId in d.tasks && Acceptable(safe) && up == Works && save == Works)
            && (r.Ok? ==>
                  && r.value == Record(id, taskId, safe, StorageKey(taskId, name, safe))
                  && d'.records == d.records[id := r.value] && d'.blobs == d.blobs + {r.value.key}
                  && d'.tasks == d.tasks && d'.queue == d.queue && d'.doomed == d.doomed && d'.givenUp == d.givenUp)
            && (r.Err? ==> r.error == if !sv.storage then StorageUnavailable else if taskId !in d.tasks then TaskNotFound
                  else if !Acceptable(safe) then InvalidFilename else if up != Works then UploadFailed else SaveFailed)
  {
  }

  /**
    The deletion of an attachment is answered with a yes if and only if the record is the task's and file and record
    were dealt with; then the record is gone, the file is gone or queued, and no other record is touched.
   */
  lemma DeleteAnswersExactly(sv: Services, d: Depot, taskId: Uuid, id: Uuid, del: Outcome, pub: Outcome, drop: Outcome)
    ensures var (d', r) := DeleteAttachment(sv, d, taskId, id, del, pub, drop);
            && (r.Ok? <==> id in d.records && d.records[id].taskId == taskId && TakenCare(sv, del, pub) && drop == Works)
            && (r.Ok? ==>
                  && d'.records == d.records - {id} && d'.tasks == d.tasks && GoneOrQueued(d', d.records[id].key)
                  && d'.blobs + {d.records[id].key} == d.blobs + {d.records[id].key})
            && (r == Err(NotFound) <==> id !in d.records || d.records[id].taskId != taskId)
            && (r == Err(NotFound) ==> d' == d)
  {
    if id in d.records && d.records[id].taskId == taskId {
      DealtWith(sv, d, Cleanup(taskId, id, d.records[id].key), del, pub);
    }
  }

  lemma DealtWith(sv: Services, d: Depot, e: Cleanup, del: Outcome, pub: Outcome)
    ensures var (d', ok) := DeleteObject(sv, d, e, del, pub);
            && (ok <==> TakenCare(sv, del, pub)) && (ok ==> GoneOrQueued(d', e.key))
            && d'.records == d.records && d'.tasks == d.tasks && d'.blobs <= d.blobs && d'.blobs + {e.key} == d.blobs + {e.key}
            && d.queue <= d'.queue
  {
    var d' := DeleteObject(sv, d, e, del, pub).0;
    if d'.queue == d.queue + [e] {
      assert d'.queue[|d.queue|].key == e.key;
    }
  }

  lemma StillGoneOrQueued(d: Depot, d': Depot, key: string)
    requires GoneOrQueued(d, key) && d'.blobs <= d.blobs && d.queue <= d'.queue
    ensures GoneOrQueued(d', key)
  {
    if Queued(d, key) {
      var i :| 0 <= i < |d.queue| && d.queue[i].key == key;
      assert d'.queue[i].key == key;
    }
  }

  ghost predicate AllTakenCare(sv: Services, listing: seq<Record>, outcomes: Uuid -> (Outcome, Outcome)) {
    forall r | r in listing :: TakenCare(sv, outcomes(r.id).0, outcomes(r.id).1)
  }

  lemma {:induction false} ObjectsAnswerExactly(sv: Services, d: Depot, taskId: Uuid, listing: seq<Record>, outcomes: Uuid -> (Outcome, Outcome))
    ensures var (d', ok) := DeleteObjects(sv, d, taskId, listing, outcomes);
            && (ok <==> AllTakenCare(sv, listing, outcomes))
            && (ok ==> forall r | r in listing :: GoneOrQueued(d', r.key))
            && d'.records == d.records && d'.tasks == d.tasks && d'.blobs <= d.blobs && d.queue <= d'.queue
    decreases |listing|
  {
    if listing != [] {
      var init, last := listing[..|listing| - 1], listing[|listing| - 1];
      assert listing == init + [last];
      ObjectsAnswerExactly(sv, d, taskId, init, outcomes);
      var (d1, ok) := DeleteObjects(sv, d, taskId, init, outcomes);
      if ok {
        var e := Cleanup(taskId, last.id, last.key);
        DealtWith(sv, d1, e, outcomes(last.id).0, outcomes(last.id).1);
        var d' := DeleteObject(sv, d1, e, outcomes(last.id).0, outcomes(last.id).1).0;
        forall r | r in init ensures GoneOrQueued(d', r.key) {
          StillGoneOrQueued(d1, d', r.key);
        }
      }
    }
  }

  /**
    The deletion of a task is answered with a yes if and only if the task is there, every file was dealt with and
    the row went; then task and records are gone, every file is gone or queued, and no other task's record is touched.
   */
  lemma DeleteTaskAnswersExactly(sv: Services, d: Depot, taskId: Uuid, listing: seq<Record>, outcomes: Uuid -> (Outcome, Outcome), drop: Outcome)
    requires Lists(d, taskId, listing)
    ensures var (d', r) := DeleteTask(sv, d, taskId, listing, outcomes, drop);
            && (r.Ok? <==> taskId in d.tasks && AllTakenCare(sv, listing, outcomes) && drop == Works)
            && (r.Ok? ==>
                  && d'.tasks == d.tasks - {taskId}
                  && (forall j :: j in d'.records <==> j in d.records && d.records[j].taskId != taskId)
                  && (forall j | j in d'.records :: d'.records[j] == d.records[j])
                  && (forall j | j in d.records && d.records[j].taskId == taskId :: GoneOrQueued(d', d.records[j].key)))
            && (r == Err(NotFound) <==> taskId !in d.tasks)
            && (r == Err(NotFound) ==> d' == d)
  {
    ObjectsAnswerExactly(sv, d, taskId, listing, outcomes);
    var (d1, ok) := DeleteObjects(sv, d, taskId, listing, outcomes);
    if ok {
      forall j | j in d.records && d.records[j].taskId == taskId ensures GoneOrQueued(WithoutTasks(d1, {taskId}), d.records[j].key) {
        assert d.records[j] in listing;
        StillGoneOrQueued(d1, WithoutTasks(d1, {taskId}), d.records[j].key);
      }
    }
  }

  /** The handler takes exactly its event off the queue, and deletes exactly its file unless that fails, which is then known. */
  lemma HandlerCleans(sv: Services, d: Depot, i: nat, del: Outcome)
    requires i < |d.queue|
    ensures var d', key := Handle(sv, d, i, del), d.queue[i].key;
            && multiset(d'.queue) + multiset{d.queue[i]} == multiset(d.queue)
            && d'.records == d.records && d'.tasks == d.tasks
            && (if sv.storage && del != Fails then d'.blobs == d.blobs - {key} && d'.givenUp == d.givenUp
                else d'.blobs == d.blobs && d'.givenUp == d.givenUp + {key})
  {
    assert d.queue == d.queue[..i] + [d.queue[i]] + d.queue[i + 1..];
  }
}
