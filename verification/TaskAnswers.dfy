/** What the two reads of the task use case answer, from the cache or not, page by page. */
module TaskAnswers {
  import opened Prelude
  import opened CacheKeys
  import opened MemoryCache
  import opened EntryCache
  import opened ListKeys
  import opened Tasks
  import opened TaskTheorems

  // ---- Exact copies answer like the database ----

  lemma ExactAnswers(dir: Directory, s: TaskState, now: Time, id: Uuid, f: TaskFilter, p: Pagination)
    requires CopiesExact(s, now) && ListsExact(dir, s, now) && PlainQuery(f, p)
    ensures GetTask(s, now, id).1 == if id in s.tasks then Ok(s.tasks[id]) else Err(TaskNotFound)
    ensures ListTasks(s, dir, now, true, f, p).1 == Ok(FindAll(dir, s.tasks, f, p))
    ensures var page := ListTasks(s, dir, now, true, f, p).1.value;
            page.total == |s.tasks| && page.page == p.page && page.pageSize == p.pageSize
  {
    assert CopyExact(s, now, id) && ListExact(dir, s, now, f, p);
  }

  /**
    In every run whose list queries are plain and whose user deletions meet no copy, both reads answer what the
    database holds now.
   */
  lemma AnswersExactInRuns(dir: Directory, start: TaskState, trace: seq<TimedStep>, now: Time, id: Uuid, f: TaskFilter, p: Pagination)
    requires Empty(start) && Proper(dir, start, trace) && NotBefore(trace, now) && PlainQuery(f, p)
    requires forall i | 0 <= i < |trace| :: LeavesCopiesRight(Run(dir, start, trace[..i]), trace[i].at, trace[i].step)
    ensures var s := Run(dir, start, trace);
            && GetTask(s, now, id).1 == (if id in s.tasks then Ok(s.tasks[id]) else Err(TaskNotFound))
            && ListTasks(s, dir, now, true, f, p).1 == Ok(FindAll(dir, s.tasks, f, p))
  {
    CopiesExactInRuns(dir, start, trace, now);
    ExactAnswers(dir, Run(dir, start, trace), now, id, f, p);
  }

  // ---- A cached answer is given again ----

  /** No list is under the query's key. */
  ghost predicate ListMissed(s: TaskState, now: Time, f: TaskFilter, p: Pagination) {
    !(Live(s.cache, now, ListKey(f, p)) && s.cache[ListKey(f, p)].value.CachedList?)
  }

  /**
    A list asked for again is answered the same, whatever the query and whatever became of the rows in between,
    for as long as its entry lives; and an entry just made lives two minutes.
   */
  lemma ListAnsweredAgain(dir: Directory, s: TaskState, now: Time, t: TaskState, later: Time, f: TaskFilter, p: Pagination)
    requires now <= later && t.cache == ListTasks(s, dir, now, true, f, p).0.cache
    ensures Live(t.cache, later, ListKey(f, p)) ==> ListTasks(t, dir, later, true, f, p).1 == ListTasks(s, dir, now, true, f, p).1
    ensures ListMissed(s, now, f, p) ==> (Live(t.cache, later, ListKey(f, p)) <==> later <= now + 120 * SECOND)
  {
  }

  ghost predicate TaskMissed(s: TaskState, now: Time, id: Uuid) {
    !(Live(s.cache, now, TaskKey(id)) && s.cache[TaskKey(id)].value.CachedTask?)
  }

  /** So is a task that was found, for five minutes from when it was read from the database. */
  lemma TaskAnsweredAgain(s: TaskState, now: Time, t: TaskState, later: Time, id: Uuid)
    requires now <= later && t.cache == GetTask(s, now, id).0.cache && GetTask(s, now, id).1.Ok?
    ensures Live(t.cache, later, TaskKey(id)) ==> GetTask(t, later, id).1 == GetTask(s, now, id).1
    ensures TaskMissed(s, now, id) ==> (Live(t.cache, later, TaskKey(id)) <==> later <= now + 300 * SECOND)
  {
  }

  /** A query the validator refuses is answered so, and changes nothing. */
  lemma InvalidListRefused(dir: Directory, s: TaskState, now: Time, f: TaskFilter, p: Pagination)
    ensures ListTasks(s, dir, now, false, f, p) == (s, Err(InvalidInput))
  {
  }

  // ---- One filter counts ----

  /** Status before assignee before creator before search: the first that is set is the only one that counts. */
  lemma FirstFilterCounts(f: TaskFilter)
    ensures forall st :: SelectionOf(f) == ByStatus(st) <==> f.status == Some(st)
    ensures forall u :: SelectionOf(f) == ByAssignee(u) <==> f.status.None? && f.assigneeId == Some(u)
    ensures forall u :: SelectionOf(f) == ByCreator(u) <==> f.status.None? && f.assigneeId.None? && f.creatorId == Some(u)
    ensures forall text :: SelectionOf(f) == BySearch(text)
              <==> f.status.None? && f.assigneeId.None? && f.creatorId.None? && f.search != "" && text == f.search
    ensures SelectionOf(f) == Everything <==> f.status.None? && f.assigneeId.None? && f.creatorId.None? && f.search == ""
  {
  }

  // ---- Pages ----

  function Min(a: nat, b: nat): nat {
    if a <= b then a else b
  }

  /** The database cuts a limit and an offset out of the rows it selects. */
  ghost predicate Cuts(dir: Directory, selected: (Selection, map<Uuid, Task>) -> seq<Task>) {
    forall sel: Selection, limit: int, offset: int, tasks: map<Uuid, Task> | limit >= 0 && offset >= 0 ::
      var all := selected(sel, tasks);
      dir.rows(sel, limit, offset, tasks) == all[Min(offset, |all|)..Min(offset + limit, |all|)]
  }

  /** The tasks listed on the first pages, one page after another. */
  function Pages(dir: Directory, tasks: map<Uuid, Task>, f: TaskFilter, p: Pagination, n: nat): seq<Task> {
    if n == 0 then [] else Pages(dir, tasks, f, p, n - 1) + FindAll(dir, tasks, f, p.(page := n)).tasks
  }

  /** Page after page, every selected row is listed, in order and once. */
  lemma {:induction false} PagesTile(dir: Directory, selected: (Selection, map<Uuid, Task>) -> seq<Task>,
                                     tasks: map<Uuid, Task>, f: TaskFilter, p: Pagination, n: nat)
    requires Cuts(dir, selected) && p.pageSize >= 0
    ensures var all := selected(SelectionOf(f), tasks);
            n * p.pageSize >= 0 && Pages(dir, tasks, f, p, n) == all[..Min(n * p.pageSize, |all|)]
  {
    var all := selected(SelectionOf(f), tasks);
    if n > 0 {
      PagesTile(dir, selected, tasks, f, p, n - 1);
      var from := (n - 1) * p.pageSize;
      assert n * p.pageSize == from + p.pageSize;
      assert FindAll(dir, tasks, f, p.(page := n)).tasks == all[Min(from, |all|)..Min(from + p.pageSize, |all|)];
    }
  }
}
