/// The task manager: a registry of tasks and their control handles, with the
/// lifecycle operations, listings, history trimming and bulk cancellation.
module TaskManagement {
  import opened Common
  import opened TaskTypes

  /** What the manager keeps of a task's control handle: whether the one-shot
      cancel signal has not been sent yet, and whether the join handle is still
      attached (it is taken when the task is aborted). */
  datatype TaskHandle = TaskHandle(taskId: string, cancelArmed: bool, joinAttached: bool)

  /** Events broadcast to subscribers, in the order they are sent. */
  datatype TaskEvent =
    | TaskCreated(info: TaskInfo)
    | TaskStarted(id: string)
    | TaskProgressed(id: string, progress: TaskProgress)
    | TaskCompleted(id: string, result: TaskResult)
    | TaskCancelled(id: string)
    | TaskFailed(id: string, error: string)

  /** The event `complete_task` sends: Completed for a successful result,
      Failed with the error text (empty when absent) otherwise. */
  function CompletionEvent(id: string, result: TaskResult): TaskEvent
  {
    if result.success then TaskCompleted(id, result)
    else TaskFailed(id, if result.error.Some? then result.error.value else "")
  }

  /** The handle map after the cancel signal of `id`'s handle, if any, is sent. */
  function SignalCancel(handles: map<string, TaskHandle>, id: string): map<string, TaskHandle>
  {
    if id in handles then handles[id := handles[id].(cancelArmed := false)] else handles
  }

  /** The handle map after `id`'s running future, if any, is aborted. */
  function AbortJoin(handles: map<string, TaskHandle>, id: string): map<string, TaskHandle>
  {
    if id in handles then handles[id := handles[id].(joinAttached := false)] else handles
  }

  /** The tasks the listing operations select. */
  datatype TaskFilter = AllTasks | ActiveTasks | BackgroundTasks | TerminalTasks

  predicate Matches(f: TaskFilter, t: Task)
  {
    match f
    case AllTasks => true
    case ActiveTasks => IsActive(t)
    case BackgroundTasks => t.background && IsActive(t)
    case TerminalTasks => IsTerminal(t)
  }

  function FilteredIds(tasks: map<string, Task>, f: TaskFilter): set<string>
  {
    set id | id in tasks && Matches(f, tasks[id])
  }

  function ActiveIds(tasks: map<string, Task>): set<string>
  {
    FilteredIds(tasks, ActiveTasks)
  }

  function TerminalIds(tasks: map<string, Task>): set<string>
  {
    FilteredIds(tasks, TerminalTasks)
  }

  /** Storing a new Pending task under an unused id takes one more of the
      concurrency slots `can_start_task` counts. */
  lemma NewTaskTakesSlot(tasks: map<string, Task>, id: string, kind: TaskKind, name: string, now: Instant)
    requires id !in tasks
    ensures |ActiveIds(tasks[id := NewTask(id, kind, name, now)])| == |ActiveIds(tasks)| + 1
  {
    var after := tasks[id := NewTask(id, kind, name, now)];
    assert ActiveIds(after) == ActiveIds(tasks) + {id};
  }

  /** The completion time history trimming sorts by; a task without one sorts
      first, as the empty text does in the source. */
  function CompletionKey(t: Task): Instant
  {
    if t.completedAt.Some? then t.completedAt.value else 0
  }

  /** Every task of `after` is stored unchanged in `before`. */
  ghost predicate Survivors(before: map<string, Task>, after: map<string, Task>)
  {
    forall id :: id in after ==> id in before && after[id] == before[id]
  }

  /** Every task of `before` that has not finished is still in `after`. */
  ghost predicate KeepsUnfinished(before: map<string, Task>, after: map<string, Task>)
  {
    forall id :: id in before && !IsTerminal(before[id]) ==> id in after
  }

  /** Every dropped task completed no later than every kept terminal task. */
  ghost predicate OldestDropped(before: map<string, Task>, after: map<string, Task>)
  {
    forall gone, kept :: gone in before && gone !in after && kept in TerminalIds(after)
      ==> CompletionKey(before[gone]) <= CompletionKey(after[kept])
  }

  /** `after`/`afterHandles` is a history trim of `before`/`beforeHandles`:
      only terminal tasks are dropped, the rest are untouched, as many
      terminal tasks stay as the history allows, every dropped task completed
      no later than every kept terminal one, and handles go with their tasks. */
  ghost predicate HistoryTrimmed(before: map<string, Task>, beforeHandles: map<string, TaskHandle>,
                                 after: map<string, Task>, afterHandles: map<string, TaskHandle>,
                                 maxHistory: nat)
  {
    Survivors(before, after)
    && KeepsUnfinished(before, after)
    && |TerminalIds(after)| == Min(|TerminalIds(before)|, maxHistory)
    && OldestDropped(before, after)
    && afterHandles == beforeHandles - (before.Keys - after.Keys)
  }

  /** A terminal task with its completion key, as collected for trimming. */
  datatype HistoryEntry = HistoryEntry(id: string, key: Instant)

  predicate SortedByKey(xs: seq<HistoryEntry>)
  {
    forall i, j :: 0 <= i < j < |xs| ==> xs[i].key <= xs[j].key
  }

  predicate DistinctEntryIds(xs: seq<HistoryEntry>)
  {
    forall i, j :: 0 <= i < j < |xs| ==> xs[i].id != xs[j].id
  }

  /** Inserts `e` after every entry whose key is not greater than its own. */
  function InsertByKey(e: HistoryEntry, xs: seq<HistoryEntry>): (r: seq<HistoryEntry>)
    requires SortedByKey(xs)
    ensures SortedByKey(r) && multiset(r) == multiset(xs) + multiset{e}
    ensures r[0] == e || (xs != [] && r[0] == xs[0])
    decreases |xs|
  {
    if xs == [] then [e]
    else if e.key < xs[0].key then ConsSorted(e, xs); [e] + xs
    else
      var rest := InsertByKey(e, xs[1..]);
      assert xs == [xs[0]] + xs[1..];
      assert multiset([xs[0]] + rest) == multiset{xs[0]} + multiset(rest);
      ConsSorted(xs[0], rest);
      [xs[0]] + rest
  }

  /** An entry no later than the head of a sorted list can go in front. */
  lemma ConsSorted(x: HistoryEntry, rest: seq<HistoryEntry>)
    requires SortedByKey(rest) && rest != [] && x.key <= rest[0].key
    ensures SortedByKey([x] + rest)
  {
    var ys := [x] + rest;
    forall i, j | 0 <= i < j < |ys| ensures ys[i].key <= ys[j].key {
      if i == 0 {
        assert ys[j] == rest[j - 1];
      } else {
        assert ys[i] == rest[i - 1] && ys[j] == rest[j - 1];
      }
    }
  }

  /** The stable sort by completion key (`sort_by` on the collected pairs):
      a sorted permutation of its input. */
  function SortByKey(xs: seq<HistoryEntry>): (r: seq<HistoryEntry>)
    ensures SortedByKey(r) && multiset(r) == multiset(xs)
    decreases |xs|
  {
    if xs == [] then []
    else
      assert xs == xs[..|xs| - 1] + [xs[|xs| - 1]];
      InsertByKey(xs[|xs| - 1], SortByKey(xs[..|xs| - 1]))
  }

  /** In entries with distinct ids every entry occurs at most once. */
  lemma {:induction false} DistinctOccursOnce(xs: seq<HistoryEntry>, v: HistoryEntry)
    requires DistinctEntryIds(xs)
    ensures multiset(xs)[v] <= 1
  {
    if xs != [] {
      assert xs == [xs[0]] + xs[1..];
      DistinctOccursOnce(xs[1..], v);
      if xs[0] == v {
        assert v !in xs[1..];
      }
    }
  }

  /** An entry at two positions occurs at least twice. */
  lemma OccursTwice(ys: seq<HistoryEntry>, i: nat, j: nat)
    requires i < j < |ys| && ys[i] == ys[j]
    ensures multiset(ys)[ys[i]] >= 2
  {
    assert ys == ys[..j] + [ys[j]] + ys[j + 1..];
    assert ys[..j][i] == ys[i];
  }

  /** Reordering entries keeps their ids distinct. */
  lemma PermutationKeepsDistinct(xs: seq<HistoryEntry>, ys: seq<HistoryEntry>)
    requires multiset(xs) == multiset(ys) && DistinctEntryIds(xs)
    ensures DistinctEntryIds(ys)
  {
    forall i, j | 0 <= i < j < |ys| ensures ys[i].id != ys[j].id {
      if ys[i] == ys[j] {
        OccursTwice(ys, i, j);
        DistinctOccursOnce(xs, ys[i]);
      } else {
        assert ys[i] in multiset(xs) && ys[j] in multiset(xs);
        var p :| 0 <= p < |xs| && xs[p] == ys[i];
        var q :| 0 <= q < |xs| && xs[q] == ys[j];
      }
    }
  }

  /** The ids of the first `k` entries. */
  function RemovedIds(sorted: seq<HistoryEntry>, k: nat): set<string>
    requires k <= |sorted|
  {
    set j | 0 <= j < k :: sorted[j].id
  }

  /** `sorted` lists every terminal task of `tasks` once, with its completion
      key, oldest first. */
  ghost predicate CollectedHistory(sorted: seq<HistoryEntry>, tasks: map<string, Task>)
  {
    DistinctEntryIds(sorted) && SortedByKey(sorted)
    && (forall x :: x in sorted ==> x.id in TerminalIds(tasks) && x.key == CompletionKey(tasks[x.id]))
    && (forall id :: id in TerminalIds(tasks) ==> exists x :: x in sorted && x.id == id)
  }

  /** One more entry removes one more id. */
  lemma RemovedIdsStep(sorted: seq<HistoryEntry>, k: nat)
    requires k < |sorted|
    ensures RemovedIds(sorted, k + 1) == RemovedIds(sorted, k) + {sorted[k].id}
  {
  }

  /** Distinct entries name as many ids as there are entries. */
  lemma {:induction false} RemovedIdsCount(sorted: seq<HistoryEntry>, k: nat)
    requires DistinctEntryIds(sorted) && k <= |sorted|
    ensures |RemovedIds(sorted, k)| == k
  {
    if k > 0 {
      RemovedIdsCount(sorted, k - 1);
      assert RemovedIds(sorted, k) == RemovedIds(sorted, k - 1) + {sorted[k - 1].id};
      assert sorted[k - 1].id !in RemovedIds(sorted, k - 1);
    }
  }

  /** The dropped entries are all terminal tasks, and the sorted entries
      name exactly the terminal tasks. */
  lemma CollectedIds(sorted: seq<HistoryEntry>, tasks: map<string, Task>, k: nat)
    requires CollectedHistory(sorted, tasks) && k <= |sorted|
    ensures RemovedIds(sorted, k) <= TerminalIds(tasks)
    ensures RemovedIds(sorted, |sorted|) == TerminalIds(tasks)
    ensures |TerminalIds(tasks)| == |sorted|
  {
    assert forall j :: 0 <= j < |sorted| ==> sorted[j] in sorted;
    forall id | id in TerminalIds(tasks) ensures id in RemovedIds(sorted, |sorted|) {
      var x :| x in sorted && x.id == id;
      var m :| 0 <= m < |sorted| && sorted[m] == x;
    }
    RemovedIdsCount(sorted, |sorted|);
  }

  /** Dropping all but `maxHistory` of the sorted terminal tasks leaves as
      many terminal tasks as the history allows. */
  lemma TrimmedCount(sorted: seq<HistoryEntry>, before: map<string, Task>, maxHistory: nat)
    requires CollectedHistory(sorted, before)
    ensures var k := SaturatingSub(|sorted|, maxHistory);
      |TerminalIds(before - RemovedIds(sorted, k))| == Min(|TerminalIds(before)|, maxHistory)
  {
    var k := SaturatingSub(|sorted|, maxHistory);
    var removed := RemovedIds(sorted, k);
    var terminal := TerminalIds(before);
    CollectedIds(sorted, before, k);
    RemovedIdsCount(sorted, k);
    assert TerminalIds(before - removed) == terminal - removed;
    assert terminal * removed == removed;
  }

  /** Every dropped task completed no later than every kept terminal task. */
  lemma TrimmedOldestFirst(sorted: seq<HistoryEntry>, before: map<string, Task>, k: nat)
    requires CollectedHistory(sorted, before) && k <= |sorted|
    ensures OldestDropped(before, before - RemovedIds(sorted, k))
  {
    var after := before - RemovedIds(sorted, k);
    forall gone, kept | gone in before && gone !in after && kept in TerminalIds(after)
      ensures CompletionKey(before[gone]) <= CompletionKey(after[kept])
    {
      var j :| 0 <= j < k && sorted[j].id == gone;
      assert sorted[j] in sorted;
      assert kept in TerminalIds(before);
      var x :| x in sorted && x.id == kept;
      var m :| 0 <= m < |sorted| && sorted[m] == x;
      assert m >= k;
    }
  }

  /** Dropping sorted terminal tasks keeps every unfinished task. */
  lemma TrimKeepsUnfinished(sorted: seq<HistoryEntry>, before: map<string, Task>, k: nat)
    requires CollectedHistory(sorted, before) && k <= |sorted|
    ensures KeepsUnfinished(before, before - RemovedIds(sorted, k))
  {
    CollectedIds(sorted, before, k);
    forall id | id in before && !IsTerminal(before[id])
      ensures id in before - RemovedIds(sorted, k)
    {
      assert id !in TerminalIds(before);
    }
  }

  /** Dropping sorted terminal tasks drops exactly their ids from the keys. */
  lemma TrimmedKeys(sorted: seq<HistoryEntry>, before: map<string, Task>, k: nat)
    requires CollectedHistory(sorted, before) && k <= |sorted|
    ensures before.Keys - (before - RemovedIds(sorted, k)).Keys == RemovedIds(sorted, k)
  {
    CollectedIds(sorted, before, k);
  }

  /** Removing the first `|sorted| - maxHistory` entries of the sorted
      terminal tasks is a history trim. */
  lemma TrimmingDropsOldestFirst(before: map<string, Task>, beforeHandles: map<string, TaskHandle>,
                                 sorted: seq<HistoryEntry>, maxHistory: nat)
    requires CollectedHistory(sorted, before)
    ensures var k := SaturatingSub(|sorted|, maxHistory);
      HistoryTrimmed(before, beforeHandles, before - RemovedIds(sorted, k),
                     beforeHandles - RemovedIds(sorted, k), maxHistory)
  {
    var k := SaturatingSub(|sorted|, maxHistory);
    TrimmedCount(sorted, before, maxHistory);
    TrimKeepsUnfinished(sorted, before, k);
    TrimmedOldestFirst(sorted, before, k);
    TrimmedKeys(sorted, before, k);
  }

  /** The task map after the tasks named in `ids` are cancelled where they
      are cancellable; every other task is unchanged. */
  function CancelledTasks(tasks: map<string, Task>, ids: set<string>, now: Instant): (r: map<string, Task>)
    ensures r.Keys == tasks.Keys
  {
    map id | id in tasks :: if id in ids && tasks[id].cancellable then Cancel(tasks[id], now) else tasks[id]
  }

  /** The handle map after the tasks named in `ids` are cancelled: every such
      handle has its signal sent and is dropped when its task was cancelled. */
  function CancelledHandles(handles: map<string, TaskHandle>, tasks: map<string, Task>,
                            ids: set<string>): (r: map<string, TaskHandle>)
    ensures r.Keys <= handles.Keys
  {
    map id | id in handles && !(id in ids && id in tasks && tasks[id].cancellable)
      :: if id in ids then handles[id].(cancelArmed := false) else handles[id]
  }

  /** The events cancelling `ids` in this order sends: one per cancellable
      task. */
  function CancelEvents(tasks: map<string, Task>, ids: seq<string>): seq<TaskEvent>
  {
    if ids == [] then []
    else CancelEvents(tasks, ids[..|ids| - 1])
         + (var id := ids[|ids| - 1]; if id in tasks && tasks[id].cancellable then [TaskCancelled(id)] else [])
  }

  lemma CancelEventsAppend(tasks: map<string, Task>, ids: seq<string>, id: string)
    ensures CancelEvents(tasks, ids + [id]) ==
      CancelEvents(tasks, ids) + (if id in tasks && tasks[id].cancellable then [TaskCancelled(id)] else [])
  {
    assert (ids + [id])[..|ids|] == ids;
  }

  /** Cancelling one more task, not cancelled before, changes the task map as
      one `CancelTask` does. */
  lemma CancelStepTasks(tasks: map<string, Task>, done: set<string>, id: string, now: Instant)
    requires id in tasks && id !in done
    ensures var t := CancelledTasks(tasks, done, now);
      id in t && t[id] == tasks[id]
    ensures CancelledTasks(tasks, done + {id}, now) ==
      if tasks[id].cancellable then CancelledTasks(tasks, done, now)[id := Cancel(tasks[id], now)]
      else CancelledTasks(tasks, done, now)
  {
  }

  /** Cancelling one more task, not cancelled before, changes the handle map
      as one `CancelTask` does. */
  lemma CancelStepHandles(tasks: map<string, Task>, handles: map<string, TaskHandle>,
                          done: set<string>, id: string)
    requires id in tasks && id !in done
    ensures CancelledHandles(handles, tasks, done + {id}) ==
      if tasks[id].cancellable then CancelledHandles(handles, tasks, done) - {id}
      else SignalCancel(CancelledHandles(handles, tasks, done), id)
  {
  }

  /** After cancelling every active task no task is both active and
      cancellable; the cancelled ones carry the cancellation time, and every
      other task is as it was. */
  lemma CancelAllEffect(tasks: map<string, Task>, now: Instant)
    ensures var r := CancelledTasks(tasks, ActiveIds(tasks), now);
      (forall id :: id in r ==> !(IsActive(r[id]) && r[id].cancellable))
      && (forall id :: id in tasks && IsActive(tasks[id]) && tasks[id].cancellable ==>
            r[id].status == Cancelled && r[id].completedAt == Some(now))
      && (forall id :: id in tasks && !(IsActive(tasks[id]) && tasks[id].cancellable) ==> r[id] == tasks[id])
  {
  }

  class TaskManager {
    var tasks: map<string, Task>
    var handles: map<string, TaskHandle>
    /** Every event broadcast so far. */
    var events: seq<TaskEvent>
    const maxConcurrent: nat
    const maxHistory: nat

    /** Every task is stored under its own id. */
    ghost predicate Valid()
      reads this
    {
      forall id :: id in tasks ==> tasks[id].id == id
    }

    /** An empty manager running at most 10 tasks and keeping 100 finished ones. */
    constructor ()
      ensures tasks == map[] && handles == map[] && events == []
      ensures Valid() && maxConcurrent == 10 && maxHistory == 100
    {
      tasks := map[];
      handles := map[];
      events := [];
      maxConcurrent := 10;
      maxHistory := 100;
    }

    constructor WithLimits(maxConcurrent: nat, maxHistory: nat)
      ensures tasks == map[] && handles == map[] && events == []
      ensures Valid() && this.maxConcurrent == maxConcurrent && this.maxHistory == maxHistory
    {
      tasks := map[];
      handles := map[];
      events := [];
      this.maxConcurrent := maxConcurrent;
      this.maxHistory := maxHistory;
    }

    /** A new Pending task is stored under its (freshly generated) id and
        announced; nothing else changes. */
    method CreateTask(id: string, kind: TaskKind, name: string, now: Instant) returns (task: Task)
      requires Valid()
      modifies this
      ensures Valid()
      ensures task == NewTask(id, kind, name, now)
      ensures tasks == old(tasks)[id := task] && handles == old(handles)
      ensures events == old(events) + [TaskCreated(InfoOf(task))]
    {
      task := NewTask(id, kind, name, now);
      tasks := tasks[id := task];
      events := events + [TaskCreated(InfoOf(task))];
    }

    method RegisterHandle(id: string, handle: TaskHandle)
      requires Valid()
      modifies this
      ensures Valid()
      ensures handles == old(handles)[id := handle]
      ensures tasks == old(tasks) && events == old(events)
    {
      handles := handles[id := handle];
    }

    /** Starts a known task; an unknown id is an error and changes nothing. */
    method StartTask(id: string, now: Instant) returns (r: Result<(), string>)
      requires Valid()
      modifies this
      ensures Valid()
      ensures id in old(tasks) ==> r == Ok(()) && tasks == old(tasks)[id := Start(old(tasks)[id], now)]
                                   && events == old(events) + [TaskStarted(id)]
      ensures id !in old(tasks) ==> r == Err("Task not found: " + id) && tasks == old(tasks) && events == old(events)
      ensures handles == old(handles)
    {
      if id in tasks {
        tasks := tasks[id := Start(tasks[id], now)];
        events := events + [TaskStarted(id)];
        r := Ok(());
      } else {
        r := Err("Task not found: " + id);
      }
    }

    /** Replaces the progress of a known task; an unknown id is ignored. */
    method UpdateProgress(id: string, progress: TaskProgress)
      requires Valid()
      modifies this
      ensures Valid()
      ensures id in old(tasks) ==> tasks == old(tasks)[id := old(tasks)[id].(progress := progress)]
                                   && events == old(events) + [TaskProgressed(id, progress)]
      ensures id !in old(tasks) ==> tasks == old(tasks) && events == old(events)
      ensures handles == old(handles)
    {
      if id in tasks {
        tasks := tasks[id := tasks[id].(progress := progress)];
        events := events + [TaskProgressed(id, progress)];
      }
    }

    /** Completes a known task (dropping its handle), then trims the history
        whether or not the id was known. */
    method CompleteTask(id: string, result: TaskResult, now: Instant)
      requires Valid()
      modifies this
      ensures Valid()
      ensures id in old(tasks) ==>
        HistoryTrimmed(old(tasks)[id := Complete(old(tasks)[id], result, now)], old(handles) - {id},
                       tasks, handles, maxHistory)
        && events == old(events) + [CompletionEvent(id, result)]
      ensures id !in old(tasks) ==>
        HistoryTrimmed(old(tasks), old(handles), tasks, handles, maxHistory) && events == old(events)
    {
      if id in tasks {
        tasks := tasks[id := Complete(tasks[id], result, now)];
        events := events + [CompletionEvent(id, result)];
        handles := handles - {id};
      }
      CleanupHistory();
    }

    /** Sends the cancel signal of the task's handle, if any, then cancels the
        task unless it is unknown or not cancellable. A cancellable task is
        cancelled whatever its status, even a finished one. */
    method CancelTask(id: string, now: Instant) returns (r: Result<(), string>)
      requires Valid()
      modifies this
      ensures Valid()
      ensures id !in old(tasks) ==>
        r == Err("Task not found: " + id) && tasks == old(tasks)
        && handles == SignalCancel(old(handles), id) && events == old(events)
      ensures id in old(tasks) && !old(tasks)[id].cancellable ==>
        r == Err("Task is not cancellable") && tasks == old(tasks)
        && handles == SignalCancel(old(handles), id) && events == old(events)
      ensures id in old(tasks) && old(tasks)[id].cancellable ==>
        r == Ok(()) && tasks == old(tasks)[id := Cancel(old(tasks)[id], now)]
        && handles == old(handles) - {id} && events == old(events) + [TaskCancelled(id)]
    {
      handles := SignalCancel(handles, id);
      if id !in tasks {
        return Err("Task not found: " + id);
      }
      if !tasks[id].cancellable {
        return Err("Task is not cancellable");
      }
      tasks := tasks[id := Cancel(tasks[id], now)];
      events := events + [TaskCancelled(id)];
      handles := handles - {id};
      r := Ok(());
    }

    /** Aborts the task's running future, if any, then cancels it as
        `CancelTask` does; the abort happens even when cancelling is refused. */
    method AbortTask(id: string, now: Instant) returns (r: Result<(), string>)
      requires Valid()
      modifies this
      ensures Valid()
      ensures id !in old(tasks) ==>
        r == Err("Task not found: " + id) && tasks == old(tasks)
        && handles == SignalCancel(AbortJoin(old(handles), id), id) && events == old(events)
      ensures id in old(tasks) && !old(tasks)[id].cancellable ==>
        r == Err("Task is not cancellable") && tasks == old(tasks)
        && handles == SignalCancel(AbortJoin(old(handles), id), id) && events == old(events)
      ensures id in old(tasks) && old(tasks)[id].cancellable ==>
        r == Ok(()) && tasks == old(tasks)[id := Cancel(old(tasks)[id], now)]
        && handles == old(handles) - {id} && events == old(events) + [TaskCancelled(id)]
    {
      handles := AbortJoin(handles, id);
      r := CancelTask(id, now);
    }

    function GetTask(id: string): (r: Option<Task>)
      reads this
      ensures r.Some? <==> id in tasks
      ensures r.Some? ==> r.value == tasks[id]
    {
      if id in tasks then Some(tasks[id]) else None
    }

    function GetTaskInfo(id: string): (r: Option<TaskInfo>)
      reads this
      ensures r.Some? <==> id in tasks
      ensures r.Some? ==> r.value == InfoOf(tasks[id])
    {
      if id in tasks then Some(InfoOf(tasks[id])) else None
    }

    /** The ids of the tasks `f` selects, each once, in the map's iteration
        order (which the model leaves open). */
    method MatchingIds(f: TaskFilter) returns (ids: seq<string>)
      ensures DistinctIds(ids) && |ids| == |FilteredIds(tasks, f)|
      ensures forall i :: 0 <= i < |ids| ==> ids[i] in FilteredIds(tasks, f)
      ensures forall id :: id in FilteredIds(tasks, f) ==> id in ids
    {
      ids := Enumerate(FilteredIds(tasks, f));
    }

    /** `list_tasks` and its filtered variants: the frontend view of every
        selected task, each once. */
    method ListTasks(f: TaskFilter) returns (infos: seq<TaskInfo>)
      requires Valid()
      ensures |infos| == |FilteredIds(tasks, f)|
      ensures forall i :: 0 <= i < |infos| ==> infos[i].id in FilteredIds(tasks, f) && infos[i] == InfoOf(tasks[infos[i].id])
      ensures forall i, j :: 0 <= i < j < |infos| ==> infos[i].id != infos[j].id
      ensures forall id :: id in FilteredIds(tasks, f) ==> exists i :: 0 <= i < |infos| && infos[i].id == id
    {
      var ids := MatchingIds(f);
      var current := tasks;
      infos := seq(|ids|, i requires 0 <= i < |ids| => InfoOf(current[ids[i]]));
      forall id | id in FilteredIds(tasks, f)
        ensures exists i :: 0 <= i < |infos| && infos[i].id == id
      {
        var i :| 0 <= i < |ids| && ids[i] == id;
        assert infos[i].id == id;
      }
    }

    /** The number of Pending or Running tasks. */
    function ActiveCount(): (n: nat)
      reads this
      ensures n == |ActiveIds(tasks)|
      ensures forall id :: id in ActiveIds(tasks) <==> id in tasks && (tasks[id].status == Pending || tasks[id].status == Running)
    {
      |ActiveIds(tasks)|
    }

    /** Another task may start exactly while fewer than `maxConcurrent` tasks
        are Pending or Running. */
    predicate CanStartTask()
      reads this
      ensures CanStartTask() <==> |ActiveIds(tasks)| < maxConcurrent
    {
      ActiveCount() < maxConcurrent
    }

    /** The terminal tasks with their completion keys, sorted oldest first. */
    method CollectHistory() returns (sorted: seq<HistoryEntry>)
      ensures CollectedHistory(sorted, tasks)
    {
      var ids := MatchingIds(TerminalTasks);
      var current := tasks;
      var entries := seq(|ids|, i requires 0 <= i < |ids| =>
                         HistoryEntry(ids[i], CompletionKey(current[ids[i]])));
      sorted := SortByKey(entries);
      PermutationKeepsDistinct(entries, sorted);
      forall x | x in sorted
        ensures x.id in TerminalIds(current) && x.key == CompletionKey(current[x.id])
      {
        assert x in multiset(entries);
      }
      forall id | id in TerminalIds(current)
        ensures exists x :: x in sorted && x.id == id
      {
        var i :| 0 <= i < |ids| && ids[i] == id;
        assert entries[i] in multiset(sorted);
      }
    }

    /** Drops the terminal tasks that completed earliest, with their handles,
        until at most `maxHistory` terminal tasks remain. */
    method CleanupHistory()
      requires Valid()
      modifies this
      ensures Valid()
      ensures HistoryTrimmed(old(tasks), old(handles), tasks, handles, maxHistory)
      ensures events == old(events)
    {
      var sorted := CollectHistory();
      TrimmingDropsOldestFirst(tasks, handles, sorted, maxHistory);
      DropEntries(sorted, SaturatingSub(|sorted|, maxHistory));
    }

    /** Removes the tasks and handles of the first `count` entries. */
    method DropEntries(sorted: seq<HistoryEntry>, count: nat)
      requires count <= |sorted|
      modifies this
      ensures tasks == old(tasks) - RemovedIds(sorted, count)
      ensures handles == old(handles) - RemovedIds(sorted, count)
      ensures events == old(events)
    {
      var i := 0;
      while i < count
        invariant 0 <= i <= count
        invariant tasks == old(tasks) - RemovedIds(sorted, i)
        invariant handles == old(handles) - RemovedIds(sorted, i)
        invariant events == old(events)
      {
        RemovedIdsStep(sorted, i);
        tasks := tasks - {sorted[i].id};
        handles := handles - {sorted[i].id};
        i := i + 1;
      }
    }

    /** Drops every terminal task with its handle and keeps every other task. */
    method ClearCompleted()
      requires Valid()
      modifies this
      ensures Valid()
      ensures tasks == old(tasks) - TerminalIds(old(tasks))
      ensures handles == old(handles) - TerminalIds(old(tasks))
      ensures events == old(events)
    {
      var ids := MatchingIds(TerminalTasks);
      var i := 0;
      while i < |ids|
        invariant 0 <= i <= |ids|
        invariant tasks == old(tasks) - (set j | 0 <= j < i :: ids[j])
        invariant handles == old(handles) - (set j | 0 <= j < i :: ids[j])
        invariant events == old(events)
      {
        assert (set j | 0 <= j < i + 1 :: ids[j]) == (set j | 0 <= j < i :: ids[j]) + {ids[i]};
        tasks := tasks - {ids[i]};
        handles := handles - {ids[i]};
        i := i + 1;
      }
      assert (set j | 0 <= j < |ids| :: ids[j]) == TerminalIds(old(tasks));
    }

    /** `cancel_all`: cancels every Pending or Running task in turn, as
        `CancelTask` does, ignoring each outcome. The turn order is the map's
        iteration order, returned as `order`; only the events depend on it. */
    method CancelAll(now: Instant) returns (ghost order: seq<string>)
      requires Valid()
      modifies this
      ensures Valid()
      ensures DistinctIds(order) && (forall id :: id in order <==> id in ActiveIds(old(tasks)))
      ensures tasks == CancelledTasks(old(tasks), ActiveIds(old(tasks)), now)
      ensures handles == CancelledHandles(old(handles), old(tasks), ActiveIds(old(tasks)))
      ensures events == old(events) + CancelEvents(old(tasks), order)
    {
      var ids := MatchingIds(ActiveTasks);
      IdsOfListing(ids, ActiveIds(tasks));
      CancelInOrder(ids, now);
      order := ids;
    }

    /** The manager's state once the tasks `turns` lists were cancelled in
        order, starting from `before`, `beforeHandles` and `beforeEvents`. */
    ghost predicate CancelledInTurn(before: map<string, Task>, beforeHandles: map<string, TaskHandle>,
                                    beforeEvents: seq<TaskEvent>, turns: seq<string>, now: Instant)
      reads this
    {
      Valid()
      && tasks == CancelledTasks(before, IdSet(turns), now)
      && handles == CancelledHandles(beforeHandles, before, IdSet(turns))
      && events == beforeEvents + CancelEvents(before, turns)
    }

    /** Cancels the tasks `ids` names, one after the other. */
    method CancelInOrder(ids: seq<string>, now: Instant)
      requires Valid() && DistinctIds(ids) && forall i :: 0 <= i < |ids| ==> ids[i] in tasks
      modifies this
      ensures CancelledInTurn(old(tasks), old(handles), old(events), ids, now)
    {
      ghost var before := tasks;
      assert IdSet([]) == {};
      var i := 0;
      while i < |ids|
        invariant 0 <= i <= |ids|
        invariant CancelledInTurn(before, old(handles), old(events), ids[..i], now)
      {
        IdSetStep(ids, i);
        assert ids[..i + 1] == ids[..i] + [ids[i]];
        CancelNext(ids[i], now, before, old(handles), old(events), ids[..i]);
        i := i + 1;
      }
      assert ids[..|ids|] == ids;
    }

    /** One turn of `CancelInOrder`: cancelling a task not cancelled yet. */
    method CancelNext(id: string, now: Instant, ghost before: map<string, Task>,
                      ghost beforeHandles: map<string, TaskHandle>, ghost beforeEvents: seq<TaskEvent>,
                      ghost turns: seq<string>)
      requires id in before && id !in IdSet(turns)
      requires IdSet(turns + [id]) == IdSet(turns) + {id}
      requires CancelledInTurn(before, beforeHandles, beforeEvents, turns, now)
      modifies this
      ensures CancelledInTurn(before, beforeHandles, beforeEvents, turns + [id], now)
    {
      CancelEventsAppend(before, turns, id);
      CancelStepTasks(before, IdSet(turns), id, now);
      CancelStepHandles(before, beforeHandles, IdSet(turns), id);
      var _ := CancelTask(id, now);
    }
  }
}
