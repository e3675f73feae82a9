/// The frontend commands over the task manager: lookups that turn a missing
/// task into an error message, result pass-through, and the count summary.
module TaskCommands {
  import opened Common
  import opened TaskTypes
  import opened TaskManagement

  /** The count summary the frontend shows. */
  datatype TaskCount = TaskCount(total: nat, active: nat, completed: nat, failed: nat, cancelled: nat)

  /** The number of listed tasks whose status name is `name`. */
  function CountStatus(infos: seq<TaskInfo>, name: string): (n: nat)
    ensures n <= |infos|
  {
    if infos == [] then 0
    else CountStatus(infos[..|infos| - 1], name) + (if infos[|infos| - 1].status == name then 1 else 0)
  }

  /** The summary of a listing, given the manager's active count. */
  function CountSummary(all: seq<TaskInfo>, active: nat): TaskCount
  {
    TaskCount(|all|, active, CountStatus(all, StatusName(Completed)), CountStatus(all, StatusName(Failed)),
              CountStatus(all, StatusName(Cancelled)))
  }

  /** The ids of the tasks with status `s`. */
  function StatusIds(tasks: map<string, Task>, s: TaskStatus): set<string>
  {
    set id | id in tasks && tasks[id].status == s
  }

  /** The ids of the listed tasks whose status name is `name`. */
  function ListedWithStatus(infos: seq<TaskInfo>, name: string): set<string>
  {
    set i | 0 <= i < |infos| && infos[i].status == name :: infos[i].id
  }

  predicate DistinctInfoIds(infos: seq<TaskInfo>)
  {
    forall i, j :: 0 <= i < j < |infos| ==> infos[i].id != infos[j].id
  }

  /** `infos` is a listing of `tasks`: every task's view, each once. */
  ghost predicate IsListing(infos: seq<TaskInfo>, tasks: map<string, Task>)
  {
    DistinctInfoIds(infos)
    && (forall i :: 0 <= i < |infos| ==> infos[i].id in tasks && infos[i] == InfoOf(tasks[infos[i].id]))
    && (forall id :: id in tasks ==> exists i :: 0 <= i < |infos| && infos[i].id == id)
  }

  /** Over a listing without repeated ids, counting the matching entries is
      counting their ids. */
  lemma {:induction false} CountIsListedIds(infos: seq<TaskInfo>, name: string)
    requires DistinctInfoIds(infos)
    ensures CountStatus(infos, name) == |ListedWithStatus(infos, name)|
  {
    if infos != [] {
      var n := |infos| - 1;
      assert DistinctInfoIds(infos[..n]);
      CountIsListedIds(infos[..n], name);
      ListedStep(infos, name);
      NotListedBefore(infos, name);
    }
  }

  /** The listed ids of a longer listing: those of the shorter one, and the
      last entry's id when it has the status. */
  lemma ListedStep(infos: seq<TaskInfo>, name: string)
    requires infos != []
    ensures var n := |infos| - 1;
      ListedWithStatus(infos, name)
      == ListedWithStatus(infos[..n], name) + (if infos[n].status == name then {infos[n].id} else {})
  {
    var n := |infos| - 1;
    var prefix := infos[..n];
    forall x | x in ListedWithStatus(infos, name)
      ensures x in ListedWithStatus(prefix, name) + (if infos[n].status == name then {infos[n].id} else {})
    {
      var i :| 0 <= i < |infos| && infos[i].status == name && infos[i].id == x;
      if i < n {
        assert prefix[i] == infos[i];
      }
    }
    forall x | x in ListedWithStatus(prefix, name) ensures x in ListedWithStatus(infos, name) {
      var i :| 0 <= i < |prefix| && prefix[i].status == name && prefix[i].id == x;
      assert infos[i] == prefix[i];
    }
  }

  /** Without repeated ids, the last entry's id is not listed before it. */
  lemma NotListedBefore(infos: seq<TaskInfo>, name: string)
    requires infos != [] && DistinctInfoIds(infos)
    ensures infos[|infos| - 1].id !in ListedWithStatus(infos[..|infos| - 1], name)
  {
    var n := |infos| - 1;
    forall i | 0 <= i < n ensures infos[..n][i].id != infos[n].id {
      assert infos[..n][i] == infos[i];
    }
  }

  /** In a listing, the tasks listed under a status's name are exactly the
      tasks with that status. */
  lemma ListedIsStatusIds(infos: seq<TaskInfo>, tasks: map<string, Task>, s: TaskStatus)
    requires IsListing(infos, tasks)
    ensures ListedWithStatus(infos, StatusName(s)) == StatusIds(tasks, s)
  {
    forall i | 0 <= i < |infos|
      ensures infos[i].status == StatusName(s) <==> tasks[infos[i].id].status == s
    {
      StatusFromNameInverse(infos[i].status, s);
    }
    forall id | id in StatusIds(tasks, s) ensures id in ListedWithStatus(infos, StatusName(s)) {
      var i :| 0 <= i < |infos| && infos[i].id == id;
    }
  }

  /** The ids of a listing, in order. */
  function InfoIds(infos: seq<TaskInfo>): (ids: seq<string>)
    ensures |ids| == |infos| && forall i :: 0 <= i < |infos| ==> ids[i] == infos[i].id
  {
    seq(|infos|, i requires 0 <= i < |infos| => infos[i].id)
  }

  /** A listing has one entry per task. */
  lemma ListingSize(infos: seq<TaskInfo>, tasks: map<string, Task>)
    requires IsListing(infos, tasks)
    ensures |infos| == |tasks|
  {
    var ids := InfoIds(infos);
    forall id | id in tasks ensures id in ids {
      var i :| 0 <= i < |infos| && infos[i].id == id;
      assert ids[i] == id;
    }
    IdsOfListing(ids, tasks.Keys);
    DistinctIdsSize(ids);
  }

  /** Every listed status is a status name: the six names partition the
      listing. */
  lemma {:induction false} StatusesPartition(infos: seq<TaskInfo>)
    requires forall i :: 0 <= i < |infos| ==> StatusFromName(infos[i].status).Some?
    ensures CountStatus(infos, StatusName(Pending)) + CountStatus(infos, StatusName(Running))
          + CountStatus(infos, StatusName(Completed)) + CountStatus(infos, StatusName(Failed))
          + CountStatus(infos, StatusName(Cancelled)) + CountStatus(infos, StatusName(Paused)) == |infos|
  {
    if infos != [] {
      var n := |infos| - 1;
      StatusesPartition(infos[..n]);
      StatusFromNameInverse(infos[n].status, StatusFromName(infos[n].status).value);
    }
  }

  /** `get_task`: the task's view, or the not-found message. */
  method GetTask(m: TaskManager, id: string) returns (r: Result<TaskInfo, string>)
    ensures r.Ok? <==> id in m.tasks
    ensures r.Ok? ==> r.value == InfoOf(m.tasks[id])
    ensures r.Err? ==> r.error == "Task not found: " + id
  {
    var info := m.GetTaskInfo(id);
    r := if info.Some? then Ok(info.value) else Err("Task not found: " + id);
  }

  /** `cancel_task`: the manager's answer and effect, unchanged. */
  method CancelTask(m: TaskManager, id: string, now: Instant) returns (r: Result<(), string>)
    requires m.Valid()
    modifies m
    ensures m.Valid()
    ensures id !in old(m.tasks) ==>
      r == Err("Task not found: " + id) && m.tasks == old(m.tasks)
      && m.handles == SignalCancel(old(m.handles), id) && m.events == old(m.events)
    ensures id in old(m.tasks) && !old(m.tasks)[id].cancellable ==>
      r == Err("Task is not cancellable") && m.tasks == old(m.tasks)
      && m.handles == SignalCancel(old(m.handles), id) && m.events == old(m.events)
    ensures id in old(m.tasks) && old(m.tasks)[id].cancellable ==>
      r == Ok(()) && m.tasks == old(m.tasks)[id := Cancel(old(m.tasks)[id], now)]
      && m.handles == old(m.handles) - {id} && m.events == old(m.events) + [TaskCancelled(id)]
  {
    r := m.CancelTask(id, now);
  }

  /** `clear_completed_tasks`: always succeeds; the finished tasks and their
      handles are gone and no event is sent. */
  method ClearCompletedTasks(m: TaskManager) returns (r: Result<(), string>)
    requires m.Valid()
    modifies m
    ensures m.Valid() && r == Ok(())
    ensures m.tasks == old(m.tasks) - TerminalIds(old(m.tasks))
    ensures m.handles == old(m.handles) - TerminalIds(old(m.tasks))
    ensures m.events == old(m.events)
  {
    m.ClearCompleted();
    r := Ok(());
  }

  /** `get_task_count`: the total is the number of tasks, `active` the
      Pending and Running ones, and the three finished buckets count the
      tasks in each finished status; each task is in at most one bucket, and
      in exactly one unless it is Paused. */
  method GetTaskCount(m: TaskManager) returns (c: TaskCount)
    requires m.Valid()
    ensures c.total == |m.tasks| && c.active == |ActiveIds(m.tasks)|
    ensures c.completed == |StatusIds(m.tasks, Completed)|
    ensures c.failed == |StatusIds(m.tasks, Failed)|
    ensures c.cancelled == |StatusIds(m.tasks, Cancelled)|
    ensures c.active + c.completed + c.failed + c.cancelled + |StatusIds(m.tasks, Paused)| == c.total
  {
    var all := m.ListTasks(AllTasks);
    var active := m.ActiveCount();
    c := CountSummary(all, active);
    assert forall id :: id in m.tasks ==> id in FilteredIds(m.tasks, AllTasks);
    SummaryOfListing(all, m.tasks);
  }

  /** The summary of a listing counts the tasks of the listed map: one total,
      one bucket per finished status, and the active tasks, the buckets
      together with the Paused tasks making up the total. */
  lemma SummaryOfListing(all: seq<TaskInfo>, tasks: map<string, Task>)
    requires IsListing(all, tasks)
    ensures var c := CountSummary(all, |ActiveIds(tasks)|);
      c.total == |tasks|
      && c.completed == |StatusIds(tasks, Completed)|
      && c.failed == |StatusIds(tasks, Failed)|
      && c.cancelled == |StatusIds(tasks, Cancelled)|
      && c.active + c.completed + c.failed + c.cancelled + |StatusIds(tasks, Paused)| == c.total
  {
    ListingSize(all, tasks);
    StatusCountOfListing(all, tasks, Pending);
    StatusCountOfListing(all, tasks, Running);
    StatusCountOfListing(all, tasks, Completed);
    StatusCountOfListing(all, tasks, Failed);
    StatusCountOfListing(all, tasks, Cancelled);
    StatusCountOfListing(all, tasks, Paused);
    ActiveIsPendingOrRunning(tasks);
    StatusesPartition(all);
  }

  /** Over a listing, the count under a status's name is the number of tasks
      with that status. */
  lemma StatusCountOfListing(infos: seq<TaskInfo>, tasks: map<string, Task>, s: TaskStatus)
    requires IsListing(infos, tasks)
    ensures CountStatus(infos, StatusName(s)) == |StatusIds(tasks, s)|
  {
    CountIsListedIds(infos, StatusName(s));
    ListedIsStatusIds(infos, tasks, s);
  }

  /** The active tasks are the Pending ones and the Running ones. */
  lemma ActiveIsPendingOrRunning(tasks: map<string, Task>)
    ensures |ActiveIds(tasks)| == |StatusIds(tasks, Pending)| + |StatusIds(tasks, Running)|
  {
    assert ActiveIds(tasks) == StatusIds(tasks, Pending) + StatusIds(tasks, Running);
    assert StatusIds(tasks, Pending) * StatusIds(tasks, Running) == {};
  }
}
