/** The ASch scheduler: a table of periodic tasks and a queue of events.

    The header fixes the state: a task count, a table of at most
    `TASKS_MAX` tasks and an event queue of `EVENTS_MAX` slots. The
    behaviour is the one its unit tests describe:
    - creating a task for a new handler appends it, and creating one for a
      handler already in the table only updates that task's interval;
    - a full table raises the system error `InsufficientResources`;
    - deleting a task keeps the others in order, so later task IDs shift
      down;
    - a task with interval n runs on every n-th SysTick;
    - one pass of the scheduler loop dispatches every queued event in push
      order, then runs the tasks that fell due, and puts the processor to
      sleep when there was nothing to do.

    Handlers are function pointers, here numbers. Calling a handler is
    recorded by appending it to `taskRuns` or `eventRuns`; the calls into
    the hardware layer and the system module are recorded in fields
    (`tickIntervalInMs`, `running`, `wakeUps`, `sleeps`, `errors`). */
module AschScheduler {
  import opened Wrappers
  import UtilsQueue

  const TASKS_MAX: nat := 5
  const EVENTS_MAX: nat := 10

  /** The system errors a scheduler can raise. */
  datatype SysError =
    | InvalidParameters
    | BufferOverflow
    | InsufficientResources
    | MultipleSchedulerInstances
    | AssertFailure
    | UnknownError

  type TaskHandler = nat

  /** A `uint16_t` interval in milliseconds. */
  type Interval = n: nat | n < 0x1_0000

  datatype Task = Task(intervalInMs: Interval, handler: TaskHandler)

  datatype Event = Event(handler: nat, payload: nat)

  /** No handler occurs twice in the table. */
  ghost predicate UniqueHandlers(tasks: seq<Task>) {
    forall a, b :: 0 <= a < b < |tasks| ==> tasks[a].handler != tasks[b].handler
  }

  /** The position of `handler` in the table, or `|tasks|` if absent. */
  function Find(tasks: seq<Task>, handler: TaskHandler): (index: nat)
    ensures index <= |tasks|
    ensures index < |tasks| ==> tasks[index].handler == handler
    ensures forall j :: 0 <= j < index ==> tasks[j].handler != handler
    decreases |tasks|
  {
    if tasks == [] then 0
    else if tasks[0].handler == handler then 0
    else 1 + Find(tasks[1..], handler)
  }

  /** The table after `CreateTask`, or the error it raises. */
  function Created(tasks: seq<Task>, task: Task): Result<seq<Task>, SysError> {
    var i := Find(tasks, task.handler);
    if i < |tasks| then Success(tasks[i := tasks[i].(intervalInMs := task.intervalInMs)])
    else if |tasks| >= TASKS_MAX then Failure(InsufficientResources)
    else Success(tasks + [task])
  }

  /** The table after `DeleteTask`. */
  function Removed(tasks: seq<Task>, handler: TaskHandler): seq<Task> {
    var i := Find(tasks, handler);
    if i < |tasks| then tasks[..i] + tasks[i + 1..] else tasks
  }

  /** Whether `task` runs on SysTick number `tick`. */
  predicate IsDue(task: Task, tick: nat) {
    task.intervalInMs > 0 && tick % task.intervalInMs == 0
  }

  /** The handlers that run on SysTick number `tick`, in table order. */
  function DueTasks(tasks: seq<Task>, tick: nat): (due: seq<TaskHandler>)
    ensures |due| <= |tasks|
    decreases |tasks|
  {
    if tasks == [] then []
    else
      var last := tasks[|tasks| - 1];
      DueTasks(tasks[..|tasks| - 1], tick) + (if IsDue(last, tick) then [last.handler] else [])
  }

  class Scheduler {
    const tasks: array<Task>
    var taskCount: nat
    const eventQueue: UtilsQueue.Queue<Event>

    const tickIntervalInMs: Interval
    var running: bool
    var ticks: nat
    var pendingTasks: seq<TaskHandler>
    var taskRuns: seq<TaskHandler>
    var eventRuns: seq<Event>
    var wakeUps: nat
    var sleeps: nat
    var errors: seq<SysError>

    ghost predicate Valid()
      reads this, tasks, eventQueue, eventQueue.elements
    {
      && tasks.Length == TASKS_MAX
      && taskCount <= TASKS_MAX
      && eventQueue.Valid()
      && eventQueue.queueSize == EVENTS_MAX
      && UniqueHandlers(tasks[..taskCount])
    }

    /** The task table, task ID 0 first. */
    function Tasks(): seq<Task>
      reads this, tasks
      requires taskCount <= tasks.Length
    {
      tasks[..taskCount]
    }

    /** A scheduler with no tasks and an empty event queue; a tick interval
        of 0 raises `InvalidParameters`. */
    constructor (tickIntervalInMs: Interval)
      ensures Valid() && fresh(tasks) && fresh(eventQueue) && fresh(eventQueue.elements)
      ensures Tasks() == [] && eventQueue.Contents == []
      ensures this.tickIntervalInMs == tickIntervalInMs && !running && ticks == 0
      ensures pendingTasks == [] && taskRuns == [] && eventRuns == [] && wakeUps == 0 && sleeps == 0
      ensures errors == if tickIntervalInMs == 0 then [InvalidParameters] else []
    {
      tasks := new Task[TASKS_MAX];
      taskCount := 0;
      eventQueue := new UtilsQueue.Queue<Event>(EVENTS_MAX);
      this.tickIntervalInMs := tickIntervalInMs;
      running := false;
      ticks := 0;
      pendingTasks := [];
      taskRuns := [];
      eventRuns := [];
      wakeUps := 0;
      sleeps := 0;
      errors := if tickIntervalInMs == 0 then [InvalidParameters] else [];
    }

    /** Starts the SysTick and enables its interrupt. */
    method Start()
      requires Valid()
      modifies this
      ensures Valid() && running
      ensures Tasks() == old(Tasks()) && errors == old(errors) && ticks == old(ticks)
      ensures pendingTasks == old(pendingTasks) && taskRuns == old(taskRuns) && eventRuns == old(eventRuns)
      ensures wakeUps == old(wakeUps) && sleeps == old(sleeps)
    {
      running := true;
    }

    /** Stops the SysTick and disables its interrupt. */
    method Stop()
      requires Valid()
      modifies this
      ensures Valid() && !running
      ensures Tasks() == old(Tasks()) && errors == old(errors) && ticks == old(ticks)
      ensures pendingTasks == old(pendingTasks) && taskRuns == old(taskRuns) && eventRuns == old(eventRuns)
      ensures wakeUps == old(wakeUps) && sleeps == old(sleeps)
    {
      running := false;
    }

    method GetTaskCount() returns (count: nat)
      requires Valid()
      ensures count == |Tasks()| && count <= TASKS_MAX
    {
      count := taskCount;
    }

    /** The interval of task `taskId`; an ID beyond the table reads 0. */
    method GetTaskInterval(taskId: nat) returns (interval: Interval)
      requires Valid()
      ensures taskId < |Tasks()| ==> interval == Tasks()[taskId].intervalInMs
      ensures taskId >= |Tasks()| ==> interval == 0
    {
      interval := if taskId < taskCount then tasks[taskId].intervalInMs else 0;
    }

    /** Looks `handler` up in the table. */
    method IndexOf(handler: TaskHandler) returns (index: nat)
      requires Valid()
      ensures index == Find(Tasks(), handler)
    {
      index := 0;
      while index < taskCount && tasks[index].handler != handler
        invariant index <= taskCount
        invariant forall j :: 0 <= j < index ==> tasks[j].handler != handler
      {
        index := index + 1;
      }
      FindIsFirst(Tasks(), handler, index);
    }

    /** Adds `task`, or updates the interval of the task with its handler;
        a full table raises an error and changes nothing. */
    method CreateTask(task: Task)
      requires Valid()
      modifies this, tasks
      ensures Valid()
      ensures Created(old(Tasks()), task).Success? ==>
                Tasks() == Created(old(Tasks()), task).value && errors == old(errors)
      ensures Created(old(Tasks()), task).Failure? ==>
                Tasks() == old(Tasks()) && errors == old(errors) + [Created(old(Tasks()), task).error]
      ensures eventQueue.Contents == old(eventQueue.Contents) && ticks == old(ticks)
      ensures pendingTasks == old(pendingTasks) && taskRuns == old(taskRuns) && eventRuns == old(eventRuns)
      ensures running == old(running)
      ensures wakeUps == old(wakeUps) && sleeps == old(sleeps)
    {
      var i := IndexOf(task.handler);
      ghost var before := Tasks();
      if i < taskCount {
        tasks[i] := tasks[i].(intervalInMs := task.intervalInMs);
        assert Tasks() == before[i := before[i].(intervalInMs := task.intervalInMs)];
      } else if taskCount == TASKS_MAX {
        errors := errors + [InsufficientResources];
      } else {
        tasks[taskCount] := task;
        taskCount := taskCount + 1;
        assert Tasks() == before + [task];
      }
      CreatedKeepsUnique(before, task);
    }

    /** Removes the task of `handler`, shifting the later tasks down; an
        absent handler changes nothing and raises no error. */
    method DeleteTask(handler: TaskHandler)
      requires Valid()
      modifies this, tasks
      ensures Valid()
      ensures Tasks() == Removed(old(Tasks()), handler)
      ensures errors == old(errors) && eventQueue.Contents == old(eventQueue.Contents)
      ensures ticks == old(ticks) && pendingTasks == old(pendingTasks) && taskRuns == old(taskRuns)
      ensures eventRuns == old(eventRuns) && running == old(running)
      ensures wakeUps == old(wakeUps) && sleeps == old(sleeps)
    {
      var i := IndexOf(handler);
      ghost var before := Tasks();
      RemovedKeepsUnique(before, handler);
      if i < taskCount {
        ShiftDown(i);
      }
      assert Tasks() == Removed(before, handler);
    }

    /** Drops the task at position `from`, moving the later tasks one
        place down. */
    method ShiftDown(from: nat)
      requires tasks.Length == TASKS_MAX && from < taskCount <= TASKS_MAX
      modifies this, tasks
      ensures taskCount == old(taskCount) - 1
      ensures Tasks() == old(Tasks()[..from]) + old(Tasks()[from + 1..])
      ensures errors == old(errors) && ticks == old(ticks) && pendingTasks == old(pendingTasks)
      ensures taskRuns == old(taskRuns) && eventRuns == old(eventRuns)
      ensures running == old(running)
      ensures wakeUps == old(wakeUps) && sleeps == old(sleeps)
    {
      var j := from;
      while j + 1 < taskCount
        modifies tasks
        invariant from <= j < taskCount
        invariant forall k :: 0 <= k < from ==> tasks[k] == old(tasks[k])
        invariant forall k :: from <= k < j ==> tasks[k] == old(tasks[k + 1])
        invariant forall k :: j <= k < taskCount ==> tasks[k] == old(tasks[k])
      {
        tasks[j] := tasks[j + 1];
        j := j + 1;
      }
      taskCount := taskCount - 1;
      assert Tasks() == old(Tasks()[..from]) + old(Tasks()[from + 1..]);
    }

    /** The handlers of the tasks due on SysTick number `tick`. */
    method CollectDueTasks(tick: nat) returns (due: seq<TaskHandler>)
      requires Valid()
      ensures due == DueTasks(Tasks(), tick)
    {
      due := [];
      var i := 0;
      while i < taskCount
        invariant i <= taskCount
        invariant due == DueTasks(Tasks()[..i], tick)
      {
        assert Tasks()[..i + 1][..i] == Tasks()[..i];
        if IsDue(tasks[i], tick) {
          due := due + [tasks[i].handler];
        }
        i := i + 1;
      }
      assert Tasks()[..taskCount] == Tasks();
    }

    /** The SysTick interrupt: counts the tick, and when some task falls due
        queues its run and wakes the processor. */
    method SysTickHandler()
      requires Valid()
      modifies this
      ensures Valid() && ticks == old(ticks) + 1
      ensures pendingTasks == old(pendingTasks) + DueTasks(Tasks(), ticks)
      ensures wakeUps == old(wakeUps) + (if DueTasks(Tasks(), ticks) == [] then 0 else 1)
      ensures Tasks() == old(Tasks()) && taskRuns == old(taskRuns) && sleeps == old(sleeps)
      ensures eventRuns == old(eventRuns) && errors == old(errors)
      ensures running == old(running)
    {
      ticks := ticks + 1;
      var due := CollectDueTasks(ticks);
      if due != [] {
        pendingTasks := pendingTasks + due;
        WakeUp();
      }
    }

    /** Runs the tasks that fell due, in order. */
    method RunTasks()
      requires Valid()
      modifies this
      ensures Valid() && taskRuns == old(taskRuns) + old(pendingTasks) && pendingTasks == []
      ensures Tasks() == old(Tasks()) && ticks == old(ticks) && eventRuns == old(eventRuns)
      ensures wakeUps == old(wakeUps) && sleeps == old(sleeps) && errors == old(errors)
      ensures running == old(running)
    {
      taskRuns := taskRuns + pendingTasks;
      pendingTasks := [];
    }

    method Sleep()
      modifies this
      ensures sleeps == old(sleeps) + 1 && wakeUps == old(wakeUps)
      ensures taskCount == old(taskCount) && ticks == old(ticks) && pendingTasks == old(pendingTasks)
      ensures taskRuns == old(taskRuns) && eventRuns == old(eventRuns) && errors == old(errors)
      ensures running == old(running)
    {
      sleeps := sleeps + 1;
    }

    method WakeUp()
      modifies this
      ensures wakeUps == old(wakeUps) + 1 && sleeps == old(sleeps)
      ensures taskCount == old(taskCount) && ticks == old(ticks) && pendingTasks == old(pendingTasks)
      ensures taskRuns == old(taskRuns) && eventRuns == old(eventRuns) && errors == old(errors)
      ensures running == old(running)
    {
      wakeUps := wakeUps + 1;
    }

    /** Queues `event` and wakes the processor; a full queue raises
        `BufferOverflow` and drops the event. */
    method PushEvent(event: Event)
      requires Valid()
      modifies this, eventQueue, eventQueue.elements
      ensures Valid()
      ensures eventQueue.Contents == UtilsQueue.PushSpec(old(eventQueue.Contents), EVENTS_MAX, event)
      ensures |old(eventQueue.Contents)| < EVENTS_MAX ==> errors == old(errors) && wakeUps == old(wakeUps) + 1
      ensures |old(eventQueue.Contents)| >= EVENTS_MAX ==> errors == old(errors) + [BufferOverflow] && wakeUps == old(wakeUps)
      ensures Tasks() == old(Tasks()) && ticks == old(ticks) && pendingTasks == old(pendingTasks)
      ensures taskRuns == old(taskRuns) && eventRuns == old(eventRuns) && sleeps == old(sleeps)
      ensures running == old(running)
    {
      var overflow := eventQueue.Push(event);
      if overflow {
        errors := errors + [BufferOverflow];
      } else {
        WakeUp();
      }
    }

    /** Dispatches every queued event, oldest first, and empties the queue. */
    method RunEvents()
      requires Valid()
      modifies this, eventQueue
      ensures Valid()
      ensures eventRuns == old(eventRuns) + old(eventQueue.Contents) && eventQueue.Contents == []
      ensures Tasks() == old(Tasks()) && ticks == old(ticks) && pendingTasks == old(pendingTasks)
      ensures taskRuns == old(taskRuns) && wakeUps == old(wakeUps) && sleeps == old(sleeps)
      ensures errors == old(errors)
      ensures running == old(running)
    {
      var empty := false;
      while !empty
        invariant Valid()
        invariant eventRuns + eventQueue.Contents == old(eventRuns) + old(eventQueue.Contents)
        invariant empty ==> eventQueue.Contents == []
        invariant Tasks() == old(Tasks()) && ticks == old(ticks) && pendingTasks == old(pendingTasks)
        invariant taskRuns == old(taskRuns) && wakeUps == old(wakeUps) && sleeps == old(sleeps)
        invariant errors == old(errors) && running == old(running)
        decreases |eventQueue.Contents| + (if empty then 0 else 1)
      {
        var event;
        empty, event := eventQueue.Pop(Event(0, 0));
        if !empty {
          eventRuns := eventRuns + [event];
        }
      }
    }

    /** One pass of the main loop: dispatch the events, then run the tasks
        that fell due; with neither, sleep. */
    method SchedulerLoop()
      requires Valid()
      modifies this, eventQueue
      ensures Valid()
      ensures eventRuns == old(eventRuns) + old(eventQueue.Contents) && eventQueue.Contents == []
      ensures taskRuns == old(taskRuns) + old(pendingTasks) && pendingTasks == []
      ensures sleeps == old(sleeps) + (if old(eventQueue.Contents) == [] && old(pendingTasks) == [] then 1 else 0)
      ensures Tasks() == old(Tasks()) && ticks == old(ticks) && wakeUps == old(wakeUps)
      ensures errors == old(errors)
      ensures running == old(running)
    {
      var queued := eventQueue.GetNumberOfElements();
      RunEvents();
      if pendingTasks != [] {
        RunTasks();
      } else if queued == 0 {
        Sleep();
      }
    }
  }

  /** `Find` returns the first position holding the handler. */
  lemma FindIsFirst(tasks: seq<Task>, handler: TaskHandler, index: nat)
    requires index <= |tasks|
    requires index < |tasks| ==> tasks[index].handler == handler
    requires forall j :: 0 <= j < index ==> tasks[j].handler != handler
    ensures index == Find(tasks, handler)
  {
  }

  /** A handler is in the table exactly when `Find` finds it. */
  lemma FindIffPresent(tasks: seq<Task>, handler: TaskHandler)
    ensures Find(tasks, handler) < |tasks| <==> exists j :: 0 <= j < |tasks| && tasks[j].handler == handler
  {
  }

  /** A successful `CreateTask` leaves the handler in the table with the new
      interval, where `GetTaskInterval` reads it back. */
  lemma CreatedRegistersTask(tasks: seq<Task>, task: Task)
    requires Created(tasks, task).Success?
    ensures var t := Created(tasks, task).value;
      var id := Find(t, task.handler);
      id < |t| && t[id].intervalInMs == task.intervalInMs
  {
    var t := Created(tasks, task).value;
    var i := Find(tasks, task.handler);
    if i < |tasks| {
      FindIsFirst(t, task.handler, i);
    } else {
      FindIsFirst(t, task.handler, |tasks|);
    }
  }

  /** A new handler is appended (the count grows by one); a known handler
      keeps its ID and the count; no other task changes. */
  lemma CreatedKeepsOthers(tasks: seq<Task>, task: Task)
    requires Created(tasks, task).Success?
    ensures var t := Created(tasks, task).value;
      && (Find(tasks, task.handler) < |tasks| ==> |t| == |tasks|)
      && (Find(tasks, task.handler) == |tasks| ==> |t| == |tasks| + 1 && t[|tasks|] == task)
      && (forall j :: 0 <= j < |tasks| ==> t[j].handler == tasks[j].handler)
      && (forall j :: 0 <= j < |tasks| && tasks[j].handler != task.handler ==> t[j] == tasks[j])
  {
  }

  /** `CreateTask` fails exactly when the handler is new and the table is full. */
  lemma CreatedFailsOnlyWhenFull(tasks: seq<Task>, task: Task)
    ensures Created(tasks, task).Failure? <==> Find(tasks, task.handler) == |tasks| && |tasks| >= TASKS_MAX
    ensures Created(tasks, task).Failure? ==> Created(tasks, task).error == InsufficientResources
  {
  }

  /** `CreateTask` never lets a handler into the table twice, nor the table
      grow past its capacity. */
  lemma CreatedKeepsUnique(tasks: seq<Task>, task: Task)
    requires UniqueHandlers(tasks) && |tasks| <= TASKS_MAX
    ensures Created(tasks, task).Success? ==>
      UniqueHandlers(Created(tasks, task).value) && |Created(tasks, task).value| <= TASKS_MAX
  {
    var i := Find(tasks, task.handler);
    if i == |tasks| && |tasks| < TASKS_MAX {
      var t := tasks + [task];
      forall a, b | 0 <= a < b < |t|
        ensures t[a].handler != t[b].handler
      {
        if b == |tasks| {
          assert t[a] == tasks[a];
        }
      }
    }
  }

  /** After `DeleteTask`, the tasks before the deleted one keep their IDs and
      the ones after it move down by one. */
  lemma RemovedShiftsDown(tasks: seq<Task>, handler: TaskHandler)
    requires Find(tasks, handler) < |tasks|
    ensures var r := Removed(tasks, handler);
      var i := Find(tasks, handler);
      && |r| == |tasks| - 1
      && (forall j :: 0 <= j < i ==> r[j] == tasks[j])
      && (forall j :: i <= j < |r| ==> r[j] == tasks[j + 1])
  {
  }

  /** Deleting an absent handler changes nothing. */
  lemma RemovedAbsentIsNoOp(tasks: seq<Task>, handler: TaskHandler)
    requires forall j :: 0 <= j < |tasks| ==> tasks[j].handler != handler
    ensures Removed(tasks, handler) == tasks
  {
  }

  /** With unique handlers, a deleted handler is gone from the table. */
  lemma RemovedIsGone(tasks: seq<Task>, handler: TaskHandler)
    requires UniqueHandlers(tasks)
    ensures forall j :: 0 <= j < |Removed(tasks, handler)| ==> Removed(tasks, handler)[j].handler != handler
  {
    var i := Find(tasks, handler);
    if i < |tasks| {
      RemovedShiftsDown(tasks, handler);
      forall j | 0 <= j < |Removed(tasks, handler)|
        ensures Removed(tasks, handler)[j].handler != handler
      {
        if j >= i {
          assert tasks[j + 1].handler != tasks[i].handler;
        }
      }
    }
  }

  /** Deleting keeps the handlers unique. */
  lemma RemovedKeepsUnique(tasks: seq<Task>, handler: TaskHandler)
    requires UniqueHandlers(tasks)
    ensures UniqueHandlers(Removed(tasks, handler)) && |Removed(tasks, handler)| <= |tasks|
  {
    var i := Find(tasks, handler);
    if i < |tasks| {
      var r := Removed(tasks, handler);
      RemovedShiftsDown(tasks, handler);
      forall a, b | 0 <= a < b < |r|
        ensures r[a].handler != r[b].handler
      {
        var a' := if a < i then a else a + 1;
        var b' := if b < i then b else b + 1;
        assert r[a] == tasks[a'] && r[b] == tasks[b'];
      }
    }
  }

  /** Creating a task for a new handler and deleting it again restores the
      table. */
  lemma CreateThenDelete(tasks: seq<Task>, task: Task)
    requires Find(tasks, task.handler) == |tasks| && |tasks| < TASKS_MAX
    ensures Created(tasks, task).Success? && Removed(Created(tasks, task).value, task.handler) == tasks
  {
    var t := tasks + [task];
    FindIsFirst(t, task.handler, |tasks|);
    assert t[..|tasks|] == tasks;
  }

  /** With unique handlers, a task's handler is among those run on a tick
      exactly when the task is due on it. */
  lemma {:induction false} DueIffIsDue(tasks: seq<Task>, tick: nat, k: nat)
    requires UniqueHandlers(tasks) && k < |tasks|
    ensures tasks[k].handler in DueTasks(tasks, tick) <==> IsDue(tasks[k], tick)
    decreases |tasks|
  {
    var n := |tasks| - 1;
    var prefix := tasks[..n];
    assert UniqueHandlers(prefix);
    if k < n {
      assert prefix[k] == tasks[k];
      DueIffIsDue(prefix, tick, k);
      assert tasks[k].handler != tasks[n].handler;
    } else if tasks[k].handler in DueTasks(prefix, tick) {
      DueOnlyFromTable(prefix, tick, tasks[k].handler);
      assert false;
    }
  }

  /** Only handlers in the table run. */
  lemma {:induction false} DueOnlyFromTable(tasks: seq<Task>, tick: nat, handler: TaskHandler)
    requires handler in DueTasks(tasks, tick)
    ensures exists j :: 0 <= j < |tasks| && tasks[j].handler == handler && IsDue(tasks[j], tick)
    decreases |tasks|
  {
    var n := |tasks| - 1;
    var prefix := tasks[..n];
    if handler in DueTasks(prefix, tick) {
      DueOnlyFromTable(prefix, tick, handler);
      var j :| 0 <= j < |prefix| && prefix[j].handler == handler && IsDue(prefix[j], tick);
      assert tasks[j] == prefix[j];
    } else {
      assert tasks[n].handler == handler && IsDue(tasks[n], tick);
    }
  }

  /** How many of the ticks 1..`upTo` run `handler`. */
  function Runs(tasks: seq<Task>, handler: TaskHandler, upTo: nat): nat {
    if upTo == 0 then 0
    else Runs(tasks, handler, upTo - 1) + (if handler in DueTasks(tasks, upTo) then 1 else 0)
  }

  /** A task with interval n > 0 runs once on every n-th tick: over the
      first `upTo` ticks it runs `upTo / n` times, first on tick n. */
  lemma {:induction false} RunsEveryNthTick(tasks: seq<Task>, k: nat, upTo: nat)
    requires UniqueHandlers(tasks) && k < |tasks| && tasks[k].intervalInMs > 0
    ensures Runs(tasks, tasks[k].handler, upTo) == upTo / tasks[k].intervalInMs
  {
    var n := tasks[k].intervalInMs;
    if upTo > 0 {
      RunsEveryNthTick(tasks, k, upTo - 1);
      DueIffIsDue(tasks, upTo, k);
      DivStep(upTo, n);
    }
  }

  /** Counting one more tick adds one period exactly at its multiples. */
  lemma DivStep(m: nat, n: nat)
    requires m > 0 && n > 0
    ensures m / n == (m - 1) / n + (if m % n == 0 then 1 else 0)
  {
    var q := (m - 1) / n;
    var r := (m - 1) % n;
    assert m - 1 == n * q + r;
    if r == n - 1 {
      assert m == n * (q + 1);
      DivOfParts(m, n, q + 1, 0);
    } else {
      assert m == n * q + (r + 1);
      DivOfParts(m, n, q, r + 1);
    }
  }

  /** Euclidean division is determined by quotient and remainder. */
  lemma DivOfParts(m: nat, n: nat, q: nat, r: nat)
    requires n > 0 && r < n && m == n * q + r
    ensures m / n == q && m % n == r
  {
    var q' := m / n;
    var r' := m % n;
    if q' < q {
      ProductGap(n, q', q);
    } else if q < q' {
      ProductGap(n, q, q');
    }
  }

  /** Multiples of n that differ are at least n apart. */
  lemma ProductGap(n: nat, low: nat, high: nat)
    requires low < high
    ensures n * low + n <= n * high
  {
    var d := high - low;
    assert n * high == n * low + n * d;
    MulAtLeast(n, d);
  }

  lemma MulAtLeast(n: nat, d: nat)
    requires d >= 1
    ensures n <= n * d
  {
  }
}
