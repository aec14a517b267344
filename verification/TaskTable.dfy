// The scheduler as the program runs it: task slots, queues and the active slot updated in place.
module TaskTables {
  import opened Wire
  import opened BusExchange
  import opened Scheduler

  method RemoveSlotFromQueue(queue: seq<nat>, slot: nat) returns (r: seq<nat>)
    ensures r == RemoveFirst(queue, slot)
  {
    var i := 0;
    while i < |queue|
      invariant i <= |queue|
      invariant RemoveFirst(queue, slot) == queue[..i] + RemoveFirst(queue[i..], slot)
    {
      if queue[i] == slot {
        return queue[..i] + queue[i + 1..];
      }
      assert queue[i..][1..] == queue[i + 1..];
      i := i + 1;
    }
    r := queue;
  }

  class TaskTable {
    const tasks: array<Task>
    var normal: seq<nat>
    var priority: seq<nat>
    var burst: nat
    var active: Option<nat>
    var nextId: nat
    var completions: seq<Completion>

    ghost predicate Valid() reads this { tasks.Length == MAX_TASKS }

    ghost function View(): Sched
      reads this, tasks
    {
      Sched(tasks[..], normal, priority, burst, active, nextId, completions)
    }

    constructor ()
      ensures Valid() && fresh(tasks) && View() == FRESH
    {
      tasks := new Task[MAX_TASKS](_ => EMPTY_TASK);
      normal, priority, burst, active, nextId, completions := [], [], 0, None, 1, [];
      new;
      assert tasks[..] == FRESH.tasks;
    }

    // --- slots and queues ------------------------------------------------------------------

    method ClearTaskSlot(slot: nat)
      requires Valid()
      modifies tasks
      ensures View() == ClearSlot(old(View()), slot)
    {
      if slot >= tasks.Length { return; }
      tasks[slot] := EMPTY_TASK;
    }

    method RemoveSlotFromQueues(slot: nat)
      requires Valid()
      modifies this`normal, this`priority, tasks
      ensures View() == RemoveFromQueues(old(View()), slot)
    {
      normal := RemoveSlotFromQueue(normal, slot);
      priority := RemoveSlotFromQueue(priority, slot);
      if slot < tasks.Length {
        tasks[slot] := tasks[slot].(queued := false);
      }
    }

    method AllocTaskSlot() returns (slot: Option<nat>)
      requires Valid()
      ensures slot == AllocSlot(tasks[..], 0)
    {
      var i := 0;
      while i < tasks.Length
        invariant i <= tasks.Length
        invariant AllocSlot(tasks[..], 0) == AllocSlot(tasks[..], i)
      {
        if !tasks[i].used { return Some(i); }
        i := i + 1;
      }
      slot := None;
    }

    method QueueSlot(slot: nat)
      requires Valid()
      modifies this`normal, this`priority, tasks
      ensures View() == QueueTaskSlot(old(View()), slot)
    {
      if slot >= tasks.Length { return; }
      var task := tasks[slot];
      if !task.used || task.queued || task.active || !task.enabled { return; }
      if task.queue == Priority {
        priority := priority + [slot];
      } else {
        normal := normal + [slot];
      }
      tasks[slot] := task.(queued := true);
    }

    // Takes entries off the front of a queue until one names a used and enabled task.
    method PopValidSlot(queue: seq<nat>) returns (slot: Option<nat>, rest: seq<nat>)
      requires Valid()
      modifies tasks
      ensures Popped(slot, rest, tasks[..]) == PopValid(queue, old(tasks[..]))
    {
      rest := queue;
      while |rest| > 0
        invariant PopValid(rest, tasks[..]) == PopValid(queue, old(tasks[..]))
      {
        var front := rest[0];
        ghost var was, before := rest, tasks[..];
        rest := rest[1..];
        if front < tasks.Length {
          tasks[front] := tasks[front].(queued := false);
          assert tasks[..] == before[front := before[front].(queued := false)];
          if tasks[front].used && tasks[front].enabled {
            return Some(front), rest;
          }
        }
      }
      slot := None;
    }

    method PopNextTaskSlot() returns (slot: Option<nat>)
      requires Valid()
      modifies this`normal, this`priority, this`burst, tasks
      ensures (View(), slot) == PopNext(old(View()))
    {
      var havePriority, haveNormal := |priority| > 0, |normal| > 0;
      if havePriority && (!haveNormal || burst < BURST_LIMIT) {
        slot, priority := PopValidSlot(priority);
        if slot.Some? {
          burst := burst + 1;
          return;
        }
      }
      slot := PopNormalElse(havePriority);
    }

    // The second half of a pop: the normal queue, and failing that the priority queue again.
    method PopNormalElse(havePriority: bool) returns (slot: Option<nat>)
      requires Valid()
      modifies this`normal, this`priority, this`burst, tasks
      ensures (View(), slot) == PopRest(old(View()), havePriority)
    {
      slot, normal := PopValidSlot(normal);
      if slot.Some? {
        burst := 0;
        return;
      }
      if havePriority {
        slot, priority := PopValidSlot(priority);
        if slot.Some? {
          burst := burst + 1;
          return;
        }
      }
      burst := 0;
    }

    // --- tasks -----------------------------------------------------------------------------

    // The id of the new task, or 0 if the table is full.
    method AddNewTask(r: Request) returns (id: nat)
      requires Valid()
      modifies this`normal, this`priority, this`nextId, tasks
      ensures View() == AddTask(old(View()), r)
      ensures id == if AllocSlot(old(tasks[..]), 0).Some? then old(nextId) else 0
    {
      var slot := AllocTaskSlot();
      if slot == None { return 0; }
      tasks[slot.value] := NewTask(r, nextId);
      id := nextId;
      nextId := nextId + 1;
      QueueSlot(slot.value);
    }

    method FindTaskSlotById(id: nat) returns (slot: Option<nat>)
      requires Valid()
      ensures slot == FindById(tasks[..], id, 0)
    {
      if id == 0 { return None; }
      var i := 0;
      while i < tasks.Length
        invariant i <= tasks.Length
        invariant FindById(tasks[..], id, 0) == FindById(tasks[..], id, i)
      {
        if tasks[i].used && tasks[i].id == id { return Some(i); }
        i := i + 1;
      }
      slot := None;
    }

    method FindPeriodicSlot(node: nat) returns (slot: Option<nat>)
      requires Valid()
      ensures slot == FindPeriodic(tasks[..], node, 0)
    {
      var i := 0;
      while i < tasks.Length
        invariant i <= tasks.Length
        invariant FindPeriodic(tasks[..], node, 0) == FindPeriodic(tasks[..], node, i)
      {
        if IsPeriodic(tasks[i], node) { return Some(i); }
        i := i + 1;
      }
      slot := None;
    }

    method UpdateTaskQueueClass(slot: nat, q: QueueClass)
      requires Valid()
      modifies this`normal, this`priority, tasks
      ensures View() == UpdateClass(old(View()), slot, q)
    {
      if slot >= tasks.Length { return; }
      if !tasks[slot].used || tasks[slot].queue == q { return; }
      if tasks[slot].queued {
        RemoveSlotFromQueues(slot);
      }
      tasks[slot] := tasks[slot].(queue := q);
      if !tasks[slot].active && tasks[slot].enabled {
        QueueSlot(slot);
      }
    }

    // A task in flight is only disabled; any other is removed at once.
    method CancelTaskSlot(slot: nat)
      requires Valid() && slot < MAX_TASKS
      modifies this`normal, this`priority, tasks
      ensures View() == CancelSlot(old(View()), slot)
    {
      if active == Some(slot) {
        tasks[slot] := tasks[slot].(enabled := false, periodic := false);
        return;
      }
      RemoveSlotFromQueues(slot);
      ClearTaskSlot(slot);
    }

    method RemoveNodeTasks(node: nat)
      requires Valid()
      modifies this`normal, this`priority, tasks
      ensures View() == RemoveTasksForNode(old(View()), node, 0)
    {
      var slot := 0;
      while slot < tasks.Length
        invariant slot <= tasks.Length
        invariant RemoveTasksForNode(View(), node, slot) == RemoveTasksForNode(old(View()), node, 0)
      {
        if tasks[slot].used && tasks[slot].node == Some(node) {
          CancelTaskSlot(slot);
        }
        slot := slot + 1;
      }
    }

    // --- completion and activation ---------------------------------------------------------

    method FinalizeActiveTask(result: Option<Result>) returns (c: Option<Completion>)
      requires Valid()
      modifies this`normal, this`priority, this`active, tasks
      ensures (View(), c) == Finalize(old(View()), result)
    {
      if active == None || active.value >= tasks.Length { return None; }
      var slot, task := active.value, tasks[active.value];
      if !task.armed || result == None { return None; }
      c := Some(Completion(task.id, if task.node.Some? then TargetOf(task.node.value) else AnyTarget,
                           task.kind, task.periodic, result.value));
      tasks[slot] := task.(active := false, armed := false);
      if task.used && task.enabled && task.periodic {
        QueueSlot(slot);
      } else {
        ClearTaskSlot(slot);
      }
      active := None;
    }

    method ActivateTask(slot: nat)
      requires Valid()
      modifies this`active, tasks
      ensures View() == Activate(old(View()), slot)
    {
      if slot >= tasks.Length { return; }
      var task := tasks[slot];
      if !task.used || !task.enabled || task.node == None || task.active { return; }
      tasks[slot] := task.(active := true, armed := false);
      active := Some(slot);
    }

    method ExchangeControlStep(result: Option<Result>)
      requires Valid()
      modifies this, tasks
      ensures Valid() && View() == ExchangeControl(old(View()), result)
    {
      var c := FinalizeActiveTask(result);
      if c.Some? {
        completions := completions + [c.value];
        return;
      }
      if active.Some? { return; }
      var slot := PopNextTaskSlot();
      if slot.Some? {
        ActivateTask(slot.value);
      }
    }

    // --- public operations -----------------------------------------------------------------

    method EnsurePeriodicExchange(target: Target, q: QueueClass) returns (id: nat)
      requires Valid()
      modifies this`normal, this`priority, this`nextId, tasks
      ensures View() == Apply(old(View()), EnsurePeriodic(target, q))
    {
      var node := NodeOf(target);
      if node == None { return 0; }
      var slot := FindPeriodicSlot(node.value);
      if slot.Some? {
        tasks[slot.value] := tasks[slot.value].(enabled := true);
        id := tasks[slot.value].id;
        UpdateTaskQueueClass(slot.value, q);
      } else {
        id := AddNewTask(DataRequest(node.value, q, true));
      }
    }

    method EnqueueExchangeTask(target: Target, q: QueueClass, periodic: bool) returns (id: nat)
      requires Valid()
      modifies this`normal, this`priority, this`nextId, tasks
      ensures View() == Apply(old(View()), EnqueueExchange(target, q, periodic))
    {
      var node := NodeOf(target);
      if node == None { return 0; }
      id := AddNewTask(DataRequest(node.value, q, periodic));
    }

    method EnqueueCommandTask(target: Target, commandId: nat, value: real, hasValue: bool, q: QueueClass, matches: bool)
      returns (id: nat)
      requires Valid()
      modifies this`normal, this`priority, this`nextId, tasks
      ensures View() == Apply(old(View()), EnqueueCommand(target, commandId, value, hasValue, q, matches))
    {
      var node := NodeOf(target);
      if node == None || !matches { return 0; }
      id := AddNewTask(Request(node.value, CommandTask, q, false, commandId, value, hasValue, false));
    }

    method AddStagedCommandTask(target: Target, q: QueueClass) returns (id: nat)
      requires Valid()
      modifies this`normal, this`priority, this`nextId, tasks
      ensures View() == Apply(old(View()), SendStaged(target, q))
    {
      var node := NodeOf(target);
      if node == None { return 0; }
      id := AddNewTask(Request(node.value, CommandTask, q, false, 0, 1.0, false, true));
    }

    method CancelPeriodicExchange(target: Target) returns (found: bool)
      requires Valid()
      modifies this`normal, this`priority, tasks
      ensures View() == Apply(old(View()), CancelPeriodic(target))
      ensures found <==> NodeOf(target).Some? && FindPeriodic(old(tasks[..]), NodeOf(target).value, 0).Some?
    {
      var node := NodeOf(target);
      if node == None { return false; }
      var slot := FindPeriodicSlot(node.value);
      if slot == None { return false; }
      CancelTaskSlot(slot.value);
      found := true;
    }

    method CancelTaskById(id: nat) returns (found: bool)
      requires Valid()
      modifies this`normal, this`priority, tasks
      ensures View() == Apply(old(View()), CancelTask(id))
      ensures found <==> FindById(old(tasks[..]), id, 0).Some?
    {
      var slot := FindTaskSlotById(id);
      if slot == None { return false; }
      CancelTaskSlot(slot.value);
      found := true;
    }

    method TryPopCompletion() returns (c: Option<Completion>)
      requires Valid()
      modifies this`completions
      ensures View() == Apply(old(View()), PopCompletion)
      ensures c == if |old(completions)| == 0 then None else Some(old(completions)[0])
    {
      if |completions| == 0 { return None; }
      c := Some(completions[0]);
      completions := completions[1..];
    }
  }
}
