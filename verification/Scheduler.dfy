// The CS task scheduler: slots, two queues with a priority burst, cancellation and requeueing.
module Scheduler {
  import opened Wire
  import opened BusExchange

  datatype Target = AnyTarget | CsTarget | Pss | Tcs | Tms | Mns | Ls

  const NODE_COUNT: nat := 5

  // The index of a target in the node table, if it is a node.
  function NodeOf(t: Target): Option<nat> {
    match t
    case Pss => Some(0)
    case Tcs => Some(1)
    case Tms => Some(2)
    case Mns => Some(3)
    case Ls => Some(4)
    case _ => None
  }

  function TargetOf(node: nat): Target {
    match node
    case 0 => Pss
    case 1 => Tcs
    case 2 => Tms
    case 3 => Mns
    case 4 => Ls
    case _ => AnyTarget
  }

  datatype TaskKind = CommandTask | DataTask
  datatype QueueClass = Normal | Priority

  datatype Task = Task(used: bool, queued: bool, active: bool, armed: bool, periodic: bool, enabled: bool,
                       staged: bool, id: nat, kind: TaskKind, queue: QueueClass, node: Option<nat>,
                       commandId: nat, value: real, hasValue: bool)

  const EMPTY_TASK := Task(false, false, false, false, false, false, false, 0, DataTask, Normal, None, 0, 1.0, false)

  datatype Completion = Completion(id: nat, target: Target, kind: TaskKind, periodic: bool, result: Result)

  datatype Sched = Sched(tasks: seq<Task>, normal: seq<nat>, priority: seq<nat>, burst: nat,
                         active: Option<nat>, nextId: nat, completions: seq<Completion>)

  const MAX_TASKS: nat := 32
  const BURST_LIMIT: nat := 3

  const FRESH := Sched(seq(MAX_TASKS, _ => EMPTY_TASK), [], [], 0, None, 1, [])

  // --- slots and queues --------------------------------------------------------------------

  function RemoveFirst(q: seq<nat>, slot: nat): seq<nat> {
    if |q| == 0 then [] else if q[0] == slot then q[1..] else [q[0]] + RemoveFirst(q[1..], slot)
  }

  function SetTask(s: Sched, slot: nat, t: Task): Sched
    requires slot < |s.tasks|
  {
    s.(tasks := s.tasks[slot := t])
  }

  function RemoveFromQueues(s: Sched, slot: nat): (r: Sched)
    ensures |r.tasks| == |s.tasks|
  {
    var q := s.(normal := RemoveFirst(s.normal, slot), priority := RemoveFirst(s.priority, slot));
    if slot < |s.tasks| then SetTask(q, slot, s.tasks[slot].(queued := false)) else q
  }

  function ClearSlot(s: Sched, slot: nat): (r: Sched)
    ensures |r.tasks| == |s.tasks|
  {
    if slot < |s.tasks| then SetTask(s, slot, EMPTY_TASK) else s
  }

  // The first unused slot from i on.
  function AllocSlot(tasks: seq<Task>, i: nat): (r: Option<nat>)
    requires i <= |tasks|
    ensures r.Some? ==> i <= r.value < |tasks| && !tasks[r.value].used
    ensures r == None ==> forall k | i <= k < |tasks| :: tasks[k].used
    decreases |tasks| - i
  {
    if i == |tasks| then None else if !tasks[i].used then Some(i) else AllocSlot(tasks, i + 1)
  }

  function QueueTaskSlot(s: Sched, slot: nat): (r: Sched)
    ensures |r.tasks| == |s.tasks|
  {
    if slot >= |s.tasks| then s
    else
      var t := s.tasks[slot];
      if !t.used || t.queued || t.active || !t.enabled then s
      else
        var q := if t.queue == Priority then s.(priority := s.priority + [slot]) else s.(normal := s.normal + [slot]);
        SetTask(q, slot, t.(queued := true))
  }

  datatype Popped = Popped(slot: Option<nat>, queue: seq<nat>, tasks: seq<Task>)

  // Pops entries until one names a used and enabled task.
  function PopValid(q: seq<nat>, tasks: seq<Task>): (r: Popped)
    ensures |r.tasks| == |tasks|
    ensures r.slot.Some? ==> r.slot.value < |tasks|
  {
    if |q| == 0 then Popped(None, q, tasks)
    else if q[0] >= |tasks| then PopValid(q[1..], tasks)
    else
      var after := tasks[q[0] := tasks[q[0]].(queued := false)];
      if after[q[0]].used && after[q[0]].enabled then Popped(Some(q[0]), q[1..], after) else PopValid(q[1..], after)
  }

  function PopPriority(s: Sched): (Sched, Option<nat>) {
    var p := PopValid(s.priority, s.tasks);
    (s.(priority := p.queue, tasks := p.tasks, burst := if p.slot.Some? then s.burst + 1 else s.burst), p.slot)
  }

  function PopNormal(s: Sched): (Sched, Option<nat>) {
    var p := PopValid(s.normal, s.tasks);
    (s.(normal := p.queue, tasks := p.tasks, burst := if p.slot.Some? then 0 else s.burst), p.slot)
  }

  function PopRest(s: Sched, havePriority: bool): (Sched, Option<nat>) {
    var (s2, slot2) := PopNormal(s);
    if slot2.Some? then (s2, slot2)
    else
      var (s3, slot3) := if havePriority then PopPriority(s2) else (s2, None);
      if slot3.Some? then (s3, slot3) else (s3.(burst := 0), None)
  }

  function PopNext(s: Sched): (Sched, Option<nat>) {
    var havePriority, haveNormal := |s.priority| > 0, |s.normal| > 0;
    if havePriority && (!haveNormal || s.burst < BURST_LIMIT) then
      var (s1, slot1) := PopPriority(s);
      if slot1.Some? then (s1, slot1) else PopRest(s1, havePriority)
    else PopRest(s, havePriority)
  }

  // --- tasks -------------------------------------------------------------------------------

  datatype Request = Request(node: nat, kind: TaskKind, queue: QueueClass, periodic: bool,
                             commandId: nat, value: real, hasValue: bool, staged: bool)

  function NewTask(r: Request, id: nat): Task {
    Task(true, false, false, false, r.periodic, true, r.staged, id, r.kind, r.queue, Some(r.node),
         r.commandId, r.value, r.hasValue)
  }

  // Adds a task to a free slot and queues it; a full table leaves the state unchanged.
  function AddTask(s: Sched, r: Request): Sched {
    match AllocSlot(s.tasks, 0)
    case None => s
    case Some(slot) =>
      QueueTaskSlot(SetTask(s, slot, NewTask(r, s.nextId)).(nextId := s.nextId + 1), slot)
  }

  function DataRequest(node: nat, q: QueueClass, periodic: bool): Request {
    Request(node, DataTask, q, periodic, 0, 1.0, false, false)
  }

  function FindPeriodic(tasks: seq<Task>, node: nat, i: nat): (r: Option<nat>)
    requires i <= |tasks|
    ensures r.Some? ==> i <= r.value < |tasks| && IsPeriodic(tasks[r.value], node)
    ensures r == None ==> forall k | i <= k < |tasks| :: !IsPeriodic(tasks[k], node)
    decreases |tasks| - i
  {
    if i == |tasks| then None else if IsPeriodic(tasks[i], node) then Some(i) else FindPeriodic(tasks, node, i + 1)
  }

  predicate IsPeriodic(t: Task, node: nat) {
    t.used && t.periodic && t.kind == DataTask && t.node == Some(node)
  }

  function FindById(tasks: seq<Task>, id: nat, i: nat): (r: Option<nat>)
    requires i <= |tasks|
    ensures r.Some? ==> i <= r.value < |tasks| && tasks[r.value].used && tasks[r.value].id == id
    ensures r == None && id != 0 ==> forall k | i <= k < |tasks| :: !(tasks[k].used && tasks[k].id == id)
    decreases |tasks| - i
  {
    if id == 0 || i == |tasks| then None
    else if tasks[i].used && tasks[i].id == id then Some(i) else FindById(tasks, id, i + 1)
  }

  function UpdateClass(s: Sched, slot: nat, q: QueueClass): Sched {
    if slot >= |s.tasks| || !s.tasks[slot].used || s.tasks[slot].queue == q then s
    else
      var out := if s.tasks[slot].queued then RemoveFromQueues(s, slot) else s;
      var moved := SetTask(out, slot, out.tasks[slot].(queue := q));
      if !moved.tasks[slot].active && moved.tasks[slot].enabled then QueueTaskSlot(moved, slot) else moved
  }

  // Cancels the task in a slot: in flight it is only disabled, otherwise it is removed.
  function CancelSlot(s: Sched, slot: nat): (r: Sched)
    requires slot < |s.tasks|
    ensures |r.tasks| == |s.tasks|
  {
    if s.active == Some(slot) then SetTask(s, slot, s.tasks[slot].(enabled := false, periodic := false))
    else ClearSlot(RemoveFromQueues(s, slot), slot)
  }

  function RemoveTasksForNode(s: Sched, node: nat, i: nat): (r: Sched)
    requires i <= |s.tasks|
    ensures |r.tasks| == |s.tasks|
    decreases |s.tasks| - i
  {
    if i == |s.tasks| then s
    else
      var t := s.tasks[i];
      RemoveTasksForNode(if t.used && t.node == Some(node) then CancelSlot(s, i) else s, node, i + 1)
  }

  // --- completion and activation -----------------------------------------------------------

  // The task part of finalising the active task with the result taken from the bus.
  function Finalize(s: Sched, result: Option<Result>): (Sched, Option<Completion>) {
    if s.active == None || s.active.value >= |s.tasks| then (s, None)
    else
      var slot, t := s.active.value, s.tasks[s.active.value];
      if !t.armed || result == None then (s, None)
      else
        var c := Completion(t.id, if t.node.Some? then TargetOf(t.node.value) else AnyTarget, t.kind, t.periodic, result.value);
        var done := SetTask(s, slot, t.(active := false, armed := false));
        var next := if t.used && t.enabled && t.periodic then QueueTaskSlot(done, slot) else ClearSlot(done, slot);
        (next.(active := None), Some(c))
  }

  function Activate(s: Sched, slot: nat): Sched {
    if slot >= |s.tasks| then s
    else
      var t := s.tasks[slot];
      if !t.used || !t.enabled || t.node == None || t.active then s
      else SetTask(s, slot, t.(active := true, armed := false)).(active := Some(slot))
  }

  function ActivateNext(s: Sched): Sched {
    var (p, slot) := PopNext(s);
    if slot == None then p else Activate(p, slot.value)
  }

  // What the scheduler does in a tick in which the bus is free.
  function ExchangeControl(s: Sched, result: Option<Result>): Sched {
    var (f, c) := Finalize(s, result);
    if c.Some? then f.(completions := f.completions + [c.value])
    else if f.active.Some? then f
    else ActivateNext(f)
  }

  // Marks the active task as armed; that is the task part of arming an exchange.
  function MarkArmed(s: Sched): Sched {
    if s.active.Some? && s.active.value < |s.tasks| && CanArm(s.tasks[s.active.value])
    then SetTask(s, s.active.value, s.tasks[s.active.value].(armed := true)) else s
  }

  predicate CanArm(t: Task) { t.used && t.active && !t.armed && t.node.Some? }

  // --- the public operations ---------------------------------------------------------------

  datatype Op =
    | EnqueueExchange(target: Target, queue: QueueClass, periodic: bool)
    | EnsurePeriodic(target: Target, queue: QueueClass)
      // matches says whether the command belongs to the target
    | EnqueueCommand(target: Target, commandId: nat, value: real, hasValue: bool, queue: QueueClass, matches: bool)
    | SendStaged(target: Target, queue: QueueClass)
    | CancelPeriodic(target: Target)
    | CancelTask(id: nat)
    | CancelTarget(target: Target)
    | PopCompletion
    | Arm
    | Control(result: Option<Result>)

  function Ensure(s: Sched, node: nat, q: QueueClass): Sched {
    match FindPeriodic(s.tasks, node, 0)
    case Some(slot) => UpdateClass(SetTask(s, slot, s.tasks[slot].(enabled := true)), slot, q)
    case None => AddTask(s, DataRequest(node, q, true))
  }

  function ApplyAt(s: Sched, op: Op, node: nat): Sched {
    match op
    case EnqueueExchange(_, q, periodic) => AddTask(s, DataRequest(node, q, periodic))
    case EnsurePeriodic(_, q) => Ensure(s, node, q)
    case EnqueueCommand(_, id, value, has, q, matches) =>
      if matches then AddTask(s, Request(node, CommandTask, q, false, id, value, has, false)) else s
    case SendStaged(_, q) => AddTask(s, Request(node, CommandTask, q, false, 0, 1.0, false, true))
    case CancelPeriodic(_) =>
      (match FindPeriodic(s.tasks, node, 0) case Some(slot) => CancelSlot(s, slot) case None => s)
    case CancelTarget(_) => RemoveTasksForNode(s, node, 0)
    case _ => s
  }

  function Apply(s: Sched, op: Op): Sched {
    match op
    case CancelTask(id) =>
      (match FindById(s.tasks, id, 0) case Some(slot) => CancelSlot(s, slot) case None => s)
    case PopCompletion => if |s.completions| == 0 then s else s.(completions := s.completions[1..])
    case Arm => MarkArmed(s)
    case Control(result) => ExchangeControl(s, result)
    case _ => (match NodeOf(op.target) case Some(node) => ApplyAt(s, op, node) case None => s)
  }

  // The state after the first n operations.
  function RunOps(s: Sched, ops: seq<Op>, n: nat): Sched
    requires n <= |ops|
  {
    if n == 0 then s else Apply(RunOps(s, ops, n - 1), ops[n - 1])
  }
}
