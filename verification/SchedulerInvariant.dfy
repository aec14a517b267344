// What every scheduler operation keeps: each used slot is either active or queued exactly once.
module SchedulerInvariant {
  import opened Wire
  import opened BusExchange
  import opened Scheduler

  // --- queues without duplicates -----------------------------------------------------------

  ghost predicate Distinct(q: seq<nat>) {
    forall i, j :: 0 <= i < j < |q| ==> q[i] != q[j]
  }

  ghost function Elems(q: seq<nat>): set<nat> { set x | x in q }

  lemma {:induction false} RemoveFirstKeeps(q: seq<nat>, x: nat)
    requires Distinct(q)
    ensures Distinct(RemoveFirst(q, x))
    ensures forall y :: y in RemoveFirst(q, x) <==> y in q && y != x
  {
    if |q| != 0 && q[0] != x {
      var rest := q[1..];
      RemoveFirstKeeps(rest, x);
      var r := RemoveFirst(rest, x);
      forall i, j | 0 <= i < j < |r| + 1 ensures ([q[0]] + r)[i] != ([q[0]] + r)[j] {
        if i == 0 {
          assert r[j - 1] in rest;
        }
      }
      forall y ensures y in [q[0]] + r <==> y in q && y != x {
        assert q == [q[0]] + rest;
      }
    }
  }

  lemma RemoveAbsent(q: seq<nat>, x: nat)
    requires x !in q
    ensures RemoveFirst(q, x) == q
  {
    if |q| != 0 {
      RemoveAbsent(q[1..], x);
      assert q == [q[0]] + q[1..];
    }
  }

  lemma {:induction false} ElemsCount(q: seq<nat>)
    requires Distinct(q)
    ensures |Elems(q)| == |q|
  {
    if |q| != 0 {
      ElemsCount(q[1..]);
      assert Elems(q) == {q[0]} + Elems(q[1..]);
      assert q[0] !in q[1..];
    }
  }

  // --- the invariant -----------------------------------------------------------------------

  predicate TaskOk(t: Task, nextId: nat) {
    && 1 <= t.id < nextId
    && t.node.Some? && t.node.value < NODE_COUNT
    && (t.periodic ==> t.enabled && t.kind == DataTask)
    && (t.armed ==> t.active)
  }

  // A slot agrees with both queues and with the active slot.
  predicate SlotOk(s: Sched, i: nat)
    requires i < |s.tasks|
  {
    var t := s.tasks[i];
    && (i in s.normal <==> t.queued && t.queue == Normal)
    && (i in s.priority <==> t.queued && t.queue == Priority)
    && (t.active <==> s.active == Some(i))
    && (t.queued ==> t.used && t.enabled && !t.active)
    && (t.active ==> t.used)
    && (t.used ==> TaskOk(t, s.nextId))
  }

  // A used slot is somewhere: in flight or in a queue.
  predicate Placed(t: Task) { t.used ==> t.active || t.queued }

  ghost predicate QueuesOk(s: Sched) {
    && |s.tasks| == MAX_TASKS
    && Distinct(s.normal) && Distinct(s.priority)
    && (forall k :: 0 <= k < |s.normal| ==> s.normal[k] < MAX_TASKS)
    && (forall k :: 0 <= k < |s.priority| ==> s.priority[k] < MAX_TASKS)
    && (s.active.Some? ==> s.active.value < MAX_TASKS)
    && s.nextId >= 1
  }

  predicate SameId(t: Task, u: Task) { t.used && u.used && t.id == u.id }

  ghost predicate IdsDistinct(tasks: seq<Task>) {
    forall i, j :: 0 <= i < j < |tasks| ==> !SameId(tasks[i], tasks[j])
  }

  // The invariant with slot h excused from being placed: h is then neither queued nor active.
  ghost predicate Holed(s: Sched, h: Option<nat>) {
    && QueuesOk(s)
    && (forall i :: 0 <= i < MAX_TASKS ==> SlotOk(s, i))
    && (forall i :: 0 <= i < MAX_TASKS && h != Some(i) ==> Placed(s.tasks[i]))
    && IdsDistinct(s.tasks)
    && (h.Some? ==> h.value < MAX_TASKS && !s.tasks[h.value].queued && !s.tasks[h.value].active)
  }

  ghost predicate Inv(s: Sched) { Holed(s, None) }

  lemma FreshInv()
    ensures Inv(FRESH)
  {
  }

  // --- primitives --------------------------------------------------------------------------

  lemma IdsKept(tasks: seq<Task>, h: nat, t: Task)
    requires IdsDistinct(tasks) && h < |tasks|
    requires t.used ==> tasks[h].used && t.id == tasks[h].id
    ensures IdsDistinct(tasks[h := t])
  {
    var r := tasks[h := t];
    assert forall i, j :: 0 <= i < j < |r| && SameId(r[i], r[j]) ==> SameId(tasks[i], tasks[j]);
  }

  // Changing only the task in the hole keeps everything else.
  lemma HoleTaskChanges(s: Sched, h: nat, t: Task)
    requires Holed(s, Some(h))
    requires !t.queued && !t.active && t.used ==> TaskOk(t, s.nextId)
    requires !t.queued && !t.active
    requires t.used ==> s.tasks[h].used && t.id == s.tasks[h].id
    ensures Holed(SetTask(s, h, t), Some(h))
  {
    var r := SetTask(s, h, t);
    IdsKept(s.tasks, h, r.tasks[h]);
    forall i | 0 <= i < MAX_TASKS ensures SlotOk(r, i) {
      assert SlotOk(s, i);
    }
  }

  lemma HoleClosesEmpty(s: Sched, h: nat)
    requires Holed(s, Some(h))
    ensures Inv(ClearSlot(s, h))
  {
    HoleTaskChanges(s, h, EMPTY_TASK);
  }

  lemma AppendDistinct(q: seq<nat>, h: nat)
    requires Distinct(q) && h !in q
    ensures Distinct(q + [h])
    ensures forall x :: x in q + [h] <==> x in q || x == h
  {
  }

  lemma HoleClosesQueued(s: Sched, h: nat)
    requires Holed(s, Some(h)) && s.tasks[h].used && s.tasks[h].enabled
    ensures Inv(QueueTaskSlot(s, h))
    ensures QueueTaskSlot(s, h).tasks == s.tasks[h := s.tasks[h].(queued := true)]
  {
    var r := QueueTaskSlot(s, h);
    IdsKept(s.tasks, h, r.tasks[h]);
    assert SlotOk(s, h);
    AppendDistinct(s.normal, h);
    AppendDistinct(s.priority, h);
    forall i | 0 <= i < MAX_TASKS ensures SlotOk(r, i) && Placed(r.tasks[i]) {
      assert SlotOk(s, i);
    }
  }

  lemma HoleClosesActive(s: Sched, h: nat)
    requires Holed(s, Some(h)) && s.tasks[h].used && s.tasks[h].enabled && s.active == None
    ensures Inv(Activate(s, h)) && Activate(s, h).active == Some(h)
    ensures Activate(s, h).tasks == s.tasks[h := s.tasks[h].(active := true, armed := false)]
  {
    var r := Activate(s, h);
    IdsKept(s.tasks, h, r.tasks[h]);
    assert SlotOk(s, h);
    forall i | 0 <= i < MAX_TASKS ensures SlotOk(r, i) && Placed(r.tasks[i]) {
      assert SlotOk(s, i);
    }
  }

  lemma RemoveMakesHole(s: Sched, h: nat)
    requires Inv(s) && h < MAX_TASKS && !s.tasks[h].active
    ensures Holed(RemoveFromQueues(s, h), Some(h))
    ensures RemoveFromQueues(s, h).tasks == s.tasks[h := s.tasks[h].(queued := false)]
    ensures RemoveFromQueues(s, h).nextId == s.nextId
  {
    var r := RemoveFromQueues(s, h);
    IdsKept(s.tasks, h, r.tasks[h]);
    RemoveFirstKeeps(s.normal, h);
    RemoveFirstKeeps(s.priority, h);
    assert forall k :: 0 <= k < |r.normal| ==> r.normal[k] in s.normal;
    assert forall k :: 0 <= k < |r.priority| ==> r.priority[k] in s.priority;
    hide RemoveFirst, Distinct, IdsDistinct;
    assert SlotOk(s, h);
    forall i | 0 <= i < MAX_TASKS ensures SlotOk(r, i) {
      assert SlotOk(s, i);
    }
  }

  // Ending the flight of the active task makes its slot the hole.
  function Landed(s: Sched, h: nat): Sched
    requires h < |s.tasks|
  {
    SetTask(s, h, s.tasks[h].(active := false, armed := false)).(active := None)
  }

  lemma LandingMakesHole(s: Sched, h: nat)
    requires Inv(s) && s.active == Some(h)
    ensures Holed(Landed(s, h), Some(h))
  {
    var r := Landed(s, h);
    IdsKept(s.tasks, h, r.tasks[h]);
    assert SlotOk(s, h);
    forall i | 0 <= i < MAX_TASKS ensures SlotOk(r, i) {
      assert SlotOk(s, i);
    }
  }

  // A new task goes into a slot that was not used.
  lemma NewTaskMakesHole(s: Sched, h: nat, r: Request)
    requires Inv(s) && h < MAX_TASKS && !s.tasks[h].used
    requires r.node < NODE_COUNT && (r.periodic ==> r.kind == DataTask)
    ensures Holed(SetTask(s, h, NewTask(r, s.nextId)).(nextId := s.nextId + 1), Some(h))
  {
    var n := SetTask(s, h, NewTask(r, s.nextId)).(nextId := s.nextId + 1);
    assert SlotOk(s, h);
    forall i | 0 <= i < MAX_TASKS ensures SlotOk(n, i) {
      assert SlotOk(s, i);
    }
    forall i, j | 0 <= i < j < |n.tasks| ensures !SameId(n.tasks[i], n.tasks[j]) {
      assert SlotOk(s, i) && SlotOk(s, j);
      assert !SameId(s.tasks[i], s.tasks[j]);
    }
  }

  // Changing the flags of the active task keeps the invariant.
  lemma ActiveTaskChanges(s: Sched, h: nat, t: Task)
    requires Inv(s) && s.active == Some(h)
    requires t.used && t.active && !t.queued && TaskOk(t, s.nextId) && t.id == s.tasks[h].id
    ensures Inv(SetTask(s, h, t))
  {
    var r := SetTask(s, h, t);
    assert SlotOk(s, h);
    IdsKept(s.tasks, h, r.tasks[h]);
    forall i | 0 <= i < MAX_TASKS ensures SlotOk(r, i) && Placed(r.tasks[i]) {
      assert SlotOk(s, i);
    }
  }

  // --- popping -----------------------------------------------------------------------------

  // Which queue serves next, if every entry is valid.
  predicate PriorityTurn(s: Sched) { |s.priority| > 0 && (|s.normal| == 0 || s.burst < BURST_LIMIT) }

  // The pop that trusts the queues: it takes the front of the queue whose turn it is.
  function TakeFront(s: Sched): (Sched, Option<nat>)
    requires |s.tasks| == MAX_TASKS
    requires |s.priority| > 0 ==> s.priority[0] < MAX_TASKS
    requires |s.normal| > 0 ==> s.normal[0] < MAX_TASKS
  {
    if PriorityTurn(s) then (Unqueued(s, s.priority[0]).(priority := s.priority[1..], burst := s.burst + 1), Some(s.priority[0]))
    else if |s.normal| > 0 then (Unqueued(s, s.normal[0]).(normal := s.normal[1..], burst := 0), Some(s.normal[0]))
    else (s.(burst := 0), None)
  }

  function Unqueued(s: Sched, h: nat): Sched
    requires h < |s.tasks|
  {
    SetTask(s, h, s.tasks[h].(queued := false))
  }

  // No stale entry is ever met: the real pop, which skips stale entries, takes the front.
  lemma PopNeverSkips(s: Sched)
    requires Inv(s)
    ensures PopNext(s) == TakeFront(s)
  {
    if |s.priority| > 0 {
      assert s.priority[0] in s.priority;
      assert SlotOk(s, s.priority[0]);
    }
    if |s.normal| > 0 {
      assert s.normal[0] in s.normal;
      assert SlotOk(s, s.normal[0]);
    }
  }

  lemma DropFirstDistinct(q: seq<nat>)
    requires Distinct(q) && |q| > 0
    ensures Distinct(q[1..])
    ensures forall x :: x in q[1..] <==> x in q && x != q[0]
  {
    assert q == [q[0]] + q[1..];
  }

  lemma TakeFrontMakesHole(s: Sched)
    requires Inv(s)
    ensures var (p, slot) := TakeFront(s); Holed(p, slot) && p.active == s.active && p.nextId == s.nextId
    ensures var (p, slot) := TakeFront(s); slot.Some? ==> p.tasks[slot.value].used && p.tasks[slot.value].enabled
    ensures var (p, slot) := TakeFront(s); slot.Some? ==> p.tasks == s.tasks[slot.value := s.tasks[slot.value].(queued := false)]
    ensures var (p, slot) := TakeFront(s); slot == None ==> p.tasks == s.tasks
  {
    var (p, slot) := TakeFront(s);
    if |s.priority| > 0 { DropFirstDistinct(s.priority); }
    if |s.normal| > 0 { DropFirstDistinct(s.normal); }
    if slot.Some? {
      assert slot.value in s.priority || slot.value in s.normal;
      assert SlotOk(s, slot.value);
      IdsKept(s.tasks, slot.value, p.tasks[slot.value]);
    }
    forall i | 0 <= i < MAX_TASKS ensures SlotOk(p, i) && (slot != Some(i) ==> Placed(p.tasks[i])) {
      assert SlotOk(s, i);
    }
  }

  // --- operations --------------------------------------------------------------------------

  lemma AddTaskKeeps(s: Sched, r: Request)
    requires Inv(s)
    requires r.node < NODE_COUNT && (r.periodic ==> r.kind == DataTask)
    ensures Inv(AddTask(s, r))
  {
    hide QueueTaskSlot;
    var slot := AllocSlot(s.tasks, 0);
    if slot.Some? {
      NewTaskMakesHole(s, slot.value, r);
      HoleClosesQueued(SetTask(s, slot.value, NewTask(r, s.nextId)).(nextId := s.nextId + 1), slot.value);
    }
  }

  lemma CancelKeeps(s: Sched, h: nat)
    requires Inv(s) && h < MAX_TASKS && s.tasks[h].used
    ensures Inv(CancelSlot(s, h))
  {
    hide RemoveFromQueues, ClearSlot;
    assert SlotOk(s, h);
    if s.active == Some(h) {
      ActiveTaskChanges(s, h, s.tasks[h].(enabled := false, periodic := false));
    } else {
      RemoveMakesHole(s, h);
      HoleClosesEmpty(RemoveFromQueues(s, h), h);
    }
  }

  lemma UpdateClassKeeps(s: Sched, h: nat, q: QueueClass)
    requires Inv(s) && h < MAX_TASKS
    ensures Inv(UpdateClass(s, h, q))
  {
    hide RemoveFromQueues, QueueTaskSlot;
    if s.tasks[h].used && s.tasks[h].queue != q {
      assert SlotOk(s, h) && Placed(s.tasks[h]);
      if s.tasks[h].queued {
        RemoveMakesHole(s, h);
        var out := RemoveFromQueues(s, h);
        HoleTaskChanges(out, h, out.tasks[h].(queue := q));
        HoleClosesQueued(SetTask(out, h, out.tasks[h].(queue := q)), h);
      } else {
        ActiveTaskChanges(s, h, s.tasks[h].(queue := q));
      }
    }
  }

  lemma EnsureKeeps(s: Sched, node: nat, q: QueueClass)
    requires Inv(s) && node < NODE_COUNT
    ensures Inv(Ensure(s, node, q))
  {
    hide AddTask, UpdateClass;
    var slot := FindPeriodic(s.tasks, node, 0);
    if slot.Some? {
      var h := slot.value;
      assert SlotOk(s, h);
      assert s.tasks[h].(enabled := true) == s.tasks[h];
      assert SetTask(s, h, s.tasks[h].(enabled := true)) == s;
      UpdateClassKeeps(s, h, q);
    } else {
      AddTaskKeeps(s, DataRequest(node, q, true));
    }
  }

  lemma {:induction false} RemoveNodeKeeps(s: Sched, node: nat, i: nat)
    requires Inv(s) && i <= MAX_TASKS
    ensures Inv(RemoveTasksForNode(s, node, i))
    decreases MAX_TASKS - i
  {
    hide CancelSlot;
    if i < MAX_TASKS {
      var t := s.tasks[i];
      var next := if t.used && t.node == Some(node) then CancelSlot(s, i) else s;
      if t.used && t.node == Some(node) { CancelKeeps(s, i); }
      RemoveNodeKeeps(next, node, i + 1);
    }
  }

  lemma FinalizeKeeps(s: Sched, result: Option<Result>)
    requires Inv(s)
    ensures Inv(Finalize(s, result).0)
  {
    hide QueueTaskSlot, ClearSlot;
    if s.active.Some? && s.tasks[s.active.value].armed && result.Some? {
      FinalizeLands(s, result);
      var h := s.active.value;
      var done := Landed(s, h);
      LandingMakesHole(s, h);
      var t := s.tasks[h];
      if t.used && t.enabled && t.periodic {
        HoleClosesQueued(done, h);
      } else {
        HoleClosesEmpty(done, h);
      }
    }
  }

  // Finalising is landing the task and then requeueing or clearing its slot.
  lemma FinalizeLands(s: Sched, result: Option<Result>)
    requires Inv(s) && s.active.Some? && s.tasks[s.active.value].armed && result.Some?
    ensures var h, t := s.active.value, s.tasks[s.active.value];
      Finalize(s, result).0
      == if t.used && t.enabled && t.periodic then QueueTaskSlot(Landed(s, h), h) else ClearSlot(Landed(s, h), h)
  {
  }

  lemma ActivateNextKeeps(s: Sched)
    requires Inv(s) && s.active == None
    ensures Inv(ActivateNext(s))
    ensures ActivateNext(s).active == TakeFront(s).1
  {
    hide PopNext, Activate;
    PopNeverSkips(s);
    TakeFrontMakesHole(s);
    var (p, slot) := TakeFront(s);
    if slot.Some? {
      HoleClosesActive(p, slot.value);
    }
  }

  lemma CompletionsApart(s: Sched, c: seq<Completion>)
    requires Inv(s)
    ensures Inv(s.(completions := c))
  {
    forall i | 0 <= i < MAX_TASKS ensures SlotOk(s.(completions := c), i) {
      assert SlotOk(s, i);
    }
  }

  lemma ControlKeeps(s: Sched, result: Option<Result>)
    requires Inv(s)
    ensures Inv(ExchangeControl(s, result))
  {
    hide Finalize, ActivateNext;
    FinalizeKeeps(s, result);
    var (f, c) := Finalize(s, result);
    if c.Some? {
      CompletionsApart(f, f.completions + [c.value]);
    } else if f.active == None {
      ActivateNextKeeps(f);
    }
  }

  lemma ArmKeeps(s: Sched)
    requires Inv(s)
    ensures Inv(MarkArmed(s))
  {
    if s.active.Some? && CanArm(s.tasks[s.active.value]) {
      assert SlotOk(s, s.active.value);
      ActiveTaskChanges(s, s.active.value, s.tasks[s.active.value].(armed := true));
    }
  }

  // Every public operation, the arming of an exchange and the per-tick control keep the invariant.
  lemma ApplyKeeps(s: Sched, op: Op)
    requires Inv(s)
    ensures Inv(Apply(s, op))
  {
    hide AddTask, CancelSlot, Ensure, RemoveTasksForNode, ExchangeControl, MarkArmed, FindById, FindPeriodic, Inv, AllocSlot;
    match op
    case CancelTask(id) =>
      var slot := FindById(s.tasks, id, 0);
      if slot.Some? { InvSize(s); CancelKeeps(s, slot.value); }
    case PopCompletion => if |s.completions| > 0 { CompletionsApart(s, s.completions[1..]); }
    case Arm => ArmKeeps(s);
    case Control(result) => ControlKeeps(s, result);
    case _ =>
      var node := NodeOf(op.target);
      if node.Some? { ApplyAtKeeps(s, op, node.value); }
  }

  lemma InvSize(s: Sched)
    requires Inv(s)
    ensures |s.tasks| == MAX_TASKS
  {
  }

  lemma ApplyAtKeeps(s: Sched, op: Op, node: nat)
    requires Inv(s) && node < NODE_COUNT
    ensures Inv(ApplyAt(s, op, node))
  {
    hide AddTask, CancelSlot, Ensure, RemoveTasksForNode, FindPeriodic, Inv, AllocSlot;
    InvSize(s);
    match op
    case EnqueueExchange(_, q, periodic) => AddTaskKeeps(s, DataRequest(node, q, periodic));
    case EnsurePeriodic(_, q) => EnsureKeeps(s, node, q);
    case EnqueueCommand(_, id, value, has, q, matches) =>
      if matches { AddTaskKeeps(s, Request(node, CommandTask, q, false, id, value, has, false)); }
    case SendStaged(_, q) => AddTaskKeeps(s, Request(node, CommandTask, q, false, 0, 1.0, false, true));
    case CancelPeriodic(_) =>
      var slot := FindPeriodic(s.tasks, node, 0);
      if slot.Some? { CancelKeeps(s, slot.value); }
    case CancelTarget(_) => RemoveNodeKeeps(s, node, 0);
    case _ =>
  }

  lemma {:induction false} InvariantKept(s: Sched, ops: seq<Op>, n: nat)
    requires Inv(s) && n <= |ops|
    ensures Inv(RunOps(s, ops, n))
  {
    hide Apply, Inv;
    if n > 0 {
      InvariantKept(s, ops, n - 1);
      ApplyKeeps(RunOps(s, ops, n - 1), ops[n - 1]);
    }
  }

  // The invariant holds after every sequence of operations from reset.
  lemma InvariantOverRuns(ops: seq<Op>)
    ensures Inv(RunOps(FRESH, ops, |ops|))
  {
    FreshInv();
    InvariantKept(FRESH, ops, |ops|);
  }

  // --- what the invariant says -------------------------------------------------------------

  function UsedSlots(s: Sched): set<nat> {
    set i: nat | i < |s.tasks| && s.tasks[i].used
  }

  // Each used slot is in exactly one place: in flight, or once in the queue of its own class.
  lemma UsedSlotPlace(s: Sched, i: nat)
    requires Inv(s) && i < MAX_TASKS
    ensures s.tasks[i].used <==> s.active == Some(i) || i in s.normal || i in s.priority
    ensures !(i in s.normal && i in s.priority)
    ensures s.active == Some(i) ==> i !in s.normal && i !in s.priority
    ensures i in s.normal ==> s.tasks[i].queue == Normal && s.tasks[i].enabled
    ensures i in s.priority ==> s.tasks[i].queue == Priority && s.tasks[i].enabled
  {
    assert SlotOk(s, i) && Placed(s.tasks[i]);
  }

  function Flying(s: Sched): set<nat> { if s.active.Some? then {s.active.value} else {} }

  lemma QueuesInRange(s: Sched, i: nat)
    requires Inv(s)
    requires i in s.normal || i in s.priority || s.active == Some(i)
    ensures i < MAX_TASKS
  {
  }

  lemma UsedSlotsAre(s: Sched)
    requires Inv(s)
    ensures UsedSlots(s) == Elems(s.normal) + Elems(s.priority) + Flying(s)
    ensures Elems(s.normal) !! Elems(s.priority)
    ensures (Elems(s.normal) + Elems(s.priority)) !! Flying(s)
  {
    InvSize(s);
    hide Inv;
    forall i: nat ensures i in UsedSlots(s) <==> i in Elems(s.normal) + Elems(s.priority) + Flying(s) {
      if i < MAX_TASKS {
        UsedSlotPlace(s, i);
      } else if i in s.normal || i in s.priority || s.active == Some(i) {
        QueuesInRange(s, i);
      }
    }
    forall i | i in Elems(s.normal) + Elems(s.priority)
      ensures i !in Flying(s) && !(i in Elems(s.normal) && i in Elems(s.priority))
    {
      QueuesInRange(s, i);
      UsedSlotPlace(s, i);
    }
  }

  // Slots in use are exactly the queue entries and the slot in flight, counted once each.
  lemma UsedCount(s: Sched)
    requires Inv(s)
    ensures |UsedSlots(s)| == |s.normal| + |s.priority| + if s.active.Some? then 1 else 0
  {
    UsedSlotsAre(s);
    ElemsCount(s.normal);
    ElemsCount(s.priority);
    hide UsedSlots, Elems;
    assert |Elems(s.normal) + Elems(s.priority)| == |s.normal| + |s.priority|;
  }
}
