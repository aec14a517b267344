// Operations from outside never disturb the task in flight beyond disabling it.
module FlightKept {
  import opened Wire
  import opened Scheduler
  import opened SchedulerInvariant
  import opened PeriodicTasks

  // The task is the same one, in the same state of flight.
  predicate SameFlight(t: Task, u: Task) {
    u.used == t.used && u.active == t.active && u.armed == t.armed && u.id == t.id && u.kind == t.kind && u.node == t.node
  }

  // The active slot is the same and holds the same task.
  predicate FlightStands(s: Sched, r: Sched) {
    && r.active == s.active && |r.tasks| == |s.tasks|
    && (s.active.Some? && s.active.value < |s.tasks| ==> SameFlight(s.tasks[s.active.value], r.tasks[s.active.value]))
  }

  lemma FlightTrans(s: Sched, r: Sched, u: Sched)
    requires FlightStands(s, r) && FlightStands(r, u)
    ensures FlightStands(s, u)
  {
  }

  lemma AddStands(s: Sched, r: Request)
    requires Inv(s)
    ensures FlightStands(s, AddTask(s, r))
  {
    if s.active.Some? { assert SlotOk(s, s.active.value); }
  }

  lemma CancelStands(s: Sched, h: nat)
    requires h < |s.tasks|
    ensures FlightStands(s, CancelSlot(s, h))
  {
  }

  lemma {:induction false} RemoveNodeStands(s: Sched, node: nat, i: nat)
    requires i <= |s.tasks|
    ensures FlightStands(s, RemoveTasksForNode(s, node, i))
    decreases |s.tasks| - i
  {
    if i < |s.tasks| {
      CancelStands(s, i);
      hide CancelSlot;
      var t := s.tasks[i];
      var next := if t.used && t.node == Some(node) then CancelSlot(s, i) else s;
      RemoveNodeStands(next, node, i + 1);
      FlightTrans(s, next, RemoveTasksForNode(next, node, i + 1));
    }
  }

  lemma UpdateClassStands(s: Sched, h: nat, q: QueueClass)
    ensures FlightStands(s, UpdateClass(s, h, q))
  {
    if h < |s.tasks| {
      UpdateClassTouches(s, h, q);
      UpdateClassActive(s, h, q);
      hide UpdateClass;
    }
  }

  lemma UpdateClassActive(s: Sched, h: nat, q: QueueClass)
    ensures UpdateClass(s, h, q).active == s.active
  {
  }

  lemma EnsureStands(s: Sched, node: nat, q: QueueClass)
    requires Inv(s)
    ensures FlightStands(s, Ensure(s, node, q))
  {
    hide AddTask, UpdateClass;
    var slot := FindPeriodic(s.tasks, node, 0);
    if slot.Some? {
      EnsureFound(s, node, q);
      UpdateClassStands(s, slot.value, q);
    } else {
      AddStands(s, DataRequest(node, q, true));
    }
  }

  // Operator, mode controller and node steps: everything but control and arming.
  predicate Outside(op: Op) { !op.Control? && !op.Arm? }

  lemma ApplyStands(s: Sched, op: Op)
    requires Inv(s) && Outside(op)
    ensures FlightStands(s, Apply(s, op))
  {
    InvSize(s);
    hide AddTask, CancelSlot, RemoveTasksForNode, Ensure, FindById, FindPeriodic, AllocSlot, Inv;
    match op
    case CancelTask(id) =>
      var slot := FindById(s.tasks, id, 0);
      if slot.Some? { CancelStands(s, slot.value); }
    case PopCompletion =>
    case Arm =>
    case Control(_) =>
    case _ =>
      var node := NodeOf(op.target);
      if node.Some? { ApplyAtStands(s, op, node.value); }
  }

  lemma ApplyAtStands(s: Sched, op: Op, node: nat)
    requires Inv(s)
    ensures FlightStands(s, ApplyAt(s, op, node))
  {
    InvSize(s);
    hide AddTask, CancelSlot, RemoveTasksForNode, Ensure, FindPeriodic, AllocSlot, Inv;
    match op
    case EnqueueExchange(_, q, periodic) => AddStands(s, DataRequest(node, q, periodic));
    case EnsurePeriodic(_, q) => EnsureStands(s, node, q);
    case EnqueueCommand(_, id, value, has, q, matches) =>
      if matches { AddStands(s, Request(node, CommandTask, q, false, id, value, has, false)); }
    case SendStaged(_, q) => AddStands(s, Request(node, CommandTask, q, false, 0, 1.0, false, true));
    case CancelPeriodic(_) =>
      var slot := FindPeriodic(s.tasks, node, 0);
      if slot.Some? { CancelStands(s, slot.value); }
    case CancelTarget(_) => RemoveNodeStands(s, node, 0);
    case _ =>
  }

  predicate AllOutside(ops: seq<Op>) { forall k :: 0 <= k < |ops| ==> Outside(ops[k]) }

  lemma {:induction false} OpsStand(s: Sched, ops: seq<Op>, n: nat)
    requires Inv(s) && AllOutside(ops) && n <= |ops|
    ensures FlightStands(s, RunOps(s, ops, n))
  {
    hide Apply, Inv, FlightStands;
    if n == 0 {
      StandsSelf(s);
    } else {
      OpsStand(s, ops, n - 1);
      InvariantKept(s, ops, n - 1);
      ApplyStands(RunOps(s, ops, n - 1), ops[n - 1]);
      FlightTrans(s, RunOps(s, ops, n - 1), RunOps(s, ops, n));
    }
  }

  lemma StandsSelf(s: Sched)
    ensures FlightStands(s, s)
  {
  }
}
