// No starvation: how many pops a queued task can have to wait, whatever else happens.
module SchedulerFairness {
  import opened Wire
  import opened BusExchange
  import opened Scheduler
  import opened SchedulerInvariant

  // --- places in a queue -------------------------------------------------------------------

  // The position of x in q, or |q| if it is absent.
  function Index(q: seq<nat>, x: nat): (k: nat)
    ensures k <= |q|
    ensures k < |q| ==> q[k] == x
    ensures x in q ==> k < |q|
  {
    if |q| == 0 || q[0] == x then 0 else 1 + Index(q[1..], x)
  }

  predicate NotBehind(q: seq<nat>, r: seq<nat>, x: nat) {
    x in q && x in r ==> Index(r, x) <= Index(q, x)
  }

  // Whatever is in both queues is not further back in the second.
  ghost predicate Ahead(q: seq<nat>, r: seq<nat>) {
    forall x :: NotBehind(q, r, x)
  }

  // Nothing new came in.
  ghost predicate Thinner(q: seq<nat>, r: seq<nat>) {
    && Ahead(q, r)
    && forall x :: x in r ==> x in q
  }

  lemma {:induction false} IndexAfterRemove(q: seq<nat>, h: nat, x: nat)
    requires x in q && x != h
    ensures x in RemoveFirst(q, h)
    ensures Index(RemoveFirst(q, h), x) <= Index(q, x)
  {
    if q[0] != h && q[0] != x {
      IndexAfterRemove(q[1..], h, x);
      assert ([q[0]] + RemoveFirst(q[1..], h))[1..] == RemoveFirst(q[1..], h);
    }
  }

  lemma RemoveThins(q: seq<nat>, h: nat)
    requires Distinct(q)
    ensures Thinner(q, RemoveFirst(q, h))
  {
    RemoveFirstKeeps(q, h);
    forall x | x in q && x in RemoveFirst(q, h) ensures NotBehind(q, RemoveFirst(q, h), x) {
      IndexAfterRemove(q, h, x);
    }
  }

  lemma {:induction false} IndexAfterAppend(q: seq<nat>, h: nat, x: nat)
    requires x in q
    ensures Index(q + [h], x) == Index(q, x)
  {
    if q[0] != x {
      IndexAfterAppend(q[1..], h, x);
      assert (q + [h])[1..] == q[1..] + [h];
    }
  }

  lemma AppendKeepsPlaces(q: seq<nat>, h: nat)
    requires h !in q
    ensures Ahead(q, q + [h])
  {
    forall x | x in q && x in q + [h] ensures NotBehind(q, q + [h], x) {
      IndexAfterAppend(q, h, x);
    }
  }

  lemma ThinnerTrans(q: seq<nat>, r: seq<nat>, t: seq<nat>)
    requires Thinner(q, r) && Thinner(r, t)
    ensures Thinner(q, t)
  {
    forall x ensures NotBehind(q, t, x) {
      assert NotBehind(q, r, x) && NotBehind(r, t, x);
    }
  }

  // --- operations other than a pop ---------------------------------------------------------

  ghost predicate KeepsPlaces(s: Sched, r: Sched) {
    Ahead(s.normal, r.normal) && Ahead(s.priority, r.priority) && r.burst == s.burst
  }

  ghost predicate OnlyRemoves(s: Sched, r: Sched) {
    Thinner(s.normal, r.normal) && Thinner(s.priority, r.priority) && r.burst == s.burst
  }

  predicate SameQueues(s: Sched, r: Sched) {
    r.normal == s.normal && r.priority == s.priority && r.burst == s.burst
  }

  lemma QueueingKeepsPlaces(s: Sched, h: nat)
    requires h < |s.tasks| && h !in s.normal && h !in s.priority
    ensures KeepsPlaces(s, QueueTaskSlot(s, h))
  {
    AppendKeepsPlaces(s.normal, h);
    AppendKeepsPlaces(s.priority, h);
  }

  lemma AddingKeepsPlaces(s: Sched, r: Request)
    requires Inv(s)
    ensures KeepsPlaces(s, AddTask(s, r))
  {
    hide QueueTaskSlot, Index;
    var slot := AllocSlot(s.tasks, 0);
    if slot.Some? {
      assert SlotOk(s, slot.value);
      var n := SetTask(s, slot.value, NewTask(r, s.nextId)).(nextId := s.nextId + 1);
      QueueingKeepsPlaces(n, slot.value);
    }
  }

  lemma CancelOnlyRemoves(s: Sched, h: nat)
    requires Inv(s) && h < MAX_TASKS
    ensures OnlyRemoves(s, CancelSlot(s, h))
  {
    RemoveThins(s.normal, h);
    RemoveThins(s.priority, h);
  }

  lemma {:induction false} RemoveNodeOnlyRemoves(s: Sched, node: nat, i: nat)
    requires Inv(s) && i <= MAX_TASKS
    ensures OnlyRemoves(s, RemoveTasksForNode(s, node, i))
    decreases MAX_TASKS - i
  {
    InvSize(s);
    hide CancelSlot, Ahead, Inv;
    if i < MAX_TASKS {
      var t := s.tasks[i];
      if t.used && t.node == Some(node) {
        CancelOnlyRemoves(s, i);
        CancelKeeps(s, i);
        RemoveNodeOnlyRemoves(CancelSlot(s, i), node, i + 1);
        var next := CancelSlot(s, i);
        ThinnerTrans(s.normal, next.normal, RemoveTasksForNode(next, node, i + 1).normal);
        ThinnerTrans(s.priority, next.priority, RemoveTasksForNode(next, node, i + 1).priority);
      } else {
        RemoveNodeOnlyRemoves(s, node, i + 1);
      }
    } else {
      OnlyRemovesSelf(s);
    }
  }

  lemma OnlyRemovesSelf(s: Sched)
    ensures OnlyRemoves(s, s)
  {
  }

  // Moving a task to the other queue takes it out of the one and appends it to the other.
  lemma MovingKeepsPlaces(s: Sched, h: nat, q: QueueClass)
    requires Inv(s) && h < MAX_TASKS
    ensures KeepsPlaces(s, UpdateClass(s, h, q))
  {
    assert SlotOk(s, h) && Placed(s.tasks[h]);
    if s.tasks[h].used && s.tasks[h].queue != q && s.tasks[h].queued {
      RemoveThins(s.normal, h);
      RemoveThins(s.priority, h);
      if q == Priority {
        RemoveAbsent(s.priority, h);
        AppendKeepsPlaces(s.priority, h);
      } else {
        RemoveAbsent(s.normal, h);
        AppendKeepsPlaces(s.normal, h);
      }
    }
  }

  lemma EnsuringKeepsPlaces(s: Sched, node: nat, q: QueueClass)
    requires Inv(s) && node < NODE_COUNT
    ensures KeepsPlaces(s, Ensure(s, node, q))
  {
    hide AddTask, UpdateClass;
    var slot := FindPeriodic(s.tasks, node, 0);
    if slot.Some? {
      assert SlotOk(s, slot.value);
      assert SetTask(s, slot.value, s.tasks[slot.value].(enabled := true)) == s;
      MovingKeepsPlaces(s, slot.value, q);
    } else {
      AddingKeepsPlaces(s, DataRequest(node, q, true));
    }
  }

  lemma FinalizingKeepsPlaces(s: Sched, result: Option<Result>)
    requires Inv(s)
    ensures KeepsPlaces(s, Finalize(s, result).0)
  {
    if s.active.Some? {
      assert SlotOk(s, s.active.value);
      hide QueueTaskSlot, Index;
      if s.tasks[s.active.value].armed && result.Some? {
        FinalizeLands(s, result);
        QueueingKeepsPlaces(Landed(s, s.active.value), s.active.value);
      }
    }
  }

  // --- pops --------------------------------------------------------------------------------

  // A tick of control pops exactly when nothing is in flight.
  predicate IsPop(s: Sched, op: Op) { op.Control? && s.active == None }

  lemma ControlIsFinalize(s: Sched, result: Option<Result>)
    requires s.active.Some?
    ensures SameQueues(ExchangeControl(s, result), Finalize(s, result).0)
  {
  }

  lemma NoPopKeepsPlaces(s: Sched, op: Op)
    requires Inv(s) && !IsPop(s, op)
    ensures KeepsPlaces(s, Apply(s, op))
  {
    InvSize(s);
    hide AddTask, CancelSlot, Ensure, RemoveTasksForNode, ExchangeControl, Finalize, FindById, FindPeriodic, Inv, Index, AllocSlot;
    match op
    case CancelTask(id) =>
      var slot := FindById(s.tasks, id, 0);
      if slot.Some? { CancelOnlyRemoves(s, slot.value); }
    case PopCompletion =>
    case Arm =>
    case Control(result) =>
      FinalizingKeepsPlaces(s, result);
      ControlIsFinalize(s, result);
    case _ =>
      var node := NodeOf(op.target);
      if node.Some? { NoPopAt(s, op, node.value); }
  }

  lemma NoPopAt(s: Sched, op: Op, node: nat)
    requires Inv(s) && node < NODE_COUNT
    ensures KeepsPlaces(s, ApplyAt(s, op, node))
  {
    InvSize(s);
    hide AddTask, CancelSlot, Ensure, RemoveTasksForNode, FindPeriodic, Inv, Index, AllocSlot;
    match op
    case EnqueueExchange(_, q, periodic) => AddingKeepsPlaces(s, DataRequest(node, q, periodic));
    case EnsurePeriodic(_, q) => EnsuringKeepsPlaces(s, node, q);
    case EnqueueCommand(_, id, value, has, q, matches) =>
      if matches { AddingKeepsPlaces(s, Request(node, CommandTask, q, false, id, value, has, false)); }
    case SendStaged(_, q) => AddingKeepsPlaces(s, Request(node, CommandTask, q, false, 0, 1.0, false, true));
    case CancelPeriodic(_) =>
      var slot := FindPeriodic(s.tasks, node, 0);
      if slot.Some? { CancelOnlyRemoves(s, slot.value); }
    case CancelTarget(_) => RemoveNodeOnlyRemoves(s, node, 0);
    case _ =>
  }

  // --- the wait of a queued task -----------------------------------------------------------

  // Pops, counting its own, until a task at index k of the normal queue is served.
  function NormalWait(k: nat, burst: nat): nat { 4 * k + 4 - Min(burst, BURST_LIMIT) }

  // The same for the priority queue.
  function PriorityWait(k: nat, burst: nat): nat { k + 1 + (k + Min(burst, BURST_LIMIT)) / 3 }

  function QueueOf(s: Sched, c: QueueClass): seq<nat> { if c == Normal then s.normal else s.priority }

  function Wait(s: Sched, c: QueueClass, slot: nat): nat {
    if c == Normal then NormalWait(Index(s.normal, slot), s.burst) else PriorityWait(Index(s.priority, slot), s.burst)
  }

  lemma IndexOfRest(q: seq<nat>, x: nat)
    requires Distinct(q) && x in q && q[0] != x
    ensures x in q[1..] && Index(q, x) == 1 + Index(q[1..], x)
  {
  }

  // A pop serves the task itself or brings it at least one pop nearer.
  lemma PopBringsNearer(s: Sched, c: QueueClass, slot: nat)
    requires Inv(s) && slot in QueueOf(s, c)
    ensures var (p, served) := TakeFront(s);
      served == Some(slot) || (slot in QueueOf(p, c) && Wait(p, c, slot) + 1 <= Wait(s, c, slot))
  {
    var (p, served) := TakeFront(s);
    var q := QueueOf(s, c);
    if q[0] != slot {
      IndexOfRest(q, slot);
    }
  }

  lemma StayingKeepsWait(s: Sched, r: Sched, c: QueueClass, slot: nat)
    requires KeepsPlaces(s, r) && slot in QueueOf(s, c) && slot in QueueOf(r, c)
    ensures Wait(r, c, slot) <= Wait(s, c, slot)
  {
    hide Index;
    if c == Normal {
      assert NotBehind(s.normal, r.normal, slot);
    } else {
      assert NotBehind(s.priority, r.priority, slot);
    }
  }

  // A control tick that pops: the popped slot is in flight afterwards.
  lemma PopActivates(s: Sched, op: Op)
    requires Inv(s) && IsPop(s, op)
    ensures Apply(s, op).active == TakeFront(s).1
    ensures QueueOf(Apply(s, op), Normal) == TakeFront(s).0.normal
    ensures QueueOf(Apply(s, op), Priority) == TakeFront(s).0.priority
    ensures Apply(s, op).burst == TakeFront(s).0.burst
  {
    assert Apply(s, op) == ActivateNext(s);
    PopNeverSkips(s);
    hide PopNext;
    TakeFrontMakesHole(s);
    var (p, slot) := TakeFront(s);
    if slot.Some? { assert SlotOk(p, slot.value); }
  }

  // One if the i-th operation of the run popped.
  function PopAt(s0: Sched, ops: seq<Op>, i: nat): nat
    requires i < |ops|
  {
    if IsPop(RunOps(s0, ops, i), ops[i]) then 1 else 0
  }

  // How many of the operations from m on, up to n, popped.
  function Pops(s0: Sched, ops: seq<Op>, m: nat, n: nat): nat
    requires m <= n <= |ops|
  {
    if n == m then 0 else Pops(s0, ops, m, n - 1) + PopAt(s0, ops, n - 1)
  }

  predicate QueuedAfter(s0: Sched, ops: seq<Op>, i: nat, c: QueueClass, slot: nat) {
    i <= |ops| && slot in QueueOf(RunOps(s0, ops, i), c)
  }

  function WaitAfter(s0: Sched, ops: seq<Op>, i: nat, c: QueueClass, slot: nat): nat
    requires i <= |ops|
  {
    Wait(RunOps(s0, ops, i), c, slot)
  }

  // After every operation from m to n the slot is still waiting in the queue of class c.
  ghost predicate StaysQueued(s0: Sched, ops: seq<Op>, m: nat, n: nat, c: QueueClass, slot: nat) {
    forall i :: m <= i <= n ==> QueuedAfter(s0, ops, i, c, slot)
  }

  // No starvation: while a task stays in its queue, every pop is paid for by its initial wait.
  lemma {:induction false} NoStarvation(s0: Sched, ops: seq<Op>, m: nat, n: nat, c: QueueClass, slot: nat)
    requires Inv(s0) && m <= n <= |ops| && StaysQueued(s0, ops, m, n, c, slot)
    ensures Pops(s0, ops, m, n) + WaitAfter(s0, ops, n, c, slot) <= WaitAfter(s0, ops, m, c, slot)
    ensures Pops(s0, ops, m, n) < WaitAfter(s0, ops, m, c, slot)
    decreases n
  {
    hide PopAt, QueuedAfter, WaitAfter, Inv;
    if m < n {
      NoStarvation(s0, ops, m, n - 1, c, slot);
      assert QueuedAfter(s0, ops, n - 1, c, slot) && QueuedAfter(s0, ops, n, c, slot);
      StepOfWait(s0, ops, n, c, slot);
    }
    WaitPositive(s0, ops, n, c, slot);
  }

  lemma WaitPositive(s0: Sched, ops: seq<Op>, n: nat, c: QueueClass, slot: nat)
    requires n <= |ops|
    ensures WaitAfter(s0, ops, n, c, slot) >= 1
  {
    hide RunOps, Index;
  }

  lemma StepOfWait(s0: Sched, ops: seq<Op>, n: nat, c: QueueClass, slot: nat)
    requires Inv(s0) && 1 <= n <= |ops|
    requires QueuedAfter(s0, ops, n - 1, c, slot) && QueuedAfter(s0, ops, n, c, slot)
    ensures WaitAfter(s0, ops, n, c, slot) + PopAt(s0, ops, n - 1) <= WaitAfter(s0, ops, n - 1, c, slot)
  {
    hide Apply, Inv, Index, Wait;
    var s, r := RunOps(s0, ops, n - 1), RunOps(s0, ops, n);
    InvariantKept(s0, ops, n - 1);
    InvariantKept(s0, ops, n);
    assert r == Apply(s, ops[n - 1]);
    OneStepOfWait(s, ops[n - 1], c, slot);
  }

  lemma OneStepOfWait(s: Sched, op: Op, c: QueueClass, slot: nat)
    requires Inv(s) && Inv(Apply(s, op)) && slot in QueueOf(s, c) && slot in QueueOf(Apply(s, op), c)
    ensures Wait(Apply(s, op), c, slot) + (if IsPop(s, op) then 1 else 0) <= Wait(s, c, slot)
  {
    hide Apply, Inv, Index;
    if IsPop(s, op) {
      PopActivates(s, op);
      PopBringsNearer(s, c, slot);
      ActiveNotQueued(Apply(s, op), slot, c);
    } else {
      NoPopKeepsPlaces(s, op);
      StayingKeepsWait(s, Apply(s, op), c, slot);
    }
  }

  lemma ActiveNotQueued(s: Sched, slot: nat, c: QueueClass)
    requires Inv(s) && slot in QueueOf(s, c)
    ensures s.active != Some(slot)
  {
    assert SlotOk(s, slot);
  }
}
