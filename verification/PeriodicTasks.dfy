// Periodic data tasks: at most one per node, and how ensuring and cancelling one moves them.
module PeriodicTasks {
  import opened Wire
  import opened BusExchange
  import opened Scheduler
  import opened SchedulerInvariant

  predicate Periodic(t: Task) { t.used && t.periodic && t.kind == DataTask }

  predicate Rivals(t: Task, u: Task) { Periodic(t) && Periodic(u) && t.node == u.node }

  // No node has two periodic data tasks.
  ghost predicate OncePerNode(tasks: seq<Task>) {
    forall i, j :: 0 <= i < j < |tasks| ==> !Rivals(tasks[i], tasks[j])
  }

  // The queue class of the periodic task of a node, if it has one.
  function PeriodicClass(tasks: seq<Task>, node: nat): Option<QueueClass> {
    match FindPeriodic(tasks, node, 0)
    case Some(slot) => Some(tasks[slot].queue)
    case None => None
  }

  // --- operations that start no periodic task ----------------------------------------------

  // Slot by slot, a periodic task was one before, for the same node.
  predicate NotNew(t: Task, u: Task) { Periodic(u) ==> Periodic(t) && u.node == t.node }

  ghost predicate NoNewPeriodic(a: seq<Task>, b: seq<Task>) {
    |a| == |b| && forall i :: 0 <= i < |a| ==> NotNew(a[i], b[i])
  }

  lemma NoNewKeepsOnce(a: seq<Task>, b: seq<Task>)
    requires OncePerNode(a) && NoNewPeriodic(a, b)
    ensures OncePerNode(b)
  {
    forall i, j | 0 <= i < j < |b| ensures !Rivals(b[i], b[j]) {
      assert NotNew(a[i], b[i]) && NotNew(a[j], b[j]) && !Rivals(a[i], a[j]);
    }
  }

  lemma NoNewTrans(a: seq<Task>, b: seq<Task>, c: seq<Task>)
    requires NoNewPeriodic(a, b) && NoNewPeriodic(b, c)
    ensures NoNewPeriodic(a, c)
  {
    assert forall i :: 0 <= i < |a| ==> NotNew(a[i], b[i]) && NotNew(b[i], c[i]);
  }

  lemma CancelNoNew(s: Sched, h: nat)
    requires h < |s.tasks|
    ensures NoNewPeriodic(s.tasks, CancelSlot(s, h).tasks)
  {
  }

  lemma {:induction false} RemoveNodeNoNew(s: Sched, node: nat, i: nat)
    requires i <= |s.tasks|
    ensures NoNewPeriodic(s.tasks, RemoveTasksForNode(s, node, i).tasks)
    decreases |s.tasks| - i
  {
    if i < |s.tasks| {
      CancelNoNew(s, i);
      hide CancelSlot;
      var t := s.tasks[i];
      var next := if t.used && t.node == Some(node) then CancelSlot(s, i) else s;
      RemoveNodeNoNew(next, node, i + 1);
      NoNewTrans(s.tasks, next.tasks, RemoveTasksForNode(next, node, i + 1).tasks);
    }
  }

  lemma AddOneShotNoNew(s: Sched, r: Request)
    requires !r.periodic || r.kind != DataTask
    ensures NoNewPeriodic(s.tasks, AddTask(s, r).tasks)
  {
  }

  lemma UpdateClassNoNew(s: Sched, h: nat, q: QueueClass)
    ensures NoNewPeriodic(s.tasks, UpdateClass(s, h, q).tasks)
  {
  }

  lemma FinalizeNoNew(s: Sched, result: Option<Result>)
    ensures NoNewPeriodic(s.tasks, Finalize(s, result).0.tasks)
  {
  }

  lemma ActivateNextNoNew(s: Sched)
    requires Inv(s)
    ensures NoNewPeriodic(s.tasks, ActivateNext(s).tasks)
  {
    PopNeverSkips(s);
    TakeFrontMakesHole(s);
    hide PopNext, Inv;
    var (p, slot) := TakeFront(s);
    assert NoNewPeriodic(s.tasks, p.tasks);
    hide TakeFront;
    assert NoNewPeriodic(p.tasks, ActivateNext(s).tasks);
    NoNewTrans(s.tasks, p.tasks, ActivateNext(s).tasks);
  }

  lemma ControlNoNew(s: Sched, result: Option<Result>)
    requires Inv(s)
    ensures NoNewPeriodic(s.tasks, ExchangeControl(s, result).tasks)
  {
    FinalizeNoNew(s, result);
    FinalizeKeeps(s, result);
    var f := Finalize(s, result).0;
    ActivateNextNoNew(f);
    hide Finalize, ActivateNext, Inv;
    NoNewTrans(s.tasks, f.tasks, ActivateNext(f).tasks);
  }

  // --- ensuring a periodic task ------------------------------------------------------------

  lemma AddPeriodicOnce(s: Sched, node: nat, q: QueueClass)
    requires OncePerNode(s.tasks) && FindPeriodic(s.tasks, node, 0) == None
    ensures OncePerNode(AddTask(s, DataRequest(node, q, true)).tasks)
  {
    var r := AddTask(s, DataRequest(node, q, true));
    var slot := AllocSlot(s.tasks, 0);
    if slot.Some? {
      forall i, j | 0 <= i < j < |r.tasks| ensures !Rivals(r.tasks[i], r.tasks[j]) {
        assert !Rivals(s.tasks[i], s.tasks[j]);
        assert !IsPeriodic(s.tasks[i], node) && !IsPeriodic(s.tasks[j], node);
      }
    }
  }

  lemma EnsureOnce(s: Sched, node: nat, q: QueueClass)
    requires Inv(s) && OncePerNode(s.tasks)
    ensures OncePerNode(Ensure(s, node, q).tasks)
  {
    hide AddTask, UpdateClass;
    var slot := FindPeriodic(s.tasks, node, 0);
    if slot.Some? {
      EnsureFound(s, node, q);
      UpdateClassNoNew(s, slot.value, q);
      NoNewKeepsOnce(s.tasks, UpdateClass(s, slot.value, q).tasks);
    } else {
      AddPeriodicOnce(s, node, q);
    }
  }

  // A periodic task is always enabled, so ensuring one that exists only sets its class.
  lemma EnsureFound(s: Sched, node: nat, q: QueueClass)
    requires Inv(s) && FindPeriodic(s.tasks, node, 0).Some?
    ensures Ensure(s, node, q) == UpdateClass(s, FindPeriodic(s.tasks, node, 0).value, q)
  {
    hide UpdateClass;
    var h := FindPeriodic(s.tasks, node, 0).value;
    assert SlotOk(s, h);
    assert SetTask(s, h, s.tasks[h].(enabled := true)) == s;
  }

  // The operations that are not a request for a periodic exchange made outside of ensuring.
  predicate EnsuredOnly(op: Op) { op.EnqueueExchange? ==> !op.periodic }

  lemma ApplyOnce(s: Sched, op: Op)
    requires Inv(s) && OncePerNode(s.tasks) && EnsuredOnly(op)
    ensures OncePerNode(Apply(s, op).tasks)
  {
    InvSize(s);
    hide AddTask, CancelSlot, Ensure, RemoveTasksForNode, ExchangeControl, FindById, FindPeriodic, AllocSlot, OncePerNode, Inv;
    if op.EnsurePeriodic? {
      var node := NodeOf(op.target);
      if node.Some? { EnsureOnce(s, node.value, op.queue); }
    } else {
      ApplyNoNew(s, op);
      NoNewKeepsOnce(s.tasks, Apply(s, op).tasks);
    }
  }

  lemma ApplyNoNew(s: Sched, op: Op)
    requires Inv(s) && EnsuredOnly(op) && !op.EnsurePeriodic?
    ensures NoNewPeriodic(s.tasks, Apply(s, op).tasks)
  {
    InvSize(s);
    hide AddTask, CancelSlot, RemoveTasksForNode, ExchangeControl, FindById, FindPeriodic, AllocSlot, Inv;
    match op
    case CancelTask(id) =>
      var slot := FindById(s.tasks, id, 0);
      if slot.Some? { CancelNoNew(s, slot.value); }
    case PopCompletion =>
    case Arm =>
    case Control(result) => ControlNoNew(s, result);
    case EnsurePeriodic(_, _) =>
    case _ =>
      var node := NodeOf(op.target);
      if node.Some? { ApplyAtNoNew(s, op, node.value); }
  }

  lemma ApplyAtNoNew(s: Sched, op: Op, node: nat)
    requires Inv(s) && EnsuredOnly(op) && !op.EnsurePeriodic?
    ensures NoNewPeriodic(s.tasks, ApplyAt(s, op, node).tasks)
  {
    InvSize(s);
    hide AddTask, CancelSlot, RemoveTasksForNode, FindPeriodic, AllocSlot, Inv;
    match op
    case EnqueueExchange(_, q, periodic) => AddOneShotNoNew(s, DataRequest(node, q, periodic));
    case EnqueueCommand(_, id, value, has, q, matches) =>
      if matches { AddOneShotNoNew(s, Request(node, CommandTask, q, false, id, value, has, false)); }
    case SendStaged(_, q) => AddOneShotNoNew(s, Request(node, CommandTask, q, false, 0, 1.0, false, true));
    case CancelPeriodic(_) =>
      var slot := FindPeriodic(s.tasks, node, 0);
      if slot.Some? { CancelNoNew(s, slot.value); }
    case CancelTarget(_) => RemoveNodeNoNew(s, node, 0);
    case EnsurePeriodic(_, _) =>
    case _ =>
  }

  // The call that breaks uniqueness: a bare request for a periodic exchange with a node that has a
  // periodic task, while a slot is free.
  predicate Doubles(s: Sched, op: Op) {
    && op.EnqueueExchange? && op.periodic && NodeOf(op.target).Some?
    && FindPeriodic(s.tasks, NodeOf(op.target).value, 0).Some? && AllocSlot(s.tasks, 0).Some?
  }

  // A bare periodic request adds a rival exactly if the node has a periodic task and a slot is free.
  lemma BareRequest(s: Sched, node: nat, q: QueueClass)
    requires Inv(s) && OncePerNode(s.tasks)
    ensures OncePerNode(AddTask(s, DataRequest(node, q, true)).tasks)
       <==> !(FindPeriodic(s.tasks, node, 0).Some? && AllocSlot(s.tasks, 0).Some?)
  {
    var had, free := FindPeriodic(s.tasks, node, 0), AllocSlot(s.tasks, 0);
    if had == None {
      AddPeriodicOnce(s, node, q);
    } else if free.Some? {
      var r := AddTask(s, DataRequest(node, q, true));
      assert Rivals(r.tasks[had.value], r.tasks[free.value]) && Rivals(r.tasks[free.value], r.tasks[had.value]);
    }
  }

  // Every operation keeps periodic tasks unique, but for that call, which always breaks it.
  lemma OnceUnlessDoubled(s: Sched, op: Op)
    requires Inv(s) && OncePerNode(s.tasks)
    ensures OncePerNode(Apply(s, op).tasks) <==> !Doubles(s, op)
  {
    hide AddTask, OncePerNode, FindPeriodic, AllocSlot, Inv;
    if EnsuredOnly(op) {
      hide Apply;
      ApplyOnce(s, op);
    } else {
      var node := NodeOf(op.target);
      if node.Some? { BareRequest(s, node.value, op.queue); }
    }
  }

  predicate DoublesAt(s: Sched, ops: seq<Op>, k: nat) { k < |ops| && Doubles(RunOps(s, ops, k), ops[k]) }

  ghost predicate OnceAt(s: Sched, ops: seq<Op>, k: nat) { k <= |ops| && OncePerNode(RunOps(s, ops, k).tasks) }

  lemma OnceStep(s: Sched, ops: seq<Op>, n: nat)
    requires Inv(s) && n < |ops| && OnceAt(s, ops, n)
    ensures OnceAt(s, ops, n + 1) <==> !DoublesAt(s, ops, n)
  {
    InvariantKept(s, ops, n);
    hide Apply, Inv, OncePerNode, Doubles;
    OnceUnlessDoubled(RunOps(s, ops, n), ops[n]);
    assert RunOps(s, ops, n + 1) == Apply(RunOps(s, ops, n), ops[n]);
  }

  lemma OnceAtStart(s: Sched, ops: seq<Op>)
    requires OncePerNode(s.tasks)
    ensures OnceAt(s, ops, 0)
  {
  }

  // Up to any point of any run no node has had two periodic tasks exactly if no call so far doubled one.
  lemma {:induction false} OnceOverRunsIff(s: Sched, ops: seq<Op>, n: nat)
    requires Inv(s) && OncePerNode(s.tasks) && n <= |ops|
    ensures (forall j :: 0 <= j <= n ==> OnceAt(s, ops, j)) <==> (forall j :: 0 <= j < n ==> !DoublesAt(s, ops, j))
  {
    hide *;
    OnceAtStart(s, ops);
    if n > 0 {
      OnceOverRunsIff(s, ops, n - 1);
      if OnceAt(s, ops, n - 1) {
        OnceStep(s, ops, n - 1);
      }
    }
  }

  // In particular, with ensuring as the only creator no node ever has two periodic tasks.
  lemma OncePerNodeOverRuns(ops: seq<Op>, n: nat)
    requires n <= |ops| && forall k :: 0 <= k < n ==> EnsuredOnly(ops[k])
    ensures OncePerNode(RunOps(FRESH, ops, n).tasks)
  {
    FreshInv();
    assert OncePerNode(FRESH.tasks);
    hide Apply, Inv, OncePerNode, RunOps;
    OnceOverRunsIff(FRESH, ops, n);
    assert forall j :: 0 <= j < n ==> EnsuredOnly(ops[j]) && !DoublesAt(FRESH, ops, j);
    assert OnceAt(FRESH, ops, n);
  }

  // Without that restriction it fails: two requests for a periodic exchange make two tasks.
  lemma TwoPeriodicTasks()
    ensures var op := EnqueueExchange(Pss, Normal, true); !OncePerNode(Apply(Apply(FRESH, op), op).tasks)
  {
    var op := EnqueueExchange(Pss, Normal, true);
    var one := Apply(FRESH, op);
    var two := Apply(one, op);
    assert one.tasks[0].used && !one.tasks[1].used;
    assert AllocSlot(one.tasks, 0) == AllocSlot(one.tasks, 1) == Some(1);
    assert Rivals(two.tasks[0], two.tasks[1]);
  }

  // --- the class of a node's periodic task -------------------------------------------------

  predicate SameFor(t: Task, u: Task, node: nat) {
    && (IsPeriodic(t, node) <==> IsPeriodic(u, node))
    && (IsPeriodic(t, node) ==> t.queue == u.queue)
  }

  lemma {:induction false} FindSame(a: seq<Task>, b: seq<Task>, node: nat, i: nat)
    requires |a| == |b| && i <= |a|
    requires forall k :: 0 <= k < |a| ==> SameFor(a[k], b[k], node)
    ensures FindPeriodic(a, node, i) == FindPeriodic(b, node, i)
    decreases |a| - i
  {
    if i < |a| {
      assert SameFor(a[i], b[i], node);
      FindSame(a, b, node, i + 1);
    }
  }

  lemma ClassSame(a: seq<Task>, b: seq<Task>, node: nat)
    requires |a| == |b|
    requires forall k :: 0 <= k < |a| ==> SameFor(a[k], b[k], node)
    ensures PeriodicClass(a, node) == PeriodicClass(b, node)
  {
    FindSame(a, b, node, 0);
  }

  lemma AtMostOne(tasks: seq<Task>, i: nat, j: nat)
    requires OncePerNode(tasks) && i < |tasks| && j < |tasks| && Rivals(tasks[i], tasks[j])
    ensures i == j
  {
  }

  // With at most one per node, finding is by content: any periodic task of the node is the one found.
  lemma FoundIsTheOne(tasks: seq<Task>, node: nat, i: nat)
    requires OncePerNode(tasks) && i < |tasks| && IsPeriodic(tasks[i], node)
    ensures FindPeriodic(tasks, node, 0) == Some(i)
    ensures PeriodicClass(tasks, node) == Some(tasks[i].queue)
  {
    var f := FindPeriodic(tasks, node, 0);
    AtMostOne(tasks, f.value, i);
  }

  // Ensuring sets the class; a task is missing afterwards only if none existed and no slot was free.
  lemma EnsureClass(s: Sched, node: nat, q: QueueClass)
    requires Inv(s) && OncePerNode(s.tasks)
    ensures PeriodicClass(Ensure(s, node, q).tasks, node)
      == if PeriodicClass(s.tasks, node).Some? || AllocSlot(s.tasks, 0).Some? then Some(q) else None
  {
    EnsureOnce(s, node, q);
    var r := Ensure(s, node, q);
    var slot := FindPeriodic(s.tasks, node, 0);
    if slot.Some? {
      EnsureFound(s, node, q);
      assert SlotOk(s, slot.value);
      assert IsPeriodic(r.tasks[slot.value], node) && r.tasks[slot.value].queue == q;
      FoundIsTheOne(r.tasks, node, slot.value);
    } else {
      var free := AllocSlot(s.tasks, 0);
      if free.Some? {
        assert IsPeriodic(r.tasks[free.value], node) && r.tasks[free.value].queue == q;
        FoundIsTheOne(r.tasks, node, free.value);
      }
    }
  }

  predicate OnlyRequeued(a: seq<Task>, b: seq<Task>, h: nat)
    requires h < |a|
  {
    |a| == |b| && b == a[h := a[h].(queued := b[h].queued, queue := b[h].queue)]
  }

  lemma QueueTouches(s: Sched, h: nat)
    requires h < |s.tasks|
    ensures OnlyRequeued(s.tasks, QueueTaskSlot(s, h).tasks, h)
  {
  }

  lemma RemoveTouches(s: Sched, h: nat)
    requires h < |s.tasks|
    ensures OnlyRequeued(s.tasks, RemoveFromQueues(s, h).tasks, h)
  {
  }

  lemma SetClassTouches(s: Sched, h: nat, q: QueueClass)
    requires h < |s.tasks|
    ensures OnlyRequeued(s.tasks, SetTask(s, h, s.tasks[h].(queue := q)).tasks, h)
  {
  }

  lemma RequeuedTrans(a: seq<Task>, b: seq<Task>, c: seq<Task>, h: nat)
    requires h < |a| == |b| && OnlyRequeued(a, b, h) && OnlyRequeued(b, c, h)
    ensures OnlyRequeued(a, c, h)
  {
  }

  lemma UpdateClassTouches(s: Sched, h: nat, q: QueueClass)
    requires h < |s.tasks|
    ensures OnlyRequeued(s.tasks, UpdateClass(s, h, q).tasks, h)
  {
    var out := if s.tasks[h].queued then RemoveFromQueues(s, h) else s;
    RemoveTouches(s, h);
    assert OnlyRequeued(s.tasks, s.tasks, h);
    SetClassTouches(out, h, q);
    var moved := SetTask(out, h, out.tasks[h].(queue := q));
    RequeuedTrans(s.tasks, out.tasks, moved.tasks, h);
    QueueTouches(moved, h);
    RequeuedTrans(s.tasks, moved.tasks, QueueTaskSlot(moved, h).tasks, h);
    hide RemoveFromQueues, QueueTaskSlot, OnlyRequeued;
  }

  lemma UpdateClassOthers(s: Sched, h: nat, q: QueueClass, other: nat)
    requires h < |s.tasks| && !IsPeriodic(s.tasks[h], other)
    ensures PeriodicClass(UpdateClass(s, h, q).tasks, other) == PeriodicClass(s.tasks, other)
  {
    UpdateClassTouches(s, h, q);
    hide UpdateClass, PeriodicClass;
    ClassSame(UpdateClass(s, h, q).tasks, s.tasks, other);
  }

  lemma AddOthers(s: Sched, node: nat, q: QueueClass, other: nat)
    requires other != node
    ensures PeriodicClass(AddTask(s, DataRequest(node, q, true)).tasks, other) == PeriodicClass(s.tasks, other)
  {
    ClassSame(AddTask(s, DataRequest(node, q, true)).tasks, s.tasks, other);
  }

  lemma EnsureOthers(s: Sched, node: nat, q: QueueClass, other: nat)
    requires Inv(s) && other != node
    ensures PeriodicClass(Ensure(s, node, q).tasks, other) == PeriodicClass(s.tasks, other)
  {
    hide UpdateClass, AddTask, PeriodicClass, Inv;
    var slot := FindPeriodic(s.tasks, node, 0);
    if slot.Some? {
      EnsureFound(s, node, q);
      UpdateClassOthers(s, slot.value, q, other);
    } else {
      AddOthers(s, node, q, other);
    }
  }

  // Cancelling leaves the node without a periodic task.
  lemma CancelPeriodicClass(s: Sched, target: Target, node: nat)
    requires Inv(s) && OncePerNode(s.tasks) && NodeOf(target) == Some(node)
    ensures PeriodicClass(Apply(s, CancelPeriodic(target)).tasks, node) == None
  {
    var slot := FindPeriodic(s.tasks, node, 0);
    if slot.Some? {
      var r := CancelSlot(s, slot.value);
      assert SlotOk(s, slot.value);
      var f := FindPeriodic(r.tasks, node, 0);
      if f.Some? {
        assert f.value != slot.value && IsPeriodic(s.tasks[f.value], node);
        FoundIsTheOne(s.tasks, node, f.value);
      }
    }
  }

  lemma CancelPeriodicOthers(s: Sched, target: Target, node: nat, other: nat)
    requires NodeOf(target) == Some(node) && other != node
    ensures PeriodicClass(Apply(s, CancelPeriodic(target)).tasks, other) == PeriodicClass(s.tasks, other)
  {
    var slot := FindPeriodic(s.tasks, node, 0);
    if slot.Some? {
      var r := CancelSlot(s, slot.value);
      ClassSame(r.tasks, s.tasks, other);
    }
  }
}
