// The life of a task, in its own fields: how it is enqueued, that nothing rewrites what it is to do, and how
// it is completed, requeued or cancelled.
module TaskLife {
  import opened Wire
  import opened BusExchange
  import opened Scheduler
  import opened SchedulerInvariant
  import opened SchedulerFairness

  // What a task is to do.
  datatype Job = Job(id: nat, kind: TaskKind, node: Option<nat>, commandId: nat, value: real, hasValue: bool, staged: bool)

  function JobOf(t: Task): Job { Job(t.id, t.kind, t.node, t.commandId, t.value, t.hasValue, t.staged) }

  function OtherQueue(q: QueueClass): QueueClass { if q == Normal then Priority else Normal }

  predicate OthersStand(a: seq<Task>, b: seq<Task>, h: nat) {
    |a| == |b| && forall k | 0 <= k < |a| && k != h :: b[k] == a[k]
  }

  // Slot h has become a new task that waits last in the queue of class q; nothing else has changed.
  predicate Enqueued(s: Sched, r: Sched, h: nat, q: QueueClass, job: Job, periodic: bool) {
    && h < |s.tasks| && !s.tasks[h].used && OthersStand(s.tasks, r.tasks, h)
    && r.tasks[h].used && r.tasks[h].enabled && r.tasks[h].queued && !r.tasks[h].active && !r.tasks[h].armed
    && JobOf(r.tasks[h]) == job && r.tasks[h].periodic == periodic && r.tasks[h].queue == q && job.id == s.nextId
    && QueueOf(r, q) == QueueOf(s, q) + [h] && QueueOf(r, OtherQueue(q)) == QueueOf(s, OtherQueue(q))
    && r.nextId == s.nextId + 1 && r.active == s.active && r.burst == s.burst && r.completions == s.completions
  }

  // A command is enqueued with its own identifier and value; a full table, a target that is no node and a
  // command of another node leave everything as it was.
  lemma CommandEnqueued(s: Sched, target: Target, id: nat, value: real, has: bool, q: QueueClass, matches: bool)
    ensures var r, slot, node := Apply(s, EnqueueCommand(target, id, value, has, q, matches)), AllocSlot(s.tasks, 0), NodeOf(target);
      if matches && node.Some? && slot.Some?
      then Enqueued(s, r, slot.value, q, Job(s.nextId, CommandTask, node, id, value, has, false), false)
      else r == s
  {
  }

  lemma StagedEnqueued(s: Sched, target: Target, q: QueueClass)
    ensures var r, slot, node := Apply(s, SendStaged(target, q)), AllocSlot(s.tasks, 0), NodeOf(target);
      if node.Some? && slot.Some?
      then Enqueued(s, r, slot.value, q, Job(s.nextId, CommandTask, node, 0, 1.0, false, true), false)
      else r == s
  {
  }

  lemma ExchangeEnqueued(s: Sched, target: Target, q: QueueClass, periodic: bool)
    ensures var r, slot, node := Apply(s, EnqueueExchange(target, q, periodic)), AllocSlot(s.tasks, 0), NodeOf(target);
      if node.Some? && slot.Some?
      then Enqueued(s, r, slot.value, q, Job(s.nextId, DataTask, node, 0, 1.0, false, false), periodic)
      else r == s
  {
  }

  // Ensuring without a periodic task makes one, like a periodic request.
  lemma EnsuredNew(s: Sched, target: Target, q: QueueClass)
    requires NodeOf(target).Some? && FindPeriodic(s.tasks, NodeOf(target).value, 0) == None
    ensures Apply(s, EnsurePeriodic(target, q)) == Apply(s, EnqueueExchange(target, q, true))
  {
  }

  // --- nothing rewrites a job --------------------------------------------------------------

  predicate KeptOrNew(s: Sched, t: Task, u: Task) { u.used ==> (t.used && JobOf(u) == JobOf(t)) || u.id >= s.nextId }

  // Every task in r is one of s with the same job, or younger than all of s.
  ghost predicate OnlyNew(s: Sched, r: Sched) {
    && |s.tasks| == |r.tasks| && s.nextId <= r.nextId && forall k | 0 <= k < |s.tasks| :: KeptOrNew(s, s.tasks[k], r.tasks[k])
  }

  lemma OnlyNewSelf(s: Sched)
    ensures OnlyNew(s, s)
  {
  }

  lemma OnlyNewTrans(s: Sched, r: Sched, u: Sched)
    requires OnlyNew(s, r) && OnlyNew(r, u)
    ensures OnlyNew(s, u)
  {
    forall k | 0 <= k < |s.tasks| ensures KeptOrNew(s, s.tasks[k], u.tasks[k]) {
      assert KeptOrNew(s, s.tasks[k], r.tasks[k]) && KeptOrNew(r, r.tasks[k], u.tasks[k]);
    }
  }

  lemma AddOnlyNew(s: Sched, r: Request)
    ensures OnlyNew(s, AddTask(s, r))
  {
  }

  lemma CancelOnlyNew(s: Sched, h: nat)
    requires h < |s.tasks|
    ensures OnlyNew(s, CancelSlot(s, h))
  {
  }

  lemma ClassOnlyNew(s: Sched, h: nat, q: QueueClass)
    ensures OnlyNew(s, UpdateClass(s, h, q))
  {
  }

  lemma EnsureOnlyNew(s: Sched, node: nat, q: QueueClass)
    ensures OnlyNew(s, Ensure(s, node, q))
  {
    hide AddTask, UpdateClass;
    var slot := FindPeriodic(s.tasks, node, 0);
    if slot.Some? {
      var on := SetTask(s, slot.value, s.tasks[slot.value].(enabled := true));
      assert OnlyNew(s, on);
      ClassOnlyNew(on, slot.value, q);
      OnlyNewTrans(s, on, UpdateClass(on, slot.value, q));
    } else {
      AddOnlyNew(s, DataRequest(node, q, true));
    }
  }

  lemma {:induction false} RemoveNodeOnlyNew(s: Sched, node: nat, i: nat)
    requires i <= |s.tasks|
    ensures OnlyNew(s, RemoveTasksForNode(s, node, i))
    decreases |s.tasks| - i
  {
    hide CancelSlot;
    if i < |s.tasks| {
      var t := s.tasks[i];
      if t.used && t.node == Some(node) {
        CancelOnlyNew(s, i);
        RemoveNodeOnlyNew(CancelSlot(s, i), node, i + 1);
        OnlyNewTrans(s, CancelSlot(s, i), RemoveTasksForNode(CancelSlot(s, i), node, i + 1));
      } else {
        RemoveNodeOnlyNew(s, node, i + 1);
      }
    }
  }

  lemma FinalizeOnlyNew(s: Sched, result: Option<Result>)
    ensures OnlyNew(s, Finalize(s, result).0)
  {
  }

  lemma ActivateOnlyNew(s: Sched)
    requires Inv(s)
    ensures OnlyNew(s, ActivateNext(s))
  {
    PopNeverSkips(s);
    TakeFrontMakesHole(s);
    hide PopNext, Inv;
    var (p, slot) := TakeFront(s);
    assert OnlyNew(s, p);
    hide TakeFront;
    assert OnlyNew(p, ActivateNext(s));
    OnlyNewTrans(s, p, ActivateNext(s));
  }

  lemma ControlOnlyNew(s: Sched, result: Option<Result>)
    requires Inv(s)
    ensures OnlyNew(s, ExchangeControl(s, result))
  {
    FinalizeOnlyNew(s, result);
    FinalizeKeeps(s, result);
    var f := Finalize(s, result).0;
    ActivateOnlyNew(f);
    hide Finalize, ActivateNext, Inv;
    OnlyNewTrans(s, f, ActivateNext(f));
  }

  // No operation changes the job of a task.
  lemma ApplyOnlyNew(s: Sched, op: Op)
    requires Inv(s)
    ensures OnlyNew(s, Apply(s, op))
  {
    hide AddTask, CancelSlot, RemoveTasksForNode, ExchangeControl, Ensure, FindById, FindPeriodic, AllocSlot, Inv, OnlyNew;
    match op
    case CancelTask(id) =>
      var slot := FindById(s.tasks, id, 0);
      if slot.Some? { CancelOnlyNew(s, slot.value); } else { OnlyNewSelf(s); }
    case PopCompletion => PopOnlyNew(s);
    case Arm => ArmOnlyNew(s);
    case Control(result) => ControlOnlyNew(s, result);
    case _ =>
      var node := NodeOf(op.target);
      if node.Some? { ApplyAtOnlyNew(s, op, node.value); } else { OnlyNewSelf(s); }
  }

  lemma PopOnlyNew(s: Sched)
    ensures OnlyNew(s, Apply(s, PopCompletion))
  {
  }

  lemma ArmOnlyNew(s: Sched)
    ensures OnlyNew(s, MarkArmed(s))
  {
  }

  lemma ApplyAtOnlyNew(s: Sched, op: Op, node: nat)
    ensures OnlyNew(s, ApplyAt(s, op, node))
  {
    hide AddTask, CancelSlot, RemoveTasksForNode, Ensure, FindPeriodic, AllocSlot, OnlyNew;
    OnlyNewSelf(s);
    match op
    case EnqueueExchange(_, q, periodic) => AddOnlyNew(s, DataRequest(node, q, periodic));
    case EnsurePeriodic(_, q) => EnsureOnlyNew(s, node, q);
    case EnqueueCommand(_, id, value, has, q, matches) => AddOnlyNew(s, Request(node, CommandTask, q, false, id, value, has, false));
    case SendStaged(_, q) => AddOnlyNew(s, Request(node, CommandTask, q, false, 0, 1.0, false, true));
    case CancelPeriodic(_) =>
      var slot := FindPeriodic(s.tasks, node, 0);
      if slot.Some? { CancelOnlyNew(s, slot.value); }
    case CancelTarget(_) => RemoveNodeOnlyNew(s, node, 0);
    case _ =>
  }

  lemma {:induction false} RunOnlyNew(s: Sched, ops: seq<Op>, n: nat)
    requires Inv(s) && n <= |ops|
    ensures OnlyNew(s, RunOps(s, ops, n))
    decreases n
  {
    hide Apply, Inv, OnlyNew;
    if n == 0 {
      OnlyNewSelf(s);
    } else {
      RunOnlyNew(s, ops, n - 1);
      InvariantKept(s, ops, n - 1);
      ApplyOnlyNew(RunOps(s, ops, n - 1), ops[n - 1]);
      OnlyNewTrans(s, RunOps(s, ops, n - 1), RunOps(s, ops, n));
    }
  }

  // Whatever operations follow: a task that has an identifier of s is that task, in its slot, with its job.
  lemma SameIdSameJob(s: Sched, r: Sched, h: nat, k: nat)
    requires Inv(s) && OnlyNew(s, r) && h < |s.tasks| && k < |r.tasks|
    requires s.tasks[h].used && r.tasks[k].used && r.tasks[k].id == s.tasks[h].id
    ensures k == h && JobOf(r.tasks[k]) == JobOf(s.tasks[h])
  {
    assert KeptOrNew(s, s.tasks[k], r.tasks[k]) && SlotOk(s, h);
    assert SameId(s.tasks[k], s.tasks[h]) && SameId(s.tasks[h], s.tasks[k]);
  }

  // --- the end of a task -------------------------------------------------------------------

  // With its result, whatever that is, the active task is completed. A periodic one that is still enabled
  // waits again, last in the queue of its class, and any other leaves its slot empty.
  lemma TaskFinalized(s: Sched, r: Result)
    requires Inv(s) && s.active.Some? && s.tasks[s.active.value].armed
    ensures var h, t, (f, c) := s.active.value, s.tasks[s.active.value], Finalize(s, Some(r));
      && c == Some(Completion(t.id, if t.node.Some? then TargetOf(t.node.value) else AnyTarget, t.kind, t.periodic, r))
      && OthersStand(s.tasks, f.tasks, h) && f.active == None && f.nextId == s.nextId && f.burst == s.burst
      && (if t.periodic && t.enabled
          then f.tasks[h] == t.(active := false, armed := false, queued := true)
               && QueueOf(f, t.queue) == QueueOf(s, t.queue) + [h] && QueueOf(f, OtherQueue(t.queue)) == QueueOf(s, OtherQueue(t.queue))
          else !f.tasks[h].used && f.normal == s.normal && f.priority == s.priority)
  {
    assert SlotOk(s, s.active.value);
  }

  // Without a result, or before it is armed, nothing happens to it.
  lemma NotFinalized(s: Sched, result: Option<Result>)
    requires Inv(s) && (s.active.Some? ==> !s.tasks[s.active.value].armed || result == None)
    ensures Finalize(s, result) == (s, None)
  {
  }

  // A task is found by its identifier if there is one, and cancelling it disables it in flight and otherwise
  // empties its slot and takes it out of its queue; everything else stands.
  lemma TaskCancelled(s: Sched, h: nat)
    requires Inv(s) && h < MAX_TASKS && s.tasks[h].used
    ensures var r, t := Apply(s, CancelTask(s.tasks[h].id)), s.tasks[h];
      && OthersStand(s.tasks, r.tasks, h) && r.active == s.active && r.nextId == s.nextId && r.completions == s.completions
      && (if s.active == Some(h) then r.tasks[h] == t.(enabled := false, periodic := false)
               && r.normal == s.normal && r.priority == s.priority
          else !r.tasks[h].used && r.normal == RemoveFirst(s.normal, h) && r.priority == RemoveFirst(s.priority, h))
  {
    FoundById(s, h);
  }

  lemma FoundById(s: Sched, h: nat)
    requires Inv(s) && h < MAX_TASKS && s.tasks[h].used
    ensures FindById(s.tasks, s.tasks[h].id, 0) == Some(h)
  {
    assert SlotOk(s, h);
    var found := FindById(s.tasks, s.tasks[h].id, 0);
    assert found.Some?;
    assert SameId(s.tasks[h], s.tasks[found.value]) && SameId(s.tasks[found.value], s.tasks[h]);
  }

  // An identifier nobody has cancels nothing.
  lemma NobodyCancelled(s: Sched, id: nat)
    requires forall k | 0 <= k < |s.tasks| :: !(s.tasks[k].used && s.tasks[k].id == id)
    ensures Apply(s, CancelTask(id)) == s
  {
  }

  // The slot of the node's first periodic data task.
  predicate FirstPeriodic(s: Sched, node: nat, h: nat) {
    h < |s.tasks| && IsPeriodic(s.tasks[h], node) && forall k | 0 <= k < h :: !IsPeriodic(s.tasks[k], node)
  }

  lemma {:induction false} PeriodicFound(s: Sched, node: nat, h: nat, i: nat)
    requires FirstPeriodic(s, node, h) && i <= h
    ensures FindPeriodic(s.tasks, node, i) == Some(h)
    decreases h - i
  {
    if i < h { PeriodicFound(s, node, h, i + 1); }
  }

  // Cancelling the periodic exchange of a node cancels that one task and no other; a node without one is
  // left alone.
  lemma PeriodicCancelled(s: Sched, target: Target, node: nat)
    requires Inv(s) && NodeOf(target) == Some(node)
    ensures forall h: nat | FirstPeriodic(s, node, h) :: Apply(s, CancelPeriodic(target)) == Apply(s, CancelTask(s.tasks[h].id))
    ensures (forall k | 0 <= k < |s.tasks| :: !IsPeriodic(s.tasks[k], node)) ==> Apply(s, CancelPeriodic(target)) == s
  {
    hide CancelSlot, Inv, IsPeriodic;
    forall h: nat | FirstPeriodic(s, node, h) ensures Apply(s, CancelPeriodic(target)) == Apply(s, CancelTask(s.tasks[h].id)) {
      PeriodicFound(s, node, h, 0);
      InvSize(s);
      PeriodicIsUsed(s.tasks[h], node);
      FoundById(s, h);
    }
  }

  lemma PeriodicIsUsed(t: Task, node: nat)
    requires IsPeriodic(t, node)
    ensures t.used
  {
  }

  // The task in slot h is enabled and of class q, behind all others of that class if it waited in the other
  // one; nothing else has changed.
  predicate Reclassed(s: Sched, r: Sched, h: nat, q: QueueClass) {
    && h < |s.tasks| && OthersStand(s.tasks, r.tasks, h) && r.tasks[h] == s.tasks[h].(enabled := true, queue := q)
    && r.active == s.active && r.nextId == s.nextId && r.burst == s.burst && r.completions == s.completions
    && (if s.tasks[h].queued && s.tasks[h].queue != q
        then QueueOf(r, q) == QueueOf(s, q) + [h] && QueueOf(r, OtherQueue(q)) == RemoveFirst(QueueOf(s, OtherQueue(q)), h)
        else r.normal == s.normal && r.priority == s.priority)
  }

  lemma ClassMoved(s: Sched, h: nat, q: QueueClass)
    requires h < |s.tasks| && s.tasks[h].used && s.tasks[h].enabled && (s.tasks[h].queued <==> !s.tasks[h].active)
    requires s.tasks[h].queued ==> h !in QueueOf(s, OtherQueue(s.tasks[h].queue))
    ensures Reclassed(s, UpdateClass(s, h, q), h, q)
  {
    AbsentStays(s.normal, h);
    AbsentStays(s.priority, h);
  }

  // Ensuring finds the node's periodic task and reclasses that.
  lemma EnsuredAgain(s: Sched, target: Target, node: nat, q: QueueClass, h: nat)
    requires Inv(s) && NodeOf(target) == Some(node) && FirstPeriodic(s, node, h)
    ensures Reclassed(s, Apply(s, EnsurePeriodic(target, q)), h, q)
  {
    hide FindPeriodic, UpdateClass, Inv, Reclassed, IsPeriodic;
    PeriodicFound(s, node, h, 0);
    InvSize(s);
    var on := SetTask(s, h, s.tasks[h].(enabled := true));
    PeriodicIsUsed(s.tasks[h], node);
    UsedWaits(s, h);
    ClassMoved(on, h, q);
    EnabledFirst(s, UpdateClass(on, h, q), h, q);
  }

  lemma UsedWaits(s: Sched, h: nat)
    requires Inv(s) && h < MAX_TASKS && s.tasks[h].used
    ensures (s.tasks[h].queued <==> !s.tasks[h].active) && (s.tasks[h].queued ==> h !in QueueOf(s, OtherQueue(s.tasks[h].queue)))
  {
    assert SlotOk(s, h) && Placed(s.tasks[h]);
  }

  lemma EnabledFirst(s: Sched, r: Sched, h: nat, q: QueueClass)
    requires h < |s.tasks| && Reclassed(SetTask(s, h, s.tasks[h].(enabled := true)), r, h, q)
    ensures Reclassed(s, r, h, q)
  {
  }

  lemma {:induction false} AbsentStays(q: seq<nat>, h: nat)
    ensures h !in q ==> RemoveFirst(q, h) == q
  {
    if |q| > 0 { AbsentStays(q[1..], h); }
  }

  // --- cancelling a node -------------------------------------------------------------------

  // The slot after everything for the node is cancelled.
  predicate Spared(s: Sched, t: Task, u: Task, node: nat, h: nat) {
    if !(t.used && t.node == Some(node)) then u == t
    else if s.active == Some(h) then u == t.(enabled := false, periodic := false) else !u.used
  }

  ghost predicate SparedFrom(s: Sched, r: Sched, node: nat, i: nat) {
    && |r.tasks| == |s.tasks| && r.active == s.active
    && (forall h | i <= h < |s.tasks| :: Spared(s, s.tasks[h], r.tasks[h], node, h))
    && (forall h | 0 <= h < i && h < |s.tasks| :: r.tasks[h] == s.tasks[h])
  }

  lemma CancelSpares(s: Sched, h: nat)
    requires h < |s.tasks|
    ensures var r := CancelSlot(s, h);
      && OthersStand(s.tasks, r.tasks, h) && r.active == s.active
      && (if s.active == Some(h) then r.tasks[h] == s.tasks[h].(enabled := false, periodic := false) else !r.tasks[h].used)
  {
  }

  lemma {:induction false} NodeSpared(s: Sched, node: nat, i: nat)
    requires i <= |s.tasks|
    ensures SparedFrom(s, RemoveTasksForNode(s, node, i), node, i)
    decreases |s.tasks| - i
  {
    hide CancelSlot;
    if i < |s.tasks| {
      var t := s.tasks[i];
      if t.used && t.node == Some(node) {
        CancelSpares(s, i);
        NodeSpared(CancelSlot(s, i), node, i + 1);
      } else {
        NodeSpared(s, node, i + 1);
      }
    }
  }

  // Cancelling a target removes all its tasks but the one in flight, which it disables, and no other; the
  // queues lose exactly the removed ones.
  lemma TargetCancelled(s: Sched, target: Target, node: nat)
    requires Inv(s) && NodeOf(target) == Some(node)
    ensures var r := Apply(s, CancelTarget(target));
      SparedFrom(s, r, node, 0)
      && (forall h: nat, q | h in QueueOf(r, q) :: h < MAX_TASKS && h in QueueOf(s, q) && s.tasks[h].node != Some(node))
      && (forall h: nat, q | h in QueueOf(s, q) && h < MAX_TASKS && s.tasks[h].node != Some(node) :: h in QueueOf(r, q))
  {
    NodeSpared(s, node, 0);
    ApplyKeeps(s, CancelTarget(target));
    var r := Apply(s, CancelTarget(target));
    forall h: nat, q ensures h in QueueOf(r, q) ==> h < MAX_TASKS && h in QueueOf(s, q) && s.tasks[h].node != Some(node) {
      if h in QueueOf(r, q) {
        assert h < MAX_TASKS && SlotOk(r, h) && SlotOk(s, h) && Spared(s, s.tasks[h], r.tasks[h], node, h);
      }
    }
    forall h: nat, q | h in QueueOf(s, q) && h < MAX_TASKS && s.tasks[h].node != Some(node) ensures h in QueueOf(r, q) {
      assert SlotOk(r, h) && SlotOk(s, h) && Spared(s, s.tasks[h], r.tasks[h], node, h);
    }
    hide RemoveTasksForNode;
  }

  // --- going into flight -------------------------------------------------------------------

  // With nothing in flight, a turn of control and arming puts the popped task in flight, armed, and
  // changes no other.
  lemma TaskArmed(s: Sched, result: Option<Result>)
    requires Inv(s) && s.active == None
    ensures var r, slot := MarkArmed(ExchangeControl(s, result)), TakeFront(s).1;
      && r.active == slot && r.completions == s.completions && r.nextId == s.nextId
      && (if slot == None then r.tasks == s.tasks
          else slot.value < |s.tasks| && OthersStand(s.tasks, r.tasks, slot.value)
               && r.tasks[slot.value] == s.tasks[slot.value].(queued := false, active := true, armed := true))
  {
    PopNeverSkips(s);
    TakeFrontMakesHole(s);
    var (p, slot) := TakeFront(s);
    if slot.Some? { assert SlotOk(p, slot.value) && SlotOk(s, slot.value); }
    hide PopNext, TakeFront;
  }
}
