// The events the command windows see are those the scheduler produces: one command in flight at a time,
// doomed exactly when its task was cancelled.
module FlightEvents {
  import opened Wire
  import opened BusExchange
  import opened Scheduler
  import opened SchedulerInvariant
  import opened PeriodicTasks
  import opened FlightKept
  import W = CommandWindows

  // The command exchange in flight, as the scheduler knows it.
  function FlightOf(s: Sched): W.Flight {
    if s.active.Some? && s.active.value < |s.tasks| then TaskFlight(s.tasks[s.active.value]) else W.Grounded
  }

  function TaskFlight(t: Task): W.Flight {
    if t.armed && t.kind == CommandTask && t.node.Some? then W.InFlight(t.node.value, !t.enabled) else W.Grounded
  }

  // What an operation from outside means for the windows.
  function OutsideEvent(s: Sched, op: Op): Option<W.Event> {
    match op
    case CancelTask(id) =>
      if s.active.Some? && s.active.value < |s.tasks| && FindById(s.tasks, id, 0) == s.active && FlightOf(s).InFlight?
      then Some(W.Doom) else None
    case CancelTarget(target) => (match NodeOf(target) case Some(n) => Some(W.Cancel(n)) case None => None)
    case _ => None
  }

  // What control followed by arming means: an exchange ends, or the next one starts.
  function ControlEvent(s: Sched, result: Option<Result>, own: Option<W.Own>): Option<W.Event>
    requires Inv(s)
  {
    if s.active.Some? then
      if FlightOf(s).InFlight? && result.Some? then Some(W.Finish(result.value == Success)) else None
    else
      var slot := TakeFront(s).1;
      if slot.Some? && slot.value < |s.tasks| && s.tasks[slot.value].kind == CommandTask && s.tasks[slot.value].node.Some?
      then Some(W.Arm(s.tasks[slot.value].node.value, own)) else None
  }

  function AfterEvent(f: W.Flight, e: Option<W.Event>): W.Flight {
    match e
    case None => f
    case Some(v) => W.NextFlight(f, v)
  }

  predicate Allowed(f: W.Flight, e: Option<W.Event>) {
    match e
    case None => true
    case Some(v) => W.Enabled(f, v)
  }

  // Between ticks whatever is active is armed.
  predicate Armed(s: Sched) { s.active.Some? ==> s.active.value < |s.tasks| && s.tasks[s.active.value].armed }

  // --- operations from outside -------------------------------------------------------------

  // The active task is untouched.
  predicate ActiveSame(s: Sched, r: Sched) {
    && r.active == s.active && |r.tasks| == |s.tasks|
    && (s.active.Some? && s.active.value < |s.tasks| ==> TaskFlight(r.tasks[s.active.value]) == TaskFlight(s.tasks[s.active.value]))
  }

  lemma AddSame(s: Sched, r: Request)
    requires Inv(s)
    ensures ActiveSame(s, AddTask(s, r))
  {
    if s.active.Some? { assert SlotOk(s, s.active.value); }
  }

  lemma CancelFlight(s: Sched, h: nat)
    requires h < |s.tasks|
    ensures FlightOf(CancelSlot(s, h))
      == if s.active == Some(h) && FlightOf(s).InFlight? then W.InFlight(FlightOf(s).node, true) else FlightOf(s)
  {
  }

  lemma ClassSame(s: Sched, h: nat, q: QueueClass)
    ensures ActiveSame(s, UpdateClass(s, h, q))
  {
    if h < |s.tasks| {
      UpdateClassTouches(s, h, q);
      UpdateClassActive(s, h, q);
      hide UpdateClass;
    }
  }

  lemma EnsureSame(s: Sched, node: nat, q: QueueClass)
    requires Inv(s)
    ensures ActiveSame(s, Ensure(s, node, q))
  {
    hide AddTask, UpdateClass, ActiveSame;
    var slot := FindPeriodic(s.tasks, node, 0);
    if slot.Some? {
      EnsureFound(s, node, q);
      ClassSame(s, slot.value, q);
    } else {
      AddSame(s, DataRequest(node, q, true));
    }
  }

  // Removing a node's tasks from slot i on dooms its command in flight.
  lemma {:induction false} RemoveNodeFlight(s: Sched, node: nat, i: nat)
    requires i <= |s.tasks| && (s.active.Some? ==> s.active.value < |s.tasks| && s.tasks[s.active.value].used)
    ensures RemoveTasksForNode(s, node, i).active == s.active
    ensures FlightOf(RemoveTasksForNode(s, node, i))
      == if FlightOf(s).InFlight? && FlightOf(s).node == node && s.active.value >= i then W.InFlight(node, true) else FlightOf(s)
    decreases |s.tasks| - i
  {
    if i < |s.tasks| {
      var t := s.tasks[i];
      if t.used && t.node == Some(node) {
        CancelFlight(s, i);
        RemoveNodeFlight(CancelSlot(s, i), node, i + 1);
      } else {
        RemoveNodeFlight(s, node, i + 1);
      }
    }
  }

  lemma ActiveUsed(s: Sched)
    requires Inv(s) && s.active.Some?
    ensures s.active.value < |s.tasks| && s.tasks[s.active.value].used
  {
    assert SlotOk(s, s.active.value);
  }

  // A data task found for cancelling is not the command in flight.
  lemma CancelPeriodicFlight(s: Sched, node: nat)
    requires Inv(s) && FindPeriodic(s.tasks, node, 0).Some?
    ensures FlightOf(CancelSlot(s, FindPeriodic(s.tasks, node, 0).value)) == FlightOf(s)
  {
    CancelFlight(s, FindPeriodic(s.tasks, node, 0).value);
    hide CancelSlot, Inv;
  }

  // Operations from outside move the flight exactly as their event says.
  lemma OutsideMovesFlight(s: Sched, op: Op)
    requires Inv(s) && Outside(op)
    ensures Allowed(FlightOf(s), OutsideEvent(s, op))
    ensures FlightOf(Apply(s, op)) == AfterEvent(FlightOf(s), OutsideEvent(s, op))
  {
    InvSize(s);
    hide AddTask, CancelSlot, RemoveTasksForNode, Ensure, FindById, FindPeriodic, AllocSlot, Inv;
    match op
    case CancelTask(id) =>
      var slot := FindById(s.tasks, id, 0);
      if slot.Some? { CancelFlight(s, slot.value); }
    case PopCompletion =>
    case Arm =>
    case Control(_) =>
    case _ =>
      var node := NodeOf(op.target);
      if node.Some? { TargetMovesFlight(s, op, node.value); }
  }

  lemma TargetMovesFlight(s: Sched, op: Op, node: nat)
    requires Inv(s) && !op.CancelTask? && !op.PopCompletion? && Outside(op) && NodeOf(op.target) == Some(node)
    ensures FlightOf(ApplyAt(s, op, node)) == AfterEvent(FlightOf(s), OutsideEvent(s, op))
  {
    InvSize(s);
    if s.active.Some? { ActiveUsed(s); }
    hide AddTask, CancelSlot, RemoveTasksForNode, Ensure, FindPeriodic, AllocSlot, Inv, FindById;
    match op
    case EnqueueExchange(_, q, periodic) => AddSame(s, DataRequest(node, q, periodic));
    case EnsurePeriodic(_, q) => EnsureSame(s, node, q);
    case EnqueueCommand(_, id, value, has, q, matches) =>
      if matches { AddSame(s, Request(node, CommandTask, q, false, id, value, has, false)); }
    case SendStaged(_, q) => AddSame(s, Request(node, CommandTask, q, false, 0, 1.0, false, true));
    case CancelPeriodic(_) =>
      var slot := FindPeriodic(s.tasks, node, 0);
      if slot.Some? { CancelPeriodicFlight(s, node); }
    case CancelTarget(_) => RemoveNodeFlight(s, node, 0);
    case CancelTask(_) =>
    case PopCompletion =>
    case Arm =>
    case Control(_) =>
  }

  // --- control and arming ------------------------------------------------------------------

  // A command exchange ends only when it is in flight and starts only when none is, and then the
  // scheduler's flight is the one the windows assume.
  lemma ControlMovesFlight(s: Sched, result: Option<Result>, own: Option<W.Own>)
    requires Inv(s) && Armed(s) && (s.active.Some? ==> result.Some?)
    ensures Allowed(FlightOf(s), ControlEvent(s, result, own))
    ensures FlightOf(MarkArmed(ExchangeControl(s, result))) == AfterEvent(FlightOf(s), ControlEvent(s, result, own))
  {
    if s.active.Some? {
      assert SlotOk(s, s.active.value);
      hide Inv, QueueTaskSlot, ClearSlot, ActivateNext;
    } else {
      PopNeverSkips(s);
      TakeFrontMakesHole(s);
      var (p, slot) := TakeFront(s);
      if slot.Some? {
        HoleClosesActive(p, slot.value);
        assert SlotOk(Activate(p, slot.value), slot.value);
      }
      hide PopNext, TakeFront, Activate, Inv;
    }
  }

  // --- whole runs --------------------------------------------------------------------------

  // One operation from outside, a write to the command area, or a turn of control and arming while the
  // bus is free; own is the command the armed task writes itself.
  datatype Step = Do(op: Op) | Write(cmd: seq<word>) | Turn(result: Option<Result>, own: Option<W.Own>)

  function StepSched(s: Sched, st: Step): Sched {
    match st
    case Do(op) => Apply(s, op)
    case Write(_) => s
    case Turn(result, _) => MarkArmed(ExchangeControl(s, result))
  }

  // With the bus free, an exchange that was armed has left a result.
  predicate StepOk(s: Sched, st: Step) {
    match st
    case Do(op) => Outside(op)
    case Write(_) => true
    case Turn(result, _) => s.active.Some? ==> result.Some?
  }

  // A command a task writes itself is one of its node's; that is checked when the task is enqueued.
  ghost predicate OwnOfNode(c: W.Config, s: Sched, own: Option<W.Own>)
    requires Inv(s)
  {
    own.Some? && ControlEvent(s, None, own).Some? && ControlEvent(s, None, own).value.Arm? ==>
      var n := ControlEvent(s, None, own).value.node;
      own.value.row < |c.rows| && n < |c.nodes| && c.rows[own.value.row].sysId == c.nodes[n].systemId
  }

  ghost predicate StepFits(c: W.Config, s: Sched, st: Step)
    requires Inv(s)
  {
    match st
    case Do(_) => true
    case Write(cmd) => |cmd| == c.cmdBlocks
    case Turn(_, own) => OwnOfNode(c, s, own)
  }

  function StepEvent(s: Sched, st: Step): Option<W.Event>
    requires Inv(s)
  {
    match st
    case Do(op) => OutsideEvent(s, op)
    case Write(cmd) => Some(W.Stage(cmd))
    case Turn(result, own) => ControlEvent(s, result, own)
  }

  ghost predicate Sound(s: Sched) { Inv(s) && Armed(s) }

  lemma StepKeepsSound(s: Sched, st: Step)
    requires Sound(s) && StepOk(s, st)
    ensures Sound(StepSched(s, st))
  {
    match st
    case Do(op) =>
      hide Apply, Inv;
      ApplyKeeps(s, op);
      ApplyStands(s, op);
    case Write(_) =>
    case Turn(result, _) =>
      ControlKeeps(s, result);
      ArmKeeps(ExchangeControl(s, result));
      TurnArms(s, result);
      hide ExchangeControl, Inv;
  }

  lemma TurnArms(s: Sched, result: Option<Result>)
    requires Sound(s) && (s.active.Some? ==> result.Some?)
    ensures Armed(MarkArmed(ExchangeControl(s, result)))
  {
    ControlKeeps(s, result);
    var r := ExchangeControl(s, result);
    if r.active.Some? { assert SlotOk(r, r.active.value); }
    hide QueueTaskSlot, ClearSlot, ActivateNext, Inv;
  }

  // A step moves the flight as its event says, and the event is one the windows allow in that state.
  lemma EventSound(s: Sched, st: Step) returns (e: Option<W.Event>)
    requires Sound(s) && StepOk(s, st)
    ensures Inv(s) && e == StepEvent(s, st) && FlightOf(StepSched(s, st)) == AfterEvent(FlightOf(s), e) && Allowed(FlightOf(s), e)
  {
    e := StepEvent(s, st);
    hide Inv, Apply, ExchangeControl, ControlEvent, OutsideEvent, FlightOf;
    match st
    case Do(op) => OutsideMovesFlight(s, op);
    case Write(_) =>
    case Turn(result, own) => ControlMovesFlight(s, result, own);
  }

  // And it fits the configuration.
  lemma EventFitsConfig(c: W.Config, s: Sched, st: Step)
    requires Inv(s) && StepFits(c, s, st) && |c.nodes| == NODE_COUNT
    ensures StepEvent(s, st).Some? ==> W.EventFits(c, StepEvent(s, st).value)
  {
    if st.Turn? && s.active == None {
      var slot := TakeFront(s).1;
      if slot.Some? {
        TakeFrontMakesHole(s);
        assert SlotOk(s, slot.value);
      }
    }
    hide Inv;
  }

  // --- runs --------------------------------------------------------------------------------

  function OneOrNone(e: Option<W.Event>): seq<W.Event> { if e.Some? then [e.value] else [] }

  // A window run that has reached the scheduler's flight.
  ghost predicate Follows(c: W.Config, evs: seq<W.Event>, s: Sched) {
    Sound(s) && W.Run(c, evs) && W.FlightAt(evs, |evs|) == FlightOf(s)
  }

  lemma RunGrows(c: W.Config, evs: seq<W.Event>, e: W.Event)
    requires W.Run(c, evs) && W.EventFits(c, e) && W.Enabled(W.FlightAt(evs, |evs|), e)
    ensures W.Run(c, evs + [e])
    ensures W.FlightAt(evs + [e], |evs| + 1) == W.NextFlight(W.FlightAt(evs, |evs|), e)
  {
    W.FlightAtPrefix(evs, [e], |evs|);
    hide W.EventFits, W.Enabled, W.NextFlight, W.ConfigOk;
    forall k | 0 <= k < |evs + [e]| ensures W.EventOk(c, evs + [e], k) {
      if k < |evs| {
        W.FlightAtPrefix(evs, [e], k);
        assert W.EventOk(c, evs, k);
      }
    }
  }

  // Every step of the scheduler extends the window run by its event.
  lemma StepFollows(c: W.Config, evs: seq<W.Event>, s: Sched, st: Step)
    requires Follows(c, evs, s) && StepOk(s, st) && StepFits(c, s, st) && |c.nodes| == NODE_COUNT
    ensures Follows(c, evs + OneOrNone(StepEvent(s, st)), StepSched(s, st))
  {
    hide Inv, StepSched, StepOk, StepEvent, StepFits, FlightOf, W.Run, W.EventFits, W.NextFlight, W.Enabled;
    StepKeepsSound(s, st);
    var e := EventSound(s, st);
    EventFitsConfig(c, s, st);
    if e.Some? {
      RunGrows(c, evs, e.value);
    } else {
      assert evs + [] == evs;
    }
  }

  function RunSteps(s: Sched, steps: seq<Step>, n: nat): Sched
    requires n <= |steps|
  {
    if n == 0 then s else StepSched(RunSteps(s, steps, n - 1), steps[n - 1])
  }

  ghost predicate StepOkAt(c: W.Config, s: Sched, steps: seq<Step>, k: nat) {
    k < |steps| ==>
      var r := RunSteps(s, steps, k);
      StepOk(r, steps[k]) && (Inv(r) ==> StepFits(c, r, steps[k]))
  }

  ghost predicate StepsOk(c: W.Config, s: Sched, steps: seq<Step>) {
    forall k :: 0 <= k < |steps| ==> StepOkAt(c, s, steps, k)
  }

  lemma {:induction false} RunSound(c: W.Config, s: Sched, steps: seq<Step>, n: nat)
    requires Sound(s) && StepsOk(c, s, steps) && n <= |steps|
    ensures Sound(RunSteps(s, steps, n))
  {
    hide Sound, StepSched, StepOk, StepFits, Inv;
    if n > 0 {
      RunSound(c, s, steps, n - 1);
      assert StepOkAt(c, s, steps, n - 1);
      StepKeepsSound(RunSteps(s, steps, n - 1), steps[n - 1]);
    }
  }

  // The window events of the first n steps.
  ghost function Events(c: W.Config, s: Sched, steps: seq<Step>, n: nat): seq<W.Event>
    requires Sound(s) && StepsOk(c, s, steps) && n <= |steps|
  {
    if n == 0 then []
    else
      RunSound(c, s, steps, n - 1);
      Events(c, s, steps, n - 1) + OneOrNone(StepEvent(RunSteps(s, steps, n - 1), steps[n - 1]))
  }

  // The scheduler only ever produces runs the windows are specified for: a command is armed only when
  // none is in flight, only the one in flight is finished, and it is doomed exactly when cancelled.
  lemma {:induction false} EventsAreARun(c: W.Config, s: Sched, steps: seq<Step>, n: nat)
    requires W.ConfigOk(c) && |c.nodes| == NODE_COUNT
    requires Sound(s) && StepsOk(c, s, steps) && n <= |steps| && s.active == None
    ensures W.Run(c, Events(c, s, steps, n))
    ensures W.FlightAt(Events(c, s, steps, n), |Events(c, s, steps, n)|) == FlightOf(RunSteps(s, steps, n))
    ensures Follows(c, Events(c, s, steps, n), RunSteps(s, steps, n))
  {
    hide StepSched, StepOk, StepEvent, StepFits, FlightOf, OneOrNone, W.ConfigOk, Inv, Armed;
    if n > 0 {
      EventsAreARun(c, s, steps, n - 1);
      RunSound(c, s, steps, n - 1);
      assert StepOkAt(c, s, steps, n - 1);
      StepFollows(c, Events(c, s, steps, n - 1), RunSteps(s, steps, n - 1), steps[n - 1]);
    } else {
      NoEvents(c, s);
    }
  }

  lemma NoEvents(c: W.Config, s: Sched)
    requires s.active == None && W.ConfigOk(c)
    ensures FlightOf(s) == W.Grounded && W.Run(c, [])
  {
  }

  // What a scheduler run keeps for a field that no cancellation harms, and sends at the next arming, is
  // the latest nonzero value.
  lemma SchedulerKeepsLatest(c: W.Config, s: Sched, steps: seq<Step>, n: nat, node: nat, i: nat)
    requires W.ConfigOk(c) && |c.nodes| == NODE_COUNT && W.FieldOf(c, node, i)
    requires Sound(s) && StepsOk(c, s, steps) && n <= |steps| && s.active == None
    ensures var evs := Events(c, s, steps, n);
      W.Run(c, evs)
      && ((forall j :: 0 <= j <= |evs| ==> W.HoldsLatest(c, evs, j, node, i))
          <==> (forall j :: 0 <= j < |evs| ==> W.Harmless(c, evs, j, node, i)))
  {
    EventsAreARun(c, s, steps, n);
    W.PendingRefinesLatest(c, Events(c, s, steps, n), |Events(c, s, steps, n)|, node, i);
    hide Events, W.Run, W.HoldsLatest, W.Harmless, W.ConfigOk;
  }
}
