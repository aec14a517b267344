// The program in the joint run: what an exchange sends is the command of the task it is armed for, and that
// is the command the task was enqueued with.
module ProgramRun {
  import opened Wire
  import opened BusExchange
  import opened ClosedSystem
  import opened Scheduler
  import opened SchedulerInvariant
  import opened TaskLife
  import opened CsExchange
  import opened Liveness
  import opened JointRun
  import F = FlightEvents
  import opened CommandPath
  import D = JointDelivery
  import E = JointProgress
  import W = CommandWindows
  import P = Params
  import C = Codec

  // --- commands of the right node ----------------------------------------------------------

  // The identifier is a command of the node's system.
  predicate MatchesNode(c: W.Config, tab: P.Tables, n: nat, id: nat) {
    n < |c.nodes| && tab.IsComm(id) && tab.CommRow(id).sysId == c.nodes[n].systemId
  }

  predicate JobMatches(c: W.Config, tab: P.Tables, job: Job) {
    job.kind == CommandTask && !job.staged ==> job.node.Some? && MatchesNode(c, tab, job.node.value, job.commandId)
  }

  // Every task that writes a command of its own writes one of its node's.
  ghost predicate Matching(c: W.Config, tab: P.Tables, s: Sched) {
    forall h | 0 <= h < |s.tasks| :: s.tasks[h].used ==> JobMatches(c, tab, JobOf(s.tasks[h]))
  }

  // An enqueued command is accepted exactly if it is one of the target's node.
  predicate Checked(c: W.Config, tab: P.Tables, op: Op) {
    op.EnqueueCommand? && NodeOf(op.target).Some? ==> (op.matches <==> MatchesNode(c, tab, NodeOf(op.target).value, op.commandId))
  }

  lemma EnqueuedMatches(c: W.Config, tab: P.Tables, s: Sched, r: Sched, h: nat, q: QueueClass, job: Job, periodic: bool)
    requires Matching(c, tab, s) && Enqueued(s, r, h, q, job, periodic) && JobMatches(c, tab, job)
    ensures Matching(c, tab, r)
  {
    hide JobMatches;
  }

  // An operation that uses no new identifier adds no task.
  lemma KeptMatches(c: W.Config, tab: P.Tables, s: Sched, r: Sched)
    requires Matching(c, tab, s) && OnlyNew(s, r) && Inv(r) && r.nextId == s.nextId
    ensures Matching(c, tab, r)
  {
    hide JobMatches;
    forall h | 0 <= h < |r.tasks| && r.tasks[h].used ensures JobMatches(c, tab, JobOf(r.tasks[h])) {
      assert SlotOk(r, h) && KeptOrNew(s, s.tasks[h], r.tasks[h]);
    }
  }

  lemma {:induction false} RemoveKeepsNextId(s: Sched, node: nat, i: nat)
    requires i <= |s.tasks|
    ensures RemoveTasksForNode(s, node, i).nextId == s.nextId
    decreases |s.tasks| - i
  {
    if i < |s.tasks| {
      var t := s.tasks[i];
      RemoveKeepsNextId(if t.used && t.node == Some(node) then CancelSlot(s, i) else s, node, i + 1);
    }
  }

  predicate Enqueues(s: Sched, op: Op) {
    op.EnqueueExchange? || op.EnqueueCommand? || op.SendStaged?
    || (op.EnsurePeriodic? && NodeOf(op.target).Some? && FindPeriodic(s.tasks, NodeOf(op.target).value, 0) == None)
  }

  lemma NextIdStands(s: Sched, op: Op)
    requires Inv(s) && !Enqueues(s, op)
    ensures Apply(s, op).nextId == s.nextId
  {
    PopNeverSkips(s);
    hide FindPeriodic, FindById, RemoveTasksForNode, PopNext, TakeFront, AllocSlot, Inv;
    match op
    case CancelTarget(target) => if NodeOf(target).Some? { RemoveKeepsNextId(s, NodeOf(target).value, 0); }
    case Control(result) => ControlKeepsNextId(s, result);
    case _ =>
  }

  lemma ControlKeepsNextId(s: Sched, result: Option<Result>)
    requires Inv(s)
    ensures ExchangeControl(s, result).nextId == s.nextId
  {
    FinalizeKeeps(s, result);
    var f := Finalize(s, result).0;
    assert f.nextId == s.nextId;
    PopNeverSkips(f);
    TakeFrontMakesHole(f);
    hide Finalize, PopNext, TakeFront, Inv;
  }

  lemma OpMatches(c: W.Config, tab: P.Tables, s: Sched, op: Op)
    requires Inv(s) && Matching(c, tab, s) && Checked(c, tab, op)
    ensures Matching(c, tab, Apply(s, op))
  {
    hide Apply, Inv, Matching, OnlyNew, Enqueued, MatchesNode, FindPeriodic, AllocSlot;
    ApplyKeeps(s, op);
    if Enqueues(s, op) {
      AddMatches(c, tab, s, op);
    } else {
      ApplyOnlyNew(s, op);
      NextIdStands(s, op);
      KeptMatches(c, tab, s, Apply(s, op));
    }
  }

  lemma AddMatches(c: W.Config, tab: P.Tables, s: Sched, op: Op)
    requires Inv(s) && Matching(c, tab, s) && Checked(c, tab, op) && Enqueues(s, op)
    ensures Matching(c, tab, Apply(s, op))
  {
    hide Apply, Inv, Matching, Enqueued, MatchesNode, FindPeriodic, AllocSlot;
    var slot, r := AllocSlot(s.tasks, 0), Apply(s, op);
    var node := NodeOf(op.target);
    match op
    case EnqueueCommand(target, id, value, has, q, matches) =>
      CommandEnqueued(s, target, id, value, has, q, matches);
      if matches && node.Some? && slot.Some? {
        EnqueuedMatches(c, tab, s, r, slot.value, q, Job(s.nextId, CommandTask, node, id, value, has, false), false);
      }
    case SendStaged(target, q) =>
      StagedEnqueued(s, target, q);
      if node.Some? && slot.Some? {
        EnqueuedMatches(c, tab, s, r, slot.value, q, Job(s.nextId, CommandTask, node, 0, 1.0, false, true), false);
      }
    case EnqueueExchange(target, q, periodic) =>
      ExchangeEnqueued(s, target, q, periodic);
      if node.Some? && slot.Some? {
        EnqueuedMatches(c, tab, s, r, slot.value, q, Job(s.nextId, DataTask, node, 0, 1.0, false, false), periodic);
      }
    case EnsurePeriodic(target, q) =>
      EnsuredNew(s, target, q);
      ExchangeEnqueued(s, target, q, true);
      if slot.Some? {
        EnqueuedMatches(c, tab, s, r, slot.value, q, Job(s.nextId, DataTask, node, 0, 1.0, false, false), true);
      }
  }

  // --- through steps and ticks -------------------------------------------------------------

  predicate AllChecked(c: W.Config, tab: P.Tables, steps: seq<F.Step>) {
    forall k | 0 <= k < |steps| :: steps[k].Do? ==> Checked(c, tab, steps[k].op)
  }

  // Control and arming keep and match what they find.
  lemma TurnKeepsJobs(c: W.Config, tab: P.Tables, s: Sched, result: Option<Result>)
    requires Inv(s)
    ensures var r := MarkArmed(ExchangeControl(s, result)); OnlyNew(s, r) && (Matching(c, tab, s) ==> Matching(c, tab, r))
  {
    hide Inv, ExchangeControl, MarkArmed, OnlyNew, Matching;
    var op := Op.Control(result);
    ApplyKeeps(s, op);
    ApplyOnlyNew(s, op);
    var f := Apply(s, op);
    ApplyOnlyNew(f, Arm);
    OnlyNewTrans(s, f, Apply(f, Arm));
    if Matching(c, tab, s) {
      OpMatches(c, tab, s, op);
      OpMatches(c, tab, f, Arm);
    }
  }

  lemma StepKeepsJobs(c: W.Config, tab: P.Tables, s: Sched, st: F.Step)
    requires Inv(s) && (st.Do? ==> Checked(c, tab, st.op))
    ensures OnlyNew(s, F.StepSched(s, st)) && (Matching(c, tab, s) ==> Matching(c, tab, F.StepSched(s, st)))
  {
    hide Inv, Apply, ExchangeControl, MarkArmed, OnlyNew, Matching, Checked;
    match st
    case Do(op) =>
      ApplyOnlyNew(s, op);
      if Matching(c, tab, s) { OpMatches(c, tab, s, op); }
    case Write(_) => OnlyNewSelf(s);
    case Turn(result, _) => TurnKeepsJobs(c, tab, s, result);
  }

  lemma {:induction false} StepsKeepJobs(c: W.Config, tab: P.Tables, s: Sched, steps: seq<F.Step>, from: nat, n: nat)
    requires F.Sound(s) && F.StepsOk(c, s, steps) && AllChecked(c, tab, steps) && from <= n <= |steps|
    ensures OnlyNew(F.RunSteps(s, steps, from), F.RunSteps(s, steps, n))
    ensures Matching(c, tab, s) ==> Matching(c, tab, F.RunSteps(s, steps, n))
    decreases n
  {
    hide F.StepSched, F.StepsOk, Inv, OnlyNew, Matching, Checked;
    if n > 0 {
      var last := F.RunSteps(s, steps, n - 1);
      F.RunSound(c, s, steps, n - 1);
      StepKeepsJobs(c, tab, last, steps[n - 1]);
      StepsKeepJobs(c, tab, s, steps, if from < n then from else 0, n - 1);
      if from < n {
        OnlyNewTrans(F.RunSteps(s, steps, from), last, F.RunSteps(s, steps, n));
      } else {
        OnlyNewSelf(F.RunSteps(s, steps, n));
      }
    } else {
      OnlyNewSelf(s);
    }
  }

  lemma TickKeepsJobs(c: W.Config, tab: P.Tables, j: Joint, m: Sys, x: Input, v: Joint, ph: Phase, t: nat)
    requires Coupled(j.world, ph) && F.Sound(j.world.sched) && JointTick(c, j, m, x, v, t) && AllChecked(c, tab, x.steps)
    ensures OnlyNew(AfterSteps(j, x), v.world.sched) && OnlyNew(j.world.sched, v.world.sched)
    ensures Matching(c, tab, j.world.sched) ==> Matching(c, tab, v.world.sched)
  {
    hide Coupled, TickOf, F.StepsOk, F.OwnOfNode, WindowsAfter, F.StepSched, F.RunSteps, Inv, OnlyNew, Matching, AllChecked;
    StepsKeepJobs(c, tab, j.world.sched, x.steps, 0, |x.steps|);
    assert F.RunSteps(j.world.sched, x.steps, 0) == j.world.sched by { NoSteps(j.world.sched, x.steps); }
    var s := AfterSteps(j, x);
    F.RunSound(c, j.world.sched, x.steps, |x.steps|);
    if Cs(j.world.sys).ctl.busy {
      BusyTickSched(c, j, m, x, v, t);
      OnlyNewSelf(s);
    } else {
      ResultWaits(c, j, m, x, v, ph, t);
      StepKeepsJobs(c, tab, s, TurnOf(j, x));
    }
    OnlyNewTrans(j.world.sched, s, v.world.sched);
  }

  lemma NoSteps(s: Sched, steps: seq<F.Step>)
    ensures F.RunSteps(s, steps, 0) == s
  {
  }

  // --- a tick of the program ---------------------------------------------------------------

  // The task that control and arming put in flight from s with the bus free.
  ghost function TaskToArm(s: Sched): Option<Task> {
    var slot := TakeFrontOf(s);
    if s.active == None && slot.Some? && slot.value < |s.tasks| then Some(s.tasks[slot.value]) else None
  }

  // The windows after the software's own steps.
  ghost function Stepped(c: W.Config, j: Joint, steps: seq<F.Step>): W.Wires
    requires |j.world.sys.parties| >= 1
  {
    WiresAfter(c, WiresOf(Cs(j.world.sys), j.pending), j.world.sched, steps, |steps|)
  }

  // The windows after arming the task as the program does it.
  function ArmedWindows(c: W.Config, tab: P.Tables, p: Party, w: W.Wires, task: Task, root: real): W.Wires {
    if task.node.Some? && task.node.value < |c.nodes| then
      var n, q := task.node.value, E.Rewritten(p, w);
      WiresOf(ArmParty(q, w.pending, c.rows, c.nodes[n], n, task.kind, OwnCommand(q.mem, tab, task, root)), w.pending)
    else w
  }

  // The windows when the tick's software is done: it arms the task the scheduler puts in flight, or settles
  // the exchange that has ended.
  ghost function ProgramWindows(c: W.Config, tab: P.Tables, j: Joint, steps: seq<F.Step>, root: real): W.Wires
    requires |j.world.sys.parties| >= 1
  {
    var p, w, s := Cs(j.world.sys), Stepped(c, j, steps), F.RunSteps(j.world.sched, steps, |steps|);
    if p.ctl.busy then w
    else if TaskToArm(s).Some? then ArmedWindows(c, tab, p, w, TaskToArm(s).value, root)
    else Moved(c, w, F.FlightOf(s), EventOf(s, F.Turn(ResultOf(p), None)))
  }

  // root is the square root that the task's own command needs, if it has one.
  ghost predicate RootRight(tab: P.Tables, task: Option<Task>, root: real) {
    task.Some? && !task.value.staged && tab.IsComm(task.value.commandId) ==>
      C.RootOk(tab.CommRow(task.value.commandId), if task.value.hasValue then task.value.value else 1.0, root)
  }

  // One tick of the program: the software's steps, then control and arming, then the bus.
  ghost predicate ProgramTick(c: W.Config, tab: P.Tables, j: Joint, m: Sys, steps: seq<F.Step>, root: real, v: Joint, t: nat) {
    && |j.world.sys.parties| >= 1 && |m.parties| >= 1
    && NoTurn(steps) && F.StepsOk(c, j.world.sched, steps) && AllChecked(c, tab, steps)
    && TickOf(j.world, m, OpsOf(steps, |steps|), v.world, c.rows, c.nodes, t)
    && RootRight(tab, TaskToArm(F.RunSteps(j.world.sched, steps, |steps|)), root)
    && WiresOf(Cs(m), v.pending) == ProgramWindows(c, tab, j, steps, root)
  }

  // The command that the task armed in the tick, if any, writes itself.
  ghost function OwnNow(c: W.Config, tab: P.Tables, j: Joint, steps: seq<F.Step>, root: real): Option<W.Own> {
    var task := TaskToArm(F.RunSteps(j.world.sched, steps, |steps|));
    if |j.world.sys.parties| >= 1 && !Cs(j.world.sys).ctl.busy && task.Some? && task.value.kind == CommandTask
    then OwnWrite(E.Rewritten(Cs(j.world.sys), Stepped(c, j, steps)).mem, tab, task.value, root) else None
  }

  ghost function InputOf(c: W.Config, tab: P.Tables, j: Joint, steps: seq<F.Step>, root: real): Input {
    Input(steps, OwnNow(c, tab, j, steps, root))
  }

  lemma ToArmIs(c: W.Config, tab: P.Tables, s: Sched, result: Option<Result>, own: Option<W.Own>)
    requires Inv(s) && Matching(c, tab, s) && TaskToArm(s).Some?
    ensures var t := TaskToArm(s).value;
      t.used && t.enabled && t.node.Some? && t.node.value < NODE_COUNT && JobMatches(c, tab, JobOf(t)) && F.FlightOf(s) == W.Grounded
    ensures EventOf(s, F.Turn(result, own)) == F.ControlEvent(s, result, own)
    ensures F.ControlEvent(s, result, own)
         == if TaskToArm(s).value.kind == CommandTask then Some(W.Arm(TaskToArm(s).value.node.value, own)) else None
  {
    TakeFrontMakesHole(s);
    var slot := TakeFrontOf(s).value;
    assert SlotOk(s, slot) && TaskOk(s.tasks[slot], s.nextId);
    hide Inv, TakeFront, JobMatches;
  }

  // The armed task's own command is one of its node's.
  lemma OwnIsOfNode(c: W.Config, tab: P.Tables, j: Joint, steps: seq<F.Step>, root: real)
    requires c.rows == tab.comms && |c.nodes| == NODE_COUNT
    requires var s := F.RunSteps(j.world.sched, steps, |steps|); Inv(s) && Matching(c, tab, s)
    ensures F.OwnOfNode(c, F.RunSteps(j.world.sched, steps, |steps|), OwnNow(c, tab, j, steps, root))
  {
    hide Inv, Matching, TaskToArm, Stepped, OwnWrite, F.RunSteps, F.ControlEvent, JobMatches, F.FlightOf, EventOf;
    var s, own := F.RunSteps(j.world.sched, steps, |steps|), OwnNow(c, tab, j, steps, root);
    if own.Some? {
      ToArmIs(c, tab, s, None, own);
      OwnFits(c, tab, E.Rewritten(Cs(j.world.sys), Stepped(c, j, steps)).mem, TaskToArm(s).value, root);
    }
  }

  lemma OwnFits(c: W.Config, tab: P.Tables, m: Memory, task: Task, root: real)
    requires c.rows == tab.comms && task.kind == CommandTask && JobMatches(c, tab, JobOf(task))
    requires task.node.Some? && task.node.value < |c.nodes|
    ensures W.EventFits(c, W.Arm(task.node.value, OwnWrite(m, tab, task, root)))
  {
    hide C.Accepts, P.Pattern;
  }

  // The windows are those of the events: arming is the arming event, with the task's own command.
  lemma WindowsAgree(c: W.Config, tab: P.Tables, j: Joint, steps: seq<F.Step>, root: real)
    requires |j.world.sys.parties| >= 1 && c.rows == tab.comms && |c.nodes| == NODE_COUNT
    requires var s := F.RunSteps(j.world.sched, steps, |steps|);
      Inv(s) && Matching(c, tab, s) && RootRight(tab, TaskToArm(s), root)
    requires W.ConfigOk(c) && W.Shaped(c, Stepped(c, j, steps))
    ensures ProgramWindows(c, tab, j, steps, root) == WindowsAfter(c, j, InputOf(c, tab, j, steps, root))
  {
    var p, w, s := Cs(j.world.sys), Stepped(c, j, steps), F.RunSteps(j.world.sched, steps, |steps|);
    if !p.ctl.busy && TaskToArm(s).Some? {
      ToArmIs(c, tab, s, ResultOf(p), OwnNow(c, tab, j, steps, root));
      ArmingAgrees(c, tab, p, w, TaskToArm(s).value, root);
    }
    hide Inv, Matching, TaskToArm, Stepped, P.Pattern, C.Accepts, F.RunSteps, F.ControlEvent, ArmedWindows, Moved, W.ConfigOk, W.Shaped,
         RootRight, OwnWrite, JobMatches, F.FlightOf;
  }

  lemma ArmingAgrees(c: W.Config, tab: P.Tables, p: Party, w: W.Wires, task: Task, root: real)
    requires c.rows == tab.comms && W.ConfigOk(c) && W.Shaped(c, w) && RootRight(tab, Some(task), root)
    requires task.node.Some? && task.node.value < |c.nodes| && JobMatches(c, tab, JobOf(task))
    ensures var own := OwnWrite(E.Rewritten(p, w).mem, tab, task, root);
      ArmedWindows(c, tab, p, w, task, root)
      == if task.kind == CommandTask then Moved(c, w, W.Grounded, Some(W.Arm(task.node.value, own))) else w
  {
    hide OwnCommand, W.ConfigOk, W.Shaped, RootRight, Moved, C.RootOk;
    var q := E.Rewritten(p, w);
    if task.kind == CommandTask {
      OwnFits(c, tab, q.mem, task, root);
      RootIsRight(tab, task, root);
      D.ArmPartyMoves(c, q, w.pending, task.node.value, tab, task, root);
    } else {
      DataMoves(c, q, w.pending, task.node.value, OwnCommand(q.mem, tab, task, root));
    }
  }

  lemma RootIsRight(tab: P.Tables, task: Task, root: real)
    requires RootRight(tab, Some(task), root)
    ensures !task.staged && tab.IsComm(task.commandId) ==>
      C.RootOk(tab.CommRow(task.commandId), if task.hasValue then task.value else 1.0, root)
  {
    hide C.RootOk;
  }

  lemma DataMoves(c: W.Config, p: Party, pending: seq<seq<word>>, n: nat, own: seq<word>)
    requires n < |c.nodes|
    ensures WiresOf(ArmParty(p, pending, c.rows, c.nodes[n], n, DataTask, own), pending) == WiresOf(p, pending)
  {
    hide W.ArmWindows;
  }

  lemma SteppedShaped(c: W.Config, evs: seq<W.Event>, j: Joint, steps: seq<F.Step>)
    requires Recorded(c, evs, j) && F.StepsOk(c, j.world.sched, steps)
    ensures W.ConfigOk(c) && W.Shaped(c, Stepped(c, j, steps)) && F.Sound(j.world.sched)
    ensures Inv(F.RunSteps(j.world.sched, steps, |steps|))
  {
    hide F.StepsOk, F.Events, W.WiresAt, W.Run, F.RunSteps, Inv, W.ConfigOk, F.FlightOf, WiresAfter;
    StepsMove(c, evs, j.world.sched, steps, |steps|);
    D.RunConfig(c, evs + F.Events(c, j.world.sched, steps, |steps|));
  }

  // A tick of the program is a joint tick, in which the armed task writes its own command.
  lemma ProgramIsJoint(c: W.Config, tab: P.Tables, evs: seq<W.Event>, j: Joint, m: Sys, steps: seq<F.Step>, root: real, v: Joint,
                       t: nat)
    requires ProgramTick(c, tab, j, m, steps, root, v, t) && c.rows == tab.comms
    requires Recorded(c, evs, j) && Matching(c, tab, j.world.sched)
    ensures JointTick(c, j, m, InputOf(c, tab, j, steps, root), v, t)
  {
    hide Recorded, F.StepsOk, W.ConfigOk, W.Shaped, F.RunSteps, Inv, Matching, F.OwnOfNode, ProgramWindows, WindowsAfter, OwnNow, TickOf,
         RootRight, TaskToArm, AllChecked, Stepped;
    RecordedNodes(c, evs, j);
    SteppedShaped(c, evs, j, steps);
    StepsKeepJobs(c, tab, j.world.sched, steps, 0, |steps|);
    OwnIsOfNode(c, tab, j, steps, root);
    WindowsAgree(c, tab, j, steps, root);
  }

  lemma RecordedNodes(c: W.Config, evs: seq<W.Event>, j: Joint)
    requires Recorded(c, evs, j)
    ensures |c.nodes| == NODE_COUNT && |j.world.sys.parties| >= 1
  {
    hide Reached;
  }

  // Whatever the software calls and writes in a tick, the program has such a tick.
  lemma ProgramTickExists(c: W.Config, tab: P.Tables, evs: seq<W.Event>, j: Joint, steps: seq<F.Step>, root: real, ph: Phase, t: nat)
    returns (m: Sys, v: Joint)
    requires Recorded(c, evs, j) && Coupled(j.world, ph) && Matching(c, tab, j.world.sched) && c.rows == tab.comms
    requires NoTurn(steps) && F.StepsOk(c, j.world.sched, steps) && AllChecked(c, tab, steps) && E.Served(Cs(j.world.sys), c.nodes)
    requires RootRight(tab, TaskToArm(F.RunSteps(j.world.sched, steps, |steps|)), root)
    ensures ProgramTick(c, tab, j, m, steps, root, v, t)
  {
    hide Recorded, Coupled, F.StepsOk, W.ConfigOk, W.Shaped, F.RunSteps, Inv, Matching, F.OwnOfNode, ProgramWindows, WindowsAfter, OwnNow,
         TickOf, RootRight, TaskToArm, AllChecked, Stepped, E.Served;
    RecordedNodes(c, evs, j);
    SteppedShaped(c, evs, j, steps);
    StepsKeepJobs(c, tab, j.world.sched, steps, 0, |steps|);
    OwnIsOfNode(c, tab, j, steps, root);
    WindowsAgree(c, tab, j, steps, root);
    m, v := E.TickExists(c, evs, j, InputOf(c, tab, j, steps, root), ph, t);
  }

  // --- runs of the program -----------------------------------------------------------------

  // J[j] is the joint state before tick t0 + j, S[j] the steps of its software, M[j] what that leaves for
  // the bus.
  ghost predicate IsProgramRun(c: W.Config, tab: P.Tables, J: seq<Joint>, M: seq<Sys>, S: seq<seq<F.Step>>, roots: seq<real>, t0: nat) {
    && |J| == |M| + 1 && |S| == |roots| == |M|
    && forall j | 0 <= j < |M| :: ProgramTick(c, tab, J[j], M[j], S[j], roots[j], J[j + 1], t0 + j)
  }

  ghost predicate ProgramBegins(c: W.Config, tab: P.Tables, j: Joint) {
    Begins(c, j) && c.rows == tab.comms && Matching(c, tab, j.world.sched)
  }

  ghost function InputsOf(c: W.Config, tab: P.Tables, J: seq<Joint>, S: seq<seq<F.Step>>, roots: seq<real>): (X: seq<Input>)
    ensures |X| == if |J| >= |S| == |roots| then |S| else 0
    ensures forall j | 0 <= j < |X| :: X[j] == InputOf(c, tab, J[j], S[j], roots[j])
  {
    if |J| >= |S| == |roots| then seq(|S|, j requires 0 <= j < |S| => InputOf(c, tab, J[j], S[j], roots[j])) else []
  }

  ghost predicate TickAt(c: W.Config, J: seq<Joint>, M: seq<Sys>, X: seq<Input>, t0: nat, j: nat) {
    j < |M| && |J| == |M| + 1 && |X| == |M| ==> JointTick(c, J[j], M[j], X[j], J[j + 1], t0 + j)
  }

  // Every tick so far is a joint tick, and the state reached is one of a joint run.
  ghost predicate JointSoFar(c: W.Config, tab: P.Tables, J: seq<Joint>, M: seq<Sys>, X: seq<Input>, t0: nat, n: nat, ph: Phase) {
    && n <= |M| && |J| == |M| + 1 && |X| == |M|
    && Recorded(c, History(c, J, X, n), J[n]) && Coupled(J[n].world, ph) && Matching(c, tab, J[n].world.sched)
    && forall j | 0 <= j < n :: TickAt(c, J, M, X, t0, j)
  }

  lemma RunTickIs(c: W.Config, tab: P.Tables, J: seq<Joint>, M: seq<Sys>, S: seq<seq<F.Step>>, roots: seq<real>, t0: nat, n: nat)
    requires IsProgramRun(c, tab, J, M, S, roots, t0)
    ensures |J| == |M| + 1 && |S| == |roots| == |M| == |InputsOf(c, tab, J, S, roots)|
    ensures n < |M| ==>
      && ProgramTick(c, tab, J[n], M[n], S[n], roots[n], J[n + 1], t0 + n)
      && InputsOf(c, tab, J, S, roots)[n] == InputOf(c, tab, J[n], S[n], roots[n])
  {
    hide ProgramTick, InputOf;
    if n < |M| { assert ProgramTick(c, tab, J[n], M[n], S[n], roots[n], J[n + 1], t0 + n); }
  }

  lemma InputSteps(c: W.Config, tab: P.Tables, j: Joint, m: Sys, steps: seq<F.Step>, root: real, v: Joint, t: nat)
    requires ProgramTick(c, tab, j, m, steps, root, v, t)
    ensures InputOf(c, tab, j, steps, root).steps == steps && AllChecked(c, tab, steps)
  {
    hide OwnNow, TickOf, AllChecked, F.StepsOk;
  }

  lemma JointParts(c: W.Config, tab: P.Tables, J: seq<Joint>, M: seq<Sys>, X: seq<Input>, t0: nat, n: nat, ph: Phase)
    requires JointSoFar(c, tab, J, M, X, t0, n, ph)
    ensures n <= |M| && |J| == |M| + 1 && |X| == |M|
    ensures Recorded(c, History(c, J, X, n), J[n]) && Coupled(J[n].world, ph) && Matching(c, tab, J[n].world.sched)
  {
    hide Recorded, Coupled, Matching, JointTick, History;
  }

  lemma JointGoesOn(c: W.Config, tab: P.Tables, J: seq<Joint>, M: seq<Sys>, X: seq<Input>, t0: nat, n: nat, before: Phase, ph: Phase)
    requires JointSoFar(c, tab, J, M, X, t0, n, before) && n < |M| && JointTick(c, J[n], M[n], X[n], J[n + 1], t0 + n)
    requires Recorded(c, History(c, J, X, n) + TickEvents(c, J[n], X[n]), J[n + 1]) && Coupled(J[n + 1].world, ph)
    requires Matching(c, tab, J[n + 1].world.sched)
    ensures JointSoFar(c, tab, J, M, X, t0, n + 1, ph)
  {
    hide Recorded, Coupled, Matching, JointTick, TickEvents, History, TickAt;
    D.OneMoreTick(c, J, X, n);
    IsTick(c, J, M, X, t0, n);
  }

  lemma IsTick(c: W.Config, J: seq<Joint>, M: seq<Sys>, X: seq<Input>, t0: nat, j: nat)
    requires j < |M| && |J| == |M| + 1 && |X| == |M| && JointTick(c, J[j], M[j], X[j], J[j + 1], t0 + j)
    ensures TickAt(c, J, M, X, t0, j)
  {
    hide JointTick;
  }

  lemma JointBegins(c: W.Config, tab: P.Tables, J: seq<Joint>, M: seq<Sys>, X: seq<Input>, t0: nat)
    requires |J| == |M| + 1 && |X| == |M| && ProgramBegins(c, tab, J[0])
    ensures JointSoFar(c, tab, J, M, X, t0, 0, Quiet) && c.rows == tab.comms
  {
    hide Recorded, Coupled, Matching, JointTick, Begins;
    BeginRecorded(c, J[0]);
  }

  lemma {:induction false} RunIsJoint(c: W.Config, tab: P.Tables, J: seq<Joint>, M: seq<Sys>, S: seq<seq<F.Step>>, roots: seq<real>,
                                      t0: nat, n: nat)
    returns (ph: Phase)
    requires IsProgramRun(c, tab, J, M, S, roots, t0) && ProgramBegins(c, tab, J[0]) && n <= |M|
    ensures JointSoFar(c, tab, J, M, InputsOf(c, tab, J, S, roots), t0, n, ph)
    decreases n
  {
    hide *;
    var X, k := InputsOf(c, tab, J, S, roots), if n == 0 then 0 else n - 1;
    RunTickIs(c, tab, J, M, S, roots, t0, k);
    JointBegins(c, tab, J, M, X, t0);
    if n == 0 {
      ph := Quiet;
    } else {
      var before := RunIsJoint(c, tab, J, M, S, roots, t0, k);
      JointParts(c, tab, J, M, X, t0, k, before);
      ph := NextJoint(c, tab, History(c, J, X, k), J[k], M[k], S[k], roots[k], J[n], before, t0 + k);
      JointGoesOn(c, tab, J, M, X, t0, k, before, ph);
    }
  }

  // One more tick.
  lemma NextJoint(c: W.Config, tab: P.Tables, evs: seq<W.Event>, j: Joint, m: Sys, steps: seq<F.Step>, root: real, v: Joint,
                  before: Phase, t: nat)
    returns (ph: Phase)
    requires ProgramTick(c, tab, j, m, steps, root, v, t) && c.rows == tab.comms
    requires Recorded(c, evs, j) && Coupled(j.world, before) && Matching(c, tab, j.world.sched)
    ensures JointTick(c, j, m, InputOf(c, tab, j, steps, root), v, t)
    ensures Recorded(c, evs + TickEvents(c, j, InputOf(c, tab, j, steps, root)), v) && Coupled(v.world, ph)
    ensures Matching(c, tab, v.world.sched)
  {
    hide *;
    var x := InputOf(c, tab, j, steps, root);
    ProgramIsJoint(c, tab, evs, j, m, steps, root, v, t);
    InputSteps(c, tab, j, m, steps, root, v, t);
    TickMoves(c, evs, j, m, x, v, before, t);
    RecordedSound(c, evs, j);
    TickKeepsJobs(c, tab, j, m, x, v, before, t);
    ph := StaysCoupled(c, j, m, x, v, before, t);
  }

  lemma RecordedSound(c: W.Config, evs: seq<W.Event>, j: Joint)
    requires Recorded(c, evs, j)
    ensures F.Sound(j.world.sched)
  {
    hide W.Run, W.WiresAt, Inv, F.FlightOf;
  }

  // A run of the program is a joint run.
  lemma ProgramRunIsJoint(c: W.Config, tab: P.Tables, J: seq<Joint>, M: seq<Sys>, S: seq<seq<F.Step>>, roots: seq<real>, t0: nat)
    requires IsProgramRun(c, tab, J, M, S, roots, t0) && ProgramBegins(c, tab, J[0])
    ensures IsJointRun(c, J, M, InputsOf(c, tab, J, S, roots), t0) && Begins(c, J[0])
  {
    hide Recorded, Coupled, JointTick, Matching, Begins, IsProgramRun, InputsOf, TickAt, History;
    RunTickIs(c, tab, J, M, S, roots, t0, 0);
    var X := InputsOf(c, tab, J, S, roots);
    var ph := RunIsJoint(c, tab, J, M, S, roots, t0, |M|);
    forall j | 0 <= j < |M| ensures JointTick(c, J[j], M[j], X[j], J[j + 1], t0 + j) {
      assert TickAt(c, J, M, X, t0, j);
      TickIs(c, J, M, X, t0, j);
    }
  }

  lemma TickIs(c: W.Config, J: seq<Joint>, M: seq<Sys>, X: seq<Input>, t0: nat, j: nat)
    requires TickAt(c, J, M, X, t0, j) && j < |M| && |J| == |M| + 1 && |X| == |M|
    ensures JointTick(c, J[j], M[j], X[j], J[j + 1], t0 + j)
  {
    hide JointTick;
  }

  // --- from enqueueing to reading ----------------------------------------------------------

  // The scheduler in tick j after its first k steps.
  function SchedAt(J: seq<Joint>, S: seq<seq<F.Step>>, j: nat, k: nat): Sched
    requires j < |J| && j < |S| && k <= |S[j]|
  {
    F.RunSteps(J[j].world.sched, S[j], k)
  }

  // What waits after step k of tick e is, if it is still there when tick a arms, there with the same job.
  lemma {:induction false} JobsKept(c: W.Config, tab: P.Tables, J: seq<Joint>, M: seq<Sys>, S: seq<seq<F.Step>>, roots: seq<real>,
                                    t0: nat, e: nat, k: nat, a: nat)
    requires IsProgramRun(c, tab, J, M, S, roots, t0) && ProgramBegins(c, tab, J[0])
    requires e <= a < |M| && a < |S| && e < |S| && k <= |S[e]|
    ensures OnlyNew(SchedAt(J, S, e, k), SchedAt(J, S, a, |S[a]|))
    ensures Inv(SchedAt(J, S, e, k)) && Inv(SchedAt(J, S, a, |S[a]|)) && Matching(c, tab, SchedAt(J, S, a, |S[a]|))
    decreases a
  {
    hide *;
    RunTickIs(c, tab, J, M, S, roots, t0, 0);
    StepsInTick(c, tab, J, M, S, roots, t0, a, 0);
    if e == a {
      StepsInTick(c, tab, J, M, S, roots, t0, a, k);
    } else {
      JobsKept(c, tab, J, M, S, roots, t0, e, k, a - 1);
      OneTick(c, tab, J, M, S, roots, t0, a - 1);
      OnlyNewTrans(SchedAt(J, S, e, k), SchedAt(J, S, a - 1, |S[a - 1]|), SchedAt(J, S, a, 0));
      OnlyNewTrans(SchedAt(J, S, e, k), SchedAt(J, S, a, 0), SchedAt(J, S, a, |S[a]|));
    }
  }

  lemma StepsInTick(c: W.Config, tab: P.Tables, J: seq<Joint>, M: seq<Sys>, S: seq<seq<F.Step>>, roots: seq<real>, t0: nat, j: nat, k: nat)
    requires IsProgramRun(c, tab, J, M, S, roots, t0) && ProgramBegins(c, tab, J[0]) && j < |M| && j < |S| && k <= |S[j]|
    ensures OnlyNew(SchedAt(J, S, j, k), SchedAt(J, S, j, |S[j]|))
    ensures Inv(SchedAt(J, S, j, k)) && Inv(SchedAt(J, S, j, |S[j]|)) && Matching(c, tab, SchedAt(J, S, j, |S[j]|))
  {
    hide IsProgramRun, ProgramBegins, OnlyNew, Inv, F.RunSteps, Matching, TickOf, Recorded, Coupled, JointTick, F.StepsOk, ProgramWindows,
         RootRight, InputsOf;
    RunTickIs(c, tab, J, M, S, roots, t0, j);
    var ph := RunIsJoint(c, tab, J, M, S, roots, t0, j);
    RecordedSound(c, History(c, J, InputsOf(c, tab, J, S, roots), j), J[j]);
    F.RunSound(c, J[j].world.sched, S[j], k);
    F.RunSound(c, J[j].world.sched, S[j], |S[j]|);
    StepsKeepJobs(c, tab, J[j].world.sched, S[j], k, |S[j]|);
  }

  lemma OneTick(c: W.Config, tab: P.Tables, J: seq<Joint>, M: seq<Sys>, S: seq<seq<F.Step>>, roots: seq<real>, t0: nat, j: nat)
    requires IsProgramRun(c, tab, J, M, S, roots, t0) && ProgramBegins(c, tab, J[0]) && j + 1 < |M| && j + 1 < |S|
    ensures OnlyNew(SchedAt(J, S, j, |S[j]|), SchedAt(J, S, j + 1, 0))
  {
    hide IsProgramRun, ProgramBegins, OnlyNew, Inv, Matching, Recorded, Coupled, JointTick, ProgramTick, InputsOf, OwnNow, History,
         TickEvents, F.RunSteps, Stepped, AllChecked;
    RunTickIs(c, tab, J, M, S, roots, t0, j);
    var ph := RunIsJoint(c, tab, J, M, S, roots, t0, j + 1);
    ph := RunIsJoint(c, tab, J, M, S, roots, t0, j);
    var X := InputsOf(c, tab, J, S, roots);
    InputSteps(c, tab, J[j], M[j], S[j], roots[j], J[j + 1], t0 + j);
    RecordedSound(c, History(c, J, X, j), J[j]);
    assert TickAt(c, J, M, X, t0, j);
    NoSteps(J[j + 1].world.sched, S[j + 1]);
    TickKeepsJobs(c, tab, J[j], M[j], X[j], J[j + 1], ph, t0 + j);
  }

  // Step k of tick e enqueues the command and finds a slot free; its task gets the identifier taskId.
  predicate EnqueuedAt(J: seq<Joint>, S: seq<seq<F.Step>>, e: nat, k: nat, op: Op, n: nat, taskId: nat) {
    && e < |J| && e < |S| && k < |S[e]| && op.EnqueueCommand? && NodeOf(op.target) == Some(n) && S[e][k] == F.Do(op)
    && AllocSlot(SchedAt(J, S, e, k).tasks, 0).Some? && taskId == SchedAt(J, S, e, k).nextId
  }

  predicate HasJob(s: Sched, job: Job) { exists h | 0 <= h < |s.tasks| :: s.tasks[h].used && JobOf(s.tasks[h]) == job }

  function JobAsked(op: Op, n: nat, taskId: nat): Job
    requires op.EnqueueCommand?
  {
    Job(taskId, CommandTask, Some(n), op.commandId, op.value, op.hasValue, false)
  }

  lemma AskedIsThere(c: W.Config, tab: P.Tables, J: seq<Joint>, S: seq<seq<F.Step>>, e: nat, k: nat, op: Op, n: nat, taskId: nat)
    requires EnqueuedAt(J, S, e, k, op, n, taskId) && AllChecked(c, tab, S[e]) && MatchesNode(c, tab, n, op.commandId)
    ensures HasJob(SchedAt(J, S, e, k + 1), JobAsked(op, n, taskId))
  {
    var s := SchedAt(J, S, e, k);
    assert Checked(c, tab, S[e][k].op);
    CommandEnqueued(s, op.target, op.commandId, op.value, op.hasValue, op.queue, op.matches);
    var r := SchedAt(J, S, e, k + 1);
    assert r == Apply(s, op);
    hide Apply, F.RunSteps, AllocSlot, MatchesNode;
    assert r.tasks[AllocSlot(s.tasks, 0).value].used;
  }

  // The task in flight has this identifier.
  predicate InFlightWith(s: Sched, taskId: nat) {
    s.active.Some? && s.active.value < |s.tasks| && s.tasks[s.active.value].used && s.tasks[s.active.value].id == taskId
  }

  // The task that goes into flight is the one popped.
  lemma ArmedIsPopped(s: Sched, result: Option<Result>, taskId: nat)
    requires Inv(s) && s.active == None && InFlightWith(MarkArmed(ExchangeControl(s, result)), taskId)
    ensures TaskToArm(s).Some? && TaskToArm(s).value.used && TaskToArm(s).value.id == taskId
    ensures exists h | 0 <= h < |s.tasks| :: TaskToArm(s).value == s.tasks[h]
  {
    TaskArmed(s, result);
    hide ExchangeControl, MarkArmed, Inv, TakeFront;
  }

  // The same identifier is the same task, with the same job.
  lemma PoppedHasJob(s: Sched, r: Sched, job: Job)
    requires Inv(s) && OnlyNew(s, r) && HasJob(s, job) && TaskToArm(r).Some? && TaskToArm(r).value.used && TaskToArm(r).value.id == job.id
    requires exists h | 0 <= h < |r.tasks| :: TaskToArm(r).value == r.tasks[h]
    ensures JobOf(TaskToArm(r).value) == job
  {
    var h :| 0 <= h < |s.tasks| && s.tasks[h].used && JobOf(s.tasks[h]) == job;
    var k :| 0 <= k < |r.tasks| && TaskToArm(r).value == r.tasks[k];
    SameIdSameJob(s, r, h, k);
    hide TaskToArm, Inv, OnlyNew;
  }

  // What a task with this job writes is the pattern of its value, or of 1 if it has none.
  lemma OwnOfJob(c: W.Config, tab: P.Tables, m: Memory, task: Task, n: nat, i: nat, op: Op, taskId: nat, root: real)
    requires op.EnqueueCommand? && JobOf(task) == JobAsked(op, n, taskId) && W.ConfigOk(c) && |m.cmd| == c.cmdBlocks
    requires D.CommandOf(c, n, tab, op.commandId, ValueOf(op), root, i) && op.commandId != 0
    ensures OwnWrite(m, tab, task, root) == Some(W.Own(i, P.Pattern(tab.CommRow(op.commandId), ValueOf(op), root)))
  {
    W.FieldFits(c, n, i);
    hide C.Accepts, C.RootOk, P.Pattern, W.ConfigOk;
  }

  // The value a command is enqueued with: 1 unless one is given.
  function ValueOf(op: Op): real
    requires op.EnqueueCommand?
  {
    if op.hasValue then op.value else 1.0
  }

  lemma ArmingTick(c: W.Config, j: Joint, m: Sys, x: Input, v: Joint, ph: Phase, t: nat, n: nat, taskId: nat)
    requires D.ArmsCommand(c, j, m, x, v, t, n) && Coupled(j.world, ph) && InFlightWith(v.world.sched, taskId)
    ensures !Cs(j.world.sys).ctl.busy && Inv(AfterSteps(j, x)) && AfterSteps(j, x).active == None
    ensures var s := AfterSteps(j, x);
      && TaskToArm(s).Some? && TaskToArm(s).value.used && TaskToArm(s).value.id == taskId
      && exists h | 0 <= h < |s.tasks| :: TaskToArm(s).value == s.tasks[h]
  {
    D.ArmsFromQuiet(c, j, m, x, v, ph, t, n);
    ResultWaits(c, j, m, x, v, ph, t);
    StepsAreOps(j.world.sched, x.steps, |x.steps|);
    AfterOpsOk(j.world, m, Ops(x), v.world, c.rows, c.nodes, t);
    var s := AfterSteps(j, x);
    hide Inv, InPhase, TickOf, App, FreeMaster, WindowsAfter, F.StepsOk, F.OwnOfNode, ExchangeControl, MarkArmed, TaskToArm, F.RunSteps,
         RunOps, ArmedFor, F.FlightOf, InFlightWith, Takes;
    ArmedIsPopped(s, ResultOf(Cs(j.world.sys)), taskId);
  }

  lemma CommandMatches(c: W.Config, tab: P.Tables, n: nat, op: Op, root: real, i: nat)
    requires op.EnqueueCommand? && D.CommandOf(c, n, tab, op.commandId, ValueOf(op), root, i)
    ensures MatchesNode(c, tab, n, op.commandId)
  {
    hide P.Pattern, C.Accepts, C.RootOk;
  }

  lemma StepThere(J: seq<Joint>, S: seq<seq<F.Step>>, e: nat, k: nat, op: Op, n: nat, taskId: nat)
    requires EnqueuedAt(J, S, e, k, op, n, taskId)
    ensures e < |S| && k + 1 <= |S[e]| && op.EnqueueCommand? && JobAsked(op, n, taskId).id == taskId
  {
    hide F.RunSteps, AllocSlot;
  }

  lemma ArmedOwns(c: W.Config, tab: P.Tables, evs: seq<W.Event>, j: Joint, m: Sys, steps: seq<F.Step>, root: real, v: Joint, t: nat,
                  op: Op, taskId: nat, n: nat, i: nat)
    requires ProgramTick(c, tab, j, m, steps, root, v, t) && Recorded(c, evs, j) && !Cs(j.world.sys).ctl.busy
    requires op.EnqueueCommand? && op.commandId != 0 && D.CommandOf(c, n, tab, op.commandId, ValueOf(op), root, i)
    requires var s := F.RunSteps(j.world.sched, steps, |steps|);
      TaskToArm(s).Some? && JobOf(TaskToArm(s).value) == JobAsked(op, n, taskId)
    ensures D.OwnsValue(c, j, InputOf(c, tab, j, steps, root), tab, op.commandId, ValueOf(op), root, i)
  {
    hide Recorded, TickOf, F.StepsOk, AllChecked, ProgramWindows, F.RunSteps, TaskToArm, OwnWrite, P.Pattern, C.Accepts, C.RootOk,
         W.ConfigOk, Stepped, RootRight;
    SteppedShaped(c, evs, j, steps);
    OwnOfJob(c, tab, E.Rewritten(Cs(j.world.sys), Stepped(c, j, steps)).mem, TaskToArm(F.RunSteps(j.world.sched, steps, |steps|)).value,
             n, i, op, taskId, root);
  }

  // The command of the armed task is the one it was enqueued with.
  lemma ArmedWritesIt(c: W.Config, tab: P.Tables, J: seq<Joint>, M: seq<Sys>, S: seq<seq<F.Step>>, roots: seq<real>, t0: nat,
                      e: nat, k: nat, op: Op, taskId: nat, a: nat, n: nat, i: nat)
    requires IsProgramRun(c, tab, J, M, S, roots, t0) && ProgramBegins(c, tab, J[0]) && EnqueuedAt(J, S, e, k, op, n, taskId)
    requires e <= a < |M| && a < |S| && D.ArmsCommand(c, J[a], M[a], InputsOf(c, tab, J, S, roots)[a], J[a + 1], t0 + a, n)
    requires InFlightWith(J[a + 1].world.sched, taskId) && op.commandId != 0
    requires D.CommandOf(c, n, tab, op.commandId, ValueOf(op), roots[a], i)
    ensures |InputsOf(c, tab, J, S, roots)| == |M|
    ensures D.OwnsValue(c, J[a], InputsOf(c, tab, J, S, roots)[a], tab, op.commandId, ValueOf(op), roots[a], i)
  {
    hide IsProgramRun, ProgramBegins, ProgramTick, D.ArmsCommand, InFlightWith, D.CommandOf, InputsOf, History, Recorded, Coupled, Inv,
         OnlyNew, HasJob, TaskToArm, F.RunSteps, OwnWrite, P.Pattern, C.Accepts, Matching, Stepped, EnqueuedAt, JobAsked, JobMatches,
         W.ConfigOk, MatchesNode, AllChecked, JointTick;
    var X := InputsOf(c, tab, J, S, roots);
    RunTickIs(c, tab, J, M, S, roots, t0, e);
    RunTickIs(c, tab, J, M, S, roots, t0, a);
    InputSteps(c, tab, J[e], M[e], S[e], roots[e], J[e + 1], t0 + e);
    var ph := RunIsJoint(c, tab, J, M, S, roots, t0, a);
    ArmingTick(c, J[a], M[a], X[a], J[a + 1], ph, t0 + a, n, taskId);
    StepThere(J, S, e, k, op, n, taskId);
    CommandMatches(c, tab, n, op, roots[a], i);
    AskedIsThere(c, tab, J, S, e, k, op, n, taskId);
    JobsKept(c, tab, J, M, S, roots, t0, e, k + 1, a);
    PoppedHasJob(SchedAt(J, S, e, k + 1), SchedAt(J, S, a, |S[a]|), JobAsked(op, n, taskId));
    ArmedOwns(c, tab, History(c, J, X, a), J[a], M[a], S[a], roots[a], J[a + 1], t0 + a, op, taskId, n, i);
  }

  // From enqueueing to reading: in every run of the program from reset, whatever else is enqueued, cancelled,
  // staged and answered on the way, the exchange that is armed for the task of an enqueued command makes the
  // device read the quantised value that the command was enqueued with, unless a cancellation empties its
  // block before its last byte is sent.
  lemma EnqueuedIsRead(c: W.Config, tab: P.Tables, J: seq<Joint>, M: seq<Sys>, S: seq<seq<F.Step>>, roots: seq<real>, t0: nat,
                       e: nat, k: nat, op: Op, taskId: nat, a: nat, n: nat, d: nat, i: nat)
    requires IsProgramRun(c, tab, J, M, S, roots, t0) && ProgramBegins(c, tab, J[0]) && EnqueuedAt(J, S, e, k, op, n, taskId)
    requires e <= a < |M| && a < |S| && D.Delivers(c, J, M, InputsOf(c, tab, J, S, roots), t0, a, n, d)
    requires InFlightWith(J[a + 1].world.sched, taskId) && op.commandId != 0
    requires D.CommandOf(c, n, tab, op.commandId, ValueOf(op), roots[a], i)
    requires D.Untouched(c, InputsOf(c, tab, J, S, roots), a, tab.CommRow(op.commandId).DeviceField())
    ensures Reads(PartyAt(D.SysOf(J), a + 5 + 2 * c.nodes[n].comBlocks, d), tab, op.commandId, ValueOf(op), roots[a])
  {
    hide *;
    var X := InputsOf(c, tab, J, S, roots);
    RunTickIs(c, tab, J, M, S, roots, t0, a);
    StepThere(J, S, e, k, op, n, taskId);
    D.DeliversParts(c, J, M, X, t0, a, n, d);
    ProgramRunIsJoint(c, tab, J, M, S, roots, t0);
    ArmedWritesIt(c, tab, J, M, S, roots, t0, e, k, op, taskId, a, n, i);
    D.SetValueIsRead(c, J, M, X, t0, a, n, d, i, tab, op.commandId, ValueOf(op), roots[a]);
  }
}
