// Bus, scheduler and command windows never block: every admissible input has a tick.
module JointProgress {
  import opened Wire
  import opened CommTable
  import opened BusExchange
  import opened ClosedSystem
  import opened Scheduler
  import opened SchedulerInvariant
  import opened FlightKept
  import opened CsExchange
  import opened Liveness
  import opened JointRun
  import F = FlightEvents
  import W = CommandWindows

  // --- the windows keep their sizes --------------------------------------------------------

  lemma MovedShaped(c: W.Config, w: W.Wires, f: W.Flight, e: Option<W.Event>)
    requires W.Shaped(c, w)
    ensures W.Shaped(c, Moved(c, w, f, e))
  {
    hide W.ConfigOk, W.Enabled, W.EventFits;
  }

  lemma {:induction false} WindowsShaped(c: W.Config, w: W.Wires, s: Sched, steps: seq<F.Step>, n: nat)
    requires W.Shaped(c, w) && n <= |steps|
    ensures W.Shaped(c, WiresAfter(c, w, s, steps, n))
  {
    hide W.Shaped, Moved, EventOf;
    if n > 0 {
      WindowsShaped(c, w, s, steps, n - 1);
      var r := F.RunSteps(s, steps, n - 1);
      MovedShaped(c, WiresAfter(c, w, s, steps, n - 1), F.FlightOf(r), EventOf(r, steps[n - 1]));
    }
  }

  lemma SoftwareShaped(c: W.Config, j: Joint, x: Input)
    requires |j.world.sys.parties| >= 1 && W.Shaped(c, WiresOf(Cs(j.world.sys), j.pending))
    ensures W.Shaped(c, WindowsAfter(c, j, x))
  {
    hide W.Shaped, Moved, EventOf, WiresAfter, F.FlightOf;
    var w := WiresOf(Cs(j.world.sys), j.pending);
    WindowsShaped(c, w, j.world.sched, x.steps, |x.steps|);
    MovedShaped(c, WiresAfter(c, w, j.world.sched, x.steps, |x.steps|), F.FlightOf(AfterSteps(j, x)),
                EventOf(AfterSteps(j, x), TurnOf(j, x)));
  }

  // --- the master after the software of a tick ---------------------------------------------

  function Rewritten(p: Party, w: W.Wires): Party { p.(mem := p.mem.(cmd := w.cmd, cmdBuf := w.buf)) }

  // The master's control state when the bus is free.
  function FreeControl(p: Party, before: Sched, after: Sched, rows: seq<Row>, nodes: seq<W.Node>): Party {
    if Arming(after) then
      var t := after.tasks[after.active.value];
      if t.node.Some? && t.node.value < |nodes|
      then ArmParty(p, [], rows, nodes[t.node.value], t.node.value, t.kind, p.mem.cmd) else p
    else if Takes(before) then p.(ctl := ClearResult(p.ctl)) else p
  }

  ghost predicate Served(p: Party, nodes: seq<W.Node>) { forall k | 0 <= k < |nodes| :: NodeServed(p, nodes[k]) }

  predicate SizesFit(p: Party, w: W.Wires) { |w.cmd| == |p.mem.cmd| && |w.buf| == |p.mem.cmdBuf| }

  lemma RewrittenArmed(p: Party, q: Party, w: W.Wires, n: W.Node, kind: TaskKind)
    requires ArmedFor(q, n, kind) && MasterApp(p, q) && SizesFit(p, w) && !p.ctl.busy
    ensures ArmedFor(Rewritten(q, w), n, kind) && MasterApp(p, Rewritten(q, w))
  {
  }

  lemma FreeControlFits(p: Party, w: W.Wires, before: Sched, after: Sched, rows: seq<Row>, nodes: seq<W.Node>)
    requires Idle(p) && Served(p, nodes) && SizesFit(p, w)
    requires Arming(after) ==> after.tasks[after.active.value].node.value < |nodes|
    ensures var r := Rewritten(FreeControl(p, before, after, rows, nodes), w);
      FreeMaster(p, r, before, after, nodes) && MasterApp(p, r)
  {
    hide ArmParty, ArmedFor, NodeServed, Armed;
    if Arming(after) {
      var t := after.tasks[after.active.value];
      var n := nodes[t.node.value];
      ArmPartyIsArmedFor(p, [], rows, n, t.node.value, t.kind, p.mem.cmd);
      RewrittenArmed(p, ArmParty(p, [], rows, n, t.node.value, t.kind, p.mem.cmd), w, n, t.kind);
      hide MasterApp;
    }
  }

  lemma ArmingNode(s: Sched, result: Option<Result>)
    requires Inv(s) && Arming(ExchangeControl(s, result))
    ensures var r := ExchangeControl(s, result); r.tasks[r.active.value].node.value < NODE_COUNT
  {
    ControlKeeps(s, result);
    var r := ExchangeControl(s, result);
    assert SlotOk(r, r.active.value);
    hide ExchangeControl;
  }

  function MasterAfter(c: W.Config, j: Joint, x: Input, w: W.Wires): Party
    requires |j.world.sys.parties| >= 1
  {
    var p := Cs(j.world.sys);
    if p.ctl.busy then Rewritten(p, w)
    else Rewritten(FreeControl(p, AfterOps(j.world, Ops(x)), Controlled(j.world, Ops(x)), c.rows, c.nodes), w)
  }

  function WithMaster(s: Sys, p: Party): Sys
    requires |s.parties| >= 1
  {
    s.(parties := [p] + s.parties[1..])
  }

  lemma SoftwareIsApp(s: Sys, p: Party)
    requires |s.parties| >= 1 && MasterApp(Cs(s), p)
    ensures App(s, WithMaster(s, p)) && Cs(WithMaster(s, p)) == p
  {
  }

  lemma MasterFits(c: W.Config, j: Joint, x: Input, ph: Phase, w: W.Wires)
    requires Coupled(j.world, ph) && |j.world.sys.parties| >= 1 && |c.nodes| == NODE_COUNT && AllOutside(Ops(x))
    requires Served(Cs(j.world.sys), c.nodes) && SizesFit(Cs(j.world.sys), w)
    ensures var p, r := Cs(j.world.sys), MasterAfter(c, j, x, w);
      && MasterApp(p, r) && r.mem.cmd == w.cmd && r.mem.cmdBuf == w.buf
      && (!p.ctl.busy ==> FreeMaster(p, r, AfterOps(j.world, Ops(x)), Controlled(j.world, Ops(x)), c.nodes))
  {
    BusyIffNotQuiet(j.world.sys, ph);
    var p, s := Cs(j.world.sys), j.world.sched;
    if !p.ctl.busy {
      InvariantKept(s, Ops(x), |Ops(x)|);
      var before, after := AfterOps(j.world, Ops(x)), Controlled(j.world, Ops(x));
      if Arming(after) { ArmingNode(before, ResultOf(p)); }
      hide Inv, RunOps, ExchangeControl, Arming, Served, FreeMaster, MasterApp, FreeControl, Ops;
      FreeControlFits(p, w, before, after, c.rows, c.nodes);
    }
  }

  lemma {:induction false} OpsOutside(c: W.Config, s: Sched, steps: seq<F.Step>, n: nat)
    requires F.StepsOk(c, s, steps) && n <= |steps|
    ensures AllOutside(OpsOf(steps, n))
  {
    hide F.StepFits, Inv;
    if n > 0 {
      OpsOutside(c, s, steps, n - 1);
      assert F.StepOkAt(c, s, steps, n - 1);
    }
  }

  lemma RecordedShaped(c: W.Config, evs: seq<W.Event>, j: Joint)
    requires Recorded(c, evs, j)
    ensures |j.world.sys.parties| >= 1 && |c.nodes| == NODE_COUNT && W.Shaped(c, WiresOf(Cs(j.world.sys), j.pending))
  {
    hide W.WiresAt;
  }

  lemma SameShape(c: W.Config, p: Party, pending: seq<seq<word>>, w: W.Wires)
    requires W.Shaped(c, WiresOf(p, pending)) && W.Shaped(c, w)
    ensures SizesFit(p, w)
  {
  }

  // Whatever the software does in a tick, the tick exists.
  lemma TickExists(c: W.Config, evs: seq<W.Event>, j: Joint, x: Input, ph: Phase, t: nat) returns (m: Sys, v: Joint)
    requires Recorded(c, evs, j) && Coupled(j.world, ph) && InputOk(c, j, x) && Served(Cs(j.world.sys), c.nodes)
    ensures JointTick(c, j, m, x, v, t)
  {
    hide W.Run, W.WiresAt, W.Shaped, WindowsAfter, F.StepsOk, F.OwnOfNode, Coupled, Served, MasterApp, FreeMaster, App, Tick, MasterAfter,
         NextSched, WithMaster, Recorded, SizesFit;
    var s := j.world.sys;
    RecordedShaped(c, evs, j);
    SoftwareShaped(c, j, x);
    OpsOutside(c, j.world.sched, x.steps, |x.steps|);
    var w := WindowsAfter(c, j, x);
    SameShape(c, Cs(s), j.pending, w);
    MasterFits(c, j, x, ph, w);
    var p := MasterAfter(c, j, x, w);
    SoftwareIsApp(s, p);
    m := WithMaster(s, p);
    v := Joint(World(Tick(m, c.rows, t), NextSched(j.world, Ops(x))), w.pending);
  }
}
