// Bus, scheduler and command windows in one run: the windows follow the events of the whole history.
module JointRun {
  import opened Wire
  import opened CommTable
  import opened BusExchange
  import opened Lockstep
  import opened ClosedSystem
  import opened Transactions
  import opened Scheduler
  import opened SchedulerInvariant
  import opened Liveness
  import opened CommandPath
  import F = FlightEvents
  import R = Reclassing
  import W = CommandWindows

  // --- one tick of everything --------------------------------------------------------------

  // pending holds the commands not yet delivered, per node.
  datatype Joint = Joint(world: World, pending: seq<seq<word>>)

  // What the software does in a tick before control: operations on the task table and writes to the
  // command area. own is the command that the task armed in this tick, if any, writes itself.
  datatype Input = Input(steps: seq<F.Step>, own: Option<W.Own>)

  function WiresOf(p: Party, pending: seq<seq<word>>): W.Wires { W.Wires(p.mem.cmd, p.mem.cmdBuf, pending) }

  function OpsOf(steps: seq<F.Step>, n: nat): seq<Op>
    requires n <= |steps|
  {
    if n == 0 then [] else if steps[n - 1].Do? then OpsOf(steps, n - 1) + [steps[n - 1].op] else OpsOf(steps, n - 1)
  }

  function Ops(x: Input): seq<Op> { OpsOf(x.steps, |x.steps|) }

  predicate NoTurn(steps: seq<F.Step>) { forall k | 0 <= k < |steps| :: !steps[k].Turn? }

  ghost function EventOf(s: Sched, st: F.Step): Option<W.Event> { if Inv(s) then F.StepEvent(s, st) else None }

  // The windows after one event that they allow.
  ghost function Moved(c: W.Config, w: W.Wires, f: W.Flight, e: Option<W.Event>): W.Wires {
    if e.Some? && W.ConfigOk(c) && W.Shaped(c, w) && W.FlightOk(c, f) && W.EventFits(c, e.value) && W.Enabled(f, e.value)
    then W.NextWires(c, w, f, e.value) else w
  }

  ghost function WiresAfter(c: W.Config, w: W.Wires, s: Sched, steps: seq<F.Step>, n: nat): W.Wires
    requires n <= |steps|
  {
    if n == 0 then w
    else
      var r := F.RunSteps(s, steps, n - 1);
      Moved(c, WiresAfter(c, w, s, steps, n - 1), F.FlightOf(r), EventOf(r, steps[n - 1]))
  }

  function AfterSteps(j: Joint, x: Input): Sched { F.RunSteps(j.world.sched, x.steps, |x.steps|) }

  function TurnOf(j: Joint, x: Input): F.Step
    requires |j.world.sys.parties| >= 1
  {
    F.Turn(ResultOf(Cs(j.world.sys)), x.own)
  }

  // The windows once the software of the tick is done, control and arming included if the bus is free.
  ghost function WindowsAfter(c: W.Config, j: Joint, x: Input): W.Wires
    requires |j.world.sys.parties| >= 1
  {
    var p := Cs(j.world.sys);
    var w := WiresAfter(c, WiresOf(p, j.pending), j.world.sched, x.steps, |x.steps|);
    if p.ctl.busy then w else Moved(c, w, F.FlightOf(AfterSteps(j, x)), EventOf(AfterSteps(j, x), TurnOf(j, x)))
  }

  ghost predicate InputOk(c: W.Config, j: Joint, x: Input) {
    && NoTurn(x.steps) && F.StepsOk(c, j.world.sched, x.steps)
    && (Inv(AfterSteps(j, x)) ==> F.OwnOfNode(c, AfterSteps(j, x), x.own))
  }

  // One tick: scheduler and bus move as for liveness, and the command arrays that the exchange machine
  // then finds are those the windows operations leave.
  ghost predicate JointTick(c: W.Config, j: Joint, m: Sys, x: Input, v: Joint, t: nat) {
    && InputOk(c, j, x) && TickOf(j.world, m, Ops(x), v.world, c.rows, c.nodes, t)
    && |j.world.sys.parties| >= 1 && |m.parties| >= 1
    && WiresOf(Cs(m), v.pending) == WindowsAfter(c, j, x)
  }

  // --- steps and operations ----------------------------------------------------------------

  lemma {:induction false} StepsAreOps(s: Sched, steps: seq<F.Step>, n: nat)
    requires n <= |steps| && NoTurn(steps)
    ensures F.RunSteps(s, steps, n) == RunOps(s, OpsOf(steps, n), |OpsOf(steps, n)|)
  {
    hide Apply;
    if n > 0 {
      StepsAreOps(s, steps, n - 1);
      if steps[n - 1].Do? {
        R.RunPrefix(s, OpsOf(steps, n - 1), [steps[n - 1].op], |OpsOf(steps, n - 1)|);
      }
    }
  }

  // --- the windows follow the events -------------------------------------------------------

  lemma StepMoves(c: W.Config, evs: seq<W.Event>, s: Sched, st: F.Step)
    requires F.Follows(c, evs, s) && F.StepOk(s, st) && F.StepFits(c, s, st) && |c.nodes| == NODE_COUNT
    ensures F.Follows(c, evs + F.OneOrNone(EventOf(s, st)), F.StepSched(s, st))
    ensures var more := evs + F.OneOrNone(EventOf(s, st));
      W.WiresAt(c, more, |more|) == Moved(c, W.WiresAt(c, evs, |evs|), F.FlightOf(s), EventOf(s, st))
  {
    hide Inv, F.StepEvent, F.StepSched, F.StepFits, F.StepOk, W.NextWires, F.FlightOf, W.EventFits, W.Enabled, W.WiresAt, W.Run;
    F.StepFollows(c, evs, s, st);
    var e := F.EventSound(s, st);
    F.EventFitsConfig(c, s, st);
    if e.Some? {
      OneMoreEvent(c, evs, e.value);
    } else {
      assert evs + [] == evs;
    }
  }

  lemma OneMoreEvent(c: W.Config, evs: seq<W.Event>, e: W.Event)
    requires W.Run(c, evs) && W.Run(c, evs + [e]) && W.EventFits(c, e) && W.Enabled(W.FlightAt(evs, |evs|), e)
    ensures W.WiresAt(c, evs + [e], |evs| + 1) == Moved(c, W.WiresAt(c, evs, |evs|), W.FlightAt(evs, |evs|), Some(e))
  {
    W.WiresAtPrefix(c, evs, [e], |evs|);
    W.FlightAtPrefix(evs, [e], |evs|);
    W.FlightStaysOk(c, evs, |evs|);
    assert W.EventOk(c, evs + [e], |evs|);
    hide W.NextWires, W.EventFits, W.Enabled;
  }

  lemma {:induction false} StepsMove(c: W.Config, evs: seq<W.Event>, s: Sched, steps: seq<F.Step>, n: nat)
    requires F.Follows(c, evs, s) && F.StepsOk(c, s, steps) && n <= |steps| && |c.nodes| == NODE_COUNT
    ensures F.Follows(c, evs + F.Events(c, s, steps, n), F.RunSteps(s, steps, n))
    ensures var more := evs + F.Events(c, s, steps, n);
      W.WiresAt(c, more, |more|) == WiresAfter(c, W.WiresAt(c, evs, |evs|), s, steps, n)
  {
    hide Inv, F.StepEvent, F.StepSched, F.StepFits, F.StepOk, Moved, F.FlightOf, W.Run, W.WiresAt, F.OneOrNone;
    if n > 0 {
      StepsMove(c, evs, s, steps, n - 1);
      F.RunSound(c, s, steps, n - 1);
      assert F.StepOkAt(c, s, steps, n - 1);
      var r, done := F.RunSteps(s, steps, n - 1), F.Events(c, s, steps, n - 1);
      StepMoves(c, evs + done, r, steps[n - 1]);
      assert evs + F.Events(c, s, steps, n) == evs + done + F.OneOrNone(EventOf(r, steps[n - 1]));
    } else {
      assert evs + [] == evs;
    }
  }

  // --- ticks -------------------------------------------------------------------------------

  // The events of a tick.
  ghost function TickEvents(c: W.Config, j: Joint, x: Input): seq<W.Event> {
    if F.Sound(j.world.sched) && F.StepsOk(c, j.world.sched, x.steps) && |j.world.sys.parties| >= 1 then
      F.Events(c, j.world.sched, x.steps, |x.steps|)
      + (if Cs(j.world.sys).ctl.busy then [] else F.OneOrNone(EventOf(AfterSteps(j, x), TurnOf(j, x))))
    else []
  }

  // The windows and the scheduler have got as far as the events evs.
  ghost predicate Reached(c: W.Config, evs: seq<W.Event>, s: Sched, w: W.Wires) {
    F.Follows(c, evs, s) && w == W.WiresAt(c, evs, |evs|)
  }

  // The joint state is what the events evs lead to.
  ghost predicate Recorded(c: W.Config, evs: seq<W.Event>, j: Joint) {
    && |j.world.sys.parties| >= 1 && |c.nodes| == NODE_COUNT
    && Reached(c, evs, j.world.sched, WiresOf(Cs(j.world.sys), j.pending))
  }

  // The exchange machine leaves the master's command arrays alone.
  lemma BusKeepsCommands(s: Sys, m: Sys, ph: Phase, rows: seq<Row>, t: nat)
    requires InPhase(s, ph) && App(s, m)
    ensures |m.parties| >= 1
    ensures Cs(Tick(m, rows, t)).mem.cmd == Cs(m).mem.cmd && Cs(Tick(m, rows, t)).mem.cmdBuf == Cs(m).mem.cmdBuf
  {
    hide Tick, InRequest, InTurnaround, InResponse, InWaiting, CalcNBlocks;
    if ph.Quiet? {
      FromQuiet(s, m, rows, t);
      if !Idle(Cs(m)) {
        AtTickTransmits(m, rows, t);
        TransmitKeeps(Cs(m), t);
      }
    } else {
      AppKeepsPhase(s, m, ph);
      match ph {
        case Request(k, n, dst, flag, sent) =>
          RequestBounds(m, k, n, dst, flag, sent);
          if k < FrameLength(n) { FromRequestMiddle(m, rows, t, k, n, dst, flag, sent); }
          else { FromRequestEnd(m, rows, t, n, dst, flag, sent); }
        case Turnaround(d, flag) =>
          FromTurnaround(m, rows, t, d, flag);
        case Response(d, k, n, flag, sent) =>
          ResponseBounds(m, d, k, n, flag, sent);
          if k < FrameLength(n) { FromResponseMiddle(m, rows, t, d, k, n, flag, sent); }
          else { FromResponseEnd(m, rows, t, d, n, flag, sent); }
        case Waiting(w, dst) => FromWaiting(m, rows, t, w, dst);
      }
    }
  }

  // In a tick with the bus free, an exchange that was under way has left a result.
  lemma ResultWaits(c: W.Config, j: Joint, m: Sys, x: Input, v: Joint, ph: Phase, t: nat)
    requires Coupled(j.world, ph) && JointTick(c, j, m, x, v, t) && !Cs(j.world.sys).ctl.busy
    ensures F.StepOk(AfterSteps(j, x), TurnOf(j, x))
    ensures F.StepSched(AfterSteps(j, x), TurnOf(j, x)) == v.world.sched
  {
    hide InPhase, Inv, Tick, App, FreeMaster, WindowsAfter, F.StepsOk, F.OwnOfNode, MarkArmed, ExchangeControl;
    BusyIffNotQuiet(j.world.sys, ph);
    StepsAreOps(j.world.sched, x.steps, |x.steps|);
    AfterOpsOk(j.world, m, Ops(x), v.world, c.rows, c.nodes, t);
  }

  lemma BusyTickSched(c: W.Config, j: Joint, m: Sys, x: Input, v: Joint, t: nat)
    requires JointTick(c, j, m, x, v, t) && Cs(j.world.sys).ctl.busy
    ensures v.world.sched == AfterSteps(j, x)
  {
    StepsAreOps(j.world.sched, x.steps, |x.steps|);
    hide Tick, App, FreeMaster, WindowsAfter, F.StepsOk, F.OwnOfNode, MarkArmed, ExchangeControl;
  }

  // A tick leads on as its events do.
  lemma TickMoves(c: W.Config, evs: seq<W.Event>, j: Joint, m: Sys, x: Input, v: Joint, ph: Phase, t: nat)
    requires Recorded(c, evs, j) && Coupled(j.world, ph) && JointTick(c, j, m, x, v, t)
    ensures Recorded(c, evs + TickEvents(c, j, x), v)
  {
    SoftwareMoves(c, evs, j, m, x, v, ph, t);
    TickKeepsCommands(c, j, m, x, v, ph, t);
    hide JointTick, F.Follows, TickEvents, Coupled, W.WiresAt;
  }

  lemma TickKeepsCommands(c: W.Config, j: Joint, m: Sys, x: Input, v: Joint, ph: Phase, t: nat)
    requires Coupled(j.world, ph) && JointTick(c, j, m, x, v, t)
    ensures |m.parties| >= 1 && |v.world.sys.parties| >= 1
    ensures WiresOf(Cs(v.world.sys), v.pending) == WiresOf(Cs(m), v.pending)
  {
    BusKeepsCommands(j.world.sys, m, ph, c.rows, t);
    hide InPhase, Inv, App, FreeMaster, WindowsAfter, F.StepsOk, F.OwnOfNode, NextSched, Tick;
  }

  lemma SoftwareMoves(c: W.Config, evs: seq<W.Event>, j: Joint, m: Sys, x: Input, v: Joint, ph: Phase, t: nat)
    requires Recorded(c, evs, j) && Coupled(j.world, ph) && JointTick(c, j, m, x, v, t)
    ensures |m.parties| >= 1 && Reached(c, evs + TickEvents(c, j, x), v.world.sched, WiresOf(Cs(m), v.pending))
  {
    if Cs(j.world.sys).ctl.busy { BusySoftware(c, evs, j, m, x, v, t); } else { FreeSoftware(c, evs, j, m, x, v, ph, t); }
    hide *;
  }

  lemma BusySoftware(c: W.Config, evs: seq<W.Event>, j: Joint, m: Sys, x: Input, v: Joint, t: nat)
    requires Recorded(c, evs, j) && JointTick(c, j, m, x, v, t) && Cs(j.world.sys).ctl.busy
    ensures |m.parties| >= 1 && Reached(c, evs + TickEvents(c, j, x), v.world.sched, WiresOf(Cs(m), v.pending))
  {
    hide TickOf, F.OwnOfNode, W.WiresAt, Moved, WiresAfter, W.Run, F.Events, F.RunSteps, F.StepsOk, Inv, F.StepEvent;
    BusyTickSched(c, j, m, x, v, t);
    StepsMove(c, evs, j.world.sched, x.steps, |x.steps|);
    var done := F.Events(c, j.world.sched, x.steps, |x.steps|);
    assert evs + TickEvents(c, j, x) == evs + done;
  }

  lemma FreeSoftware(c: W.Config, evs: seq<W.Event>, j: Joint, m: Sys, x: Input, v: Joint, ph: Phase, t: nat)
    requires Recorded(c, evs, j) && Coupled(j.world, ph) && JointTick(c, j, m, x, v, t) && !Cs(j.world.sys).ctl.busy
    ensures |m.parties| >= 1 && Reached(c, evs + TickEvents(c, j, x), v.world.sched, WiresOf(Cs(m), v.pending))
  {
    hide Coupled, TickOf, F.OwnOfNode, W.WiresAt, Moved, WiresAfter, W.Run, F.Events, F.RunSteps, F.StepsOk, Inv, F.StepEvent,
         F.StepOk, F.StepSched;
    ResultWaits(c, j, m, x, v, ph, t);
    StepsMove(c, evs, j.world.sched, x.steps, |x.steps|);
    var done := F.Events(c, j.world.sched, x.steps, |x.steps|);
    StepMoves(c, evs + done, AfterSteps(j, x), TurnOf(j, x));
    assert evs + TickEvents(c, j, x) == evs + done + F.OneOrNone(EventOf(AfterSteps(j, x), TurnOf(j, x)));
  }

  // --- runs --------------------------------------------------------------------------------

  // J[j] is the joint state before tick t0 + j, M[j] what its software X[j] leaves for the bus.
  ghost predicate IsJointRun(c: W.Config, J: seq<Joint>, M: seq<Sys>, X: seq<Input>, t0: nat) {
    && |J| == |M| + 1 && |X| == |M|
    && forall j | 0 <= j < |M| :: JointTick(c, J[j], M[j], X[j], J[j + 1], t0 + j)
  }

  // All the events of the first n ticks.
  ghost function History(c: W.Config, J: seq<Joint>, X: seq<Input>, n: nat): seq<W.Event>
    requires n <= |X| && n <= |J|
  {
    if n == 0 then [] else History(c, J, X, n - 1) + TickEvents(c, J[n - 1], X[n - 1])
  }

  // Reset: nothing queued, nothing in flight, all command arrays empty.
  ghost predicate Begins(c: W.Config, j: Joint) {
    && W.ConfigOk(c) && |c.nodes| == NODE_COUNT && Coupled(j.world, Quiet) && j.world.sched.active == None
    && |j.world.sys.parties| >= 1 && WiresOf(Cs(j.world.sys), j.pending) == W.Empty(c)
  }

  lemma BeginRecorded(c: W.Config, j: Joint)
    requires Begins(c, j)
    ensures Recorded(c, [], j) && Coupled(j.world, Quiet)
  {
    F.NoEvents(c, j.world.sched);
    hide Inv, InPhase, W.ConfigOk, W.Empty;
  }

  // From any such state on, the windows stay what the events make them, and scheduler and bus coupled.
  lemma {:induction false} HistoryGoesOn(c: W.Config, evs: seq<W.Event>, J: seq<Joint>, M: seq<Sys>, X: seq<Input>, t0: nat,
                                         start: Phase, n: nat)
    returns (ph: Phase)
    requires IsJointRun(c, J, M, X, t0) && Recorded(c, evs, J[0]) && Coupled(J[0].world, start) && n <= |M|
    ensures Recorded(c, evs + History(c, J, X, n), J[n]) && Coupled(J[n].world, ph)
    decreases n
  {
    hide Recorded, Coupled, JointTick, TickEvents;
    if n == 0 {
      ph := start;
      assert evs + [] == evs;
    } else {
      var before := HistoryGoesOn(c, evs, J, M, X, t0, start, n - 1);
      var so := evs + History(c, J, X, n - 1);
      assert JointTick(c, J[n - 1], M[n - 1], X[n - 1], J[n - 1 + 1], t0 + (n - 1));
      TickMoves(c, so, J[n - 1], M[n - 1], X[n - 1], J[n], before, t0 + (n - 1));
      assert evs + History(c, J, X, n) == so + TickEvents(c, J[n - 1], X[n - 1]);
      ph := StaysCoupled(c, J[n - 1], M[n - 1], X[n - 1], J[n], before, t0 + (n - 1));
    }
  }

  // In every reachable joint state the windows are what the events so far make them, and scheduler and
  // bus are coupled.
  lemma HistoryLeads(c: W.Config, J: seq<Joint>, M: seq<Sys>, X: seq<Input>, t0: nat, n: nat) returns (ph: Phase)
    requires IsJointRun(c, J, M, X, t0) && Begins(c, J[0]) && n <= |M|
    ensures Recorded(c, History(c, J, X, n), J[n]) && Coupled(J[n].world, ph)
  {
    hide *;
    RunSizes(c, J, M, X, t0);
    BeginRecorded(c, J[0]);
    ph := HistoryGoesOn(c, [], J, M, X, t0, Quiet, n);
    assert [] + History(c, J, X, n) == History(c, J, X, n);
  }

  lemma RunSizes(c: W.Config, J: seq<Joint>, M: seq<Sys>, X: seq<Input>, t0: nat)
    requires IsJointRun(c, J, M, X, t0)
    ensures |J| == |M| + 1 && |X| == |M|
  {
    hide JointTick;
  }

  lemma StaysCoupled(c: W.Config, j: Joint, m: Sys, x: Input, v: Joint, before: Phase, t: nat) returns (ph: Phase)
    requires Coupled(j.world, before) && JointTick(c, j, m, x, v, t)
    ensures Coupled(v.world, ph)
  {
    TickKeeps(j.world, m, Ops(x), v.world, before, c.rows, c.nodes, t);
    ph := NextPhase(before, m);
    hide *;
  }
}
