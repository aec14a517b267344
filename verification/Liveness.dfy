// Liveness of the closed system: every queued task is armed within a bounded number of ticks.
module Liveness {
  import opened Wire
  import opened CommTable
  import opened BusExchange
  import opened Lockstep
  import opened ClosedSystem
  import opened Transactions
  import opened Scheduler
  import opened SchedulerInvariant
  import opened FlightKept
  import opened CommandWindows
  import opened CsExchange

  // --- one tick of the whole system --------------------------------------------------------

  datatype World = World(sys: Sys, sched: Sched)

  // The result the scheduler can take from the bus.
  function ResultOf(p: Party): Option<Result> {
    if p.ctl.resultReady then Some(p.ctl.lastResult) else None
  }

  // The scheduler after the operations of a tick and, if the bus is free, control and arming.
  function AfterOps(w: World, ops: seq<Op>): Sched { RunOps(w.sched, ops, |ops|) }

  function Controlled(w: World, ops: seq<Op>): Sched
    requires |w.sys.parties| >= 1
  {
    ExchangeControl(AfterOps(w, ops), ResultOf(Cs(w.sys)))
  }

  function NextSched(w: World, ops: seq<Op>): Sched
    requires |w.sys.parties| >= 1
  {
    if Cs(w.sys).ctl.busy then AfterOps(w, ops) else MarkArmed(Controlled(w, ops))
  }

  predicate Arming(s: Sched) { s.active.Some? && s.active.value < |s.tasks| && CanArm(s.tasks[s.active.value]) }

  // r is armed for a request to node n of this kind.
  predicate ArmedFor(r: Party, n: Node, kind: TaskKind) {
    && Armed(r) && r.targetAddr == n.busAddr && r.ctl.flag == FlagOf(kind)
    && CalcNBlocks(r) == (if kind == CommandTask then n.comBlocks else 0)
    && (kind == CommandTask ==> CmdFrameBlocks(r) == n.comBlocks)
  }

  // Finalising takes the result only of a task that is armed.
  predicate Takes(s: Sched) { s.active.Some? && s.active.value < |s.tasks| && s.tasks[s.active.value].armed }

  // What the master's software leaves when the bus is free: armed for the active task if that is to be
  // armed, and otherwise idle, the result cleared if it was taken.
  predicate FreeMaster(p: Party, r: Party, before: Sched, after: Sched, nodes: seq<Node>) {
    if Arming(after) then
      var t := after.tasks[after.active.value];
      t.node.Some? && t.node.value < |nodes| && ArmedFor(r, nodes[t.node.value], t.kind)
    else
      Idle(r) && r.ctl.resultReady == (p.ctl.resultReady && !Takes(before)) && (r.ctl.resultReady ==> r.ctl.lastResult == p.ctl.lastResult)
  }

  // The software of the tick brings the joint state from w.sys to m.
  predicate Software(w: World, m: Sys, ops: seq<Op>, nodes: seq<Node>) {
    && App(w.sys, m) && AllOutside(ops)
    && (!Cs(w.sys).ctl.busy ==> FreeMaster(Cs(w.sys), Cs(m), AfterOps(w, ops), Controlled(w, ops), nodes))
  }

  predicate TickOf(w: World, m: Sys, ops: seq<Op>, v: World, rows: seq<Row>, nodes: seq<Node>, t: nat) {
    Software(w, m, ops, nodes) && v == World(Tick(m, rows, t), NextSched(w, ops))
  }

  // --- how far a phase is from quiet -------------------------------------------------------

  // The most blocks an answer can carry.
  function AnswerMax(flag: nat): nat { if flag == DATA_RESP then MAX_BLOCKS else 0 }

  // Ticks until the system is quiet again, at most.
  function Rank(ph: Phase): nat {
    match ph
    case Quiet => 0
    case Request(k, n, _, flag, _) => if k <= FrameLength(n) then FrameLength(n) - k + 1 + RequestTail(flag) else 0
    case Turnaround(_, flag) => 1 + FrameLength(AnswerMax(flag))
    case Response(_, k, n, _, _) => if k <= FrameLength(n) then FrameLength(n) - k + 1 else 0
    case Waiting(w, _) => if w <= RESPONSE_TIMEOUT then RESPONSE_TIMEOUT - w + 1 else 0
  }

  function RequestTail(flag: nat): nat { Max(RESPONSE_TIMEOUT, 1 + FrameLength(AnswerMax(Answer(flag)))) }

  // A data request and a command response carry no blocks.
  predicate Sober(ph: Phase) {
    match ph
    case Request(_, n, _, flag, _) => n <= MAX_BLOCKS && (flag == DATA_REQ ==> n == 0)
    case Response(_, _, n, flag, _) => n <= AnswerMax(flag)
    case _ => true
  }

  const LONGEST: nat := 76

  lemma RankOfStart(n: nat, dst: nat, flag: nat)
    requires n <= MAX_BLOCKS && (flag == CMD_REQ || flag == DATA_REQ) && (flag == DATA_REQ ==> n == 0)
    ensures Rank(Phase.Request(1, n, dst, flag, [])) <= LONGEST
  {
  }

  // Out of quiet, every tick brings the system at least one tick nearer to quiet.
  lemma RankFalls(s: Sys, m: Sys, ph: Phase, rows: seq<Row>, t: nat)
    requires InPhase(s, ph) && App(s, m) && !ph.Quiet? && Sober(ph)
    ensures ph.Turnaround? || ph.Response? ==> ph.d < |m.parties|
    ensures Sober(NextPhase(ph, m)) && Rank(NextPhase(ph, m)) < Rank(ph)
  {
    hide OneBehind, TxAt, Finished, HeaderFor, FrameBlocks, Carriable;
    AppKeepsPhase(s, m, ph);
    if ph.Turnaround? {
      AnswerSize(m, ph.d, ph.flag);
    }
    hide CalcNBlocks;
  }

  lemma AnswerSize(m: Sys, d: nat, flag: nat)
    requires Configured(m) && InTurnaround(m, d, flag)
    ensures d < |m.parties| && CalcNBlocks(m.parties[d]) <= AnswerMax(flag)
  {
    assert PlainDevice(m.parties[d]);
    hide FrameBlocks;
  }

  // --- scheduler and bus in step -----------------------------------------------------------

  // Between ticks: whatever is active has been armed, and its exchange is under way or has left its
  // result for the scheduler; without an active task there is neither.
  ghost predicate Coupled(w: World, ph: Phase) {
    && InPhase(w.sys, ph) && Sober(ph) && Inv(w.sched)
    && (w.sched.active.Some? ==> Takes(w.sched))
    && (if ph.Quiet? then w.sched.active.Some? <==> Cs(w.sys).ctl.resultReady else w.sched.active.Some?)
  }

  lemma BusyIffNotQuiet(s: Sys, ph: Phase)
    requires InPhase(s, ph)
    ensures |s.parties| >= 1 && (Cs(s).ctl.busy <==> !ph.Quiet?)
  {
    hide OneBehind, TxAt, Finished, HeaderFor;
  }

  lemma TakesStands(s: Sched, r: Sched)
    requires FlightStands(s, r) && (s.active.Some? ==> Takes(s))
    ensures r.active == s.active && (r.active.Some? ==> Takes(r))
  {
  }

  // --- a tick with the bus busy ------------------------------------------------------------

  lemma BusyTick(w: World, m: Sys, ops: seq<Op>, v: World, ph: Phase, rows: seq<Row>, nodes: seq<Node>, t: nat)
    requires Coupled(w, ph) && TickOf(w, m, ops, v, rows, nodes, t) && !ph.Quiet?
    ensures ph.Turnaround? || ph.Response? ==> ph.d < |m.parties|
    ensures Coupled(v, NextPhase(ph, m)) && Rank(NextPhase(ph, m)) < Rank(ph)
  {
    hide InPhase, Tick, Rank, Sober, FlightStands, Inv;
    BusyIffNotQuiet(w.sys, ph);
    OpsStand(w.sched, ops, |ops|);
    InvariantKept(w.sched, ops, |ops|);
    TakesStands(w.sched, AfterOps(w, ops));
    PhaseStep(w.sys, m, ph, rows, t);
    RankFalls(w.sys, m, ph, rows, t);
    if NextPhase(ph, m).Quiet? {
      ResultLeft(w.sys, m, ph, rows, t);
    }
  }

  // The tick that ends an exchange leaves a result.
  lemma ResultLeft(s: Sys, m: Sys, ph: Phase, rows: seq<Row>, t: nat)
    requires InPhase(s, ph) && App(s, m) && !ph.Quiet?
    requires (ph.Turnaround? || ph.Response? ==> ph.d < |m.parties|) && |m.parties| >= 1 && NextPhase(ph, m).Quiet?
    ensures |Tick(m, rows, t).parties| >= 1 && Cs(Tick(m, rows, t)).ctl.resultReady
  {
    hide InRequest, InTurnaround, InWaiting, CalcNBlocks, FindDevice, Tick;
    match ph
    case Response(d, k, n, flag, sent) =>
      AppKeepsPhase(s, m, ph);
      ResponseBounds(m, d, k, n, flag, sent);
      AfterResponseEnd(s, m, rows, t, d, n, flag, sent);
    case Waiting(x, dst) => AfterWaiting(s, m, rows, t, x, dst);
    case _ =>
  }

  // --- a tick with the bus free ------------------------------------------------------------

  lemma QuietMaster(w: World, m: Sys, ops: seq<Op>, v: World, rows: seq<Row>, nodes: seq<Node>, t: nat)
    requires InPhase(w.sys, Quiet) && TickOf(w, m, ops, v, rows, nodes, t)
    ensures |w.sys.parties| >= 1 && |m.parties| >= 1 && |v.sys.parties| >= 1
    ensures InPhase(v.sys, NextPhase(Quiet, m)) && !Cs(w.sys).ctl.busy
    ensures FreeMaster(Cs(w.sys), Cs(m), AfterOps(w, ops), Controlled(w, ops), nodes)
    ensures Idle(Cs(m)) ==> Cs(v.sys) == Cs(m) && NextPhase(Quiet, m) == Quiet
    ensures v.sched == MarkArmed(Controlled(w, ops))
  {
    hide Tick, Inv, FreeMaster, MarkArmed, ExchangeControl;
    BusyIffNotQuiet(w.sys, Quiet);
    FromQuiet(w.sys, m, rows, t);
  }

  // The active task's result is taken and the slot is free again.
  lemma FinalizeTick(w: World, m: Sys, ops: seq<Op>, v: World, rows: seq<Row>, nodes: seq<Node>, t: nat)
    requires Coupled(w, Quiet) && TickOf(w, m, ops, v, rows, nodes, t) && w.sched.active.Some?
    ensures |m.parties| >= 1 && NextPhase(Quiet, m) == Quiet && Coupled(v, Quiet) && v.sched.active == None
  {
    hide InPhase, Tick, App, TickOf, NextPhase, Inv;
    QuietMaster(w, m, ops, v, rows, nodes, t);
    AfterOpsOk(w, m, ops, v, rows, nodes, t);
    ControlTakes(AfterOps(w, ops), ResultOf(Cs(w.sys)));
    hide RunOps, ExchangeControl;
  }

  lemma AfterOpsOk(w: World, m: Sys, ops: seq<Op>, v: World, rows: seq<Row>, nodes: seq<Node>, t: nat)
    requires Inv(w.sched) && TickOf(w, m, ops, v, rows, nodes, t) && (w.sched.active.Some? ==> Takes(w.sched))
    ensures Inv(AfterOps(w, ops)) && AfterOps(w, ops).active == w.sched.active
    ensures w.sched.active.Some? ==> Takes(AfterOps(w, ops))
  {
    hide Inv, FlightStands, Takes, App, Tick;
    OpsStand(w.sched, ops, |ops|);
    InvariantKept(w.sched, ops, |ops|);
    TakesStands(w.sched, AfterOps(w, ops));
  }

  lemma ControlTakes(s: Sched, result: Option<Result>)
    requires Inv(s) && Takes(s) && result.Some?
    ensures ExchangeControl(s, result).active == None && Inv(ExchangeControl(s, result))
    ensures MarkArmed(ExchangeControl(s, result)) == ExchangeControl(s, result) && !Arming(ExchangeControl(s, result))
  {
    ControlKeeps(s, result);
    hide Inv, ActivateNext, QueueTaskSlot, ClearSlot;
  }

  // Nothing is in flight: the next task is popped, activated and armed, all in this tick.
  lemma PopTick(w: World, m: Sys, ops: seq<Op>, v: World, rows: seq<Row>, nodes: seq<Node>, t: nat)
    requires Coupled(w, Quiet) && TickOf(w, m, ops, v, rows, nodes, t) && w.sched.active == None
    ensures |m.parties| >= 1 && Coupled(v, NextPhase(Quiet, m)) && Rank(NextPhase(Quiet, m)) <= LONGEST
    ensures v.sched.active == TakeFrontOf(AfterOps(w, ops))
  {
    hide InPhase, Tick, App, TickOf, NextPhase, Inv, Armed;
    QuietMaster(w, m, ops, v, rows, nodes, t);
    AfterOpsOk(w, m, ops, v, rows, nodes, t);
    ControlPops(AfterOps(w, ops), ResultOf(Cs(w.sys)));
    hide RunOps, ExchangeControl, MarkArmed, TakeFrontOf, Takes;
    if Arming(Controlled(w, ops)) {
      ArmedStarts(m);
    }
  }

  lemma ArmedStarts(m: Sys)
    requires |m.parties| >= 1 && Armed(Cs(m))
    ensures NextPhase(Quiet, m).Request? && Sober(NextPhase(Quiet, m)) && Rank(NextPhase(Quiet, m)) <= LONGEST
  {
    RankOfStart(CalcNBlocks(Cs(m)), Cs(m).targetAddr, Cs(m).ctl.flag);
    hide Rank, FrameBlocks;
  }

  // The slot a pop would serve.
  ghost function TakeFrontOf(s: Sched): Option<nat> { if Inv(s) then TakeFront(s).1 else None }

  lemma ControlPops(s: Sched, result: Option<Result>)
    requires Inv(s) && s.active == None
    ensures var r := ExchangeControl(s, result);
      && Inv(r) && Inv(MarkArmed(r)) && MarkArmed(r).active == r.active == TakeFrontOf(s)
      && (r.active.Some? ==> Arming(r) && Takes(MarkArmed(r))) && (r.active == None ==> !Arming(r) && MarkArmed(r) == r)
  {
    ControlKeeps(s, result);
    ActivateNextKeeps(s);
    ArmKeeps(ExchangeControl(s, result));
    PopNeverSkips(s);
    TakeFrontMakesHole(s);
    hide PopNext, TakeFront;
    var r := ExchangeControl(s, result);
    if r.active.Some? {
      assert SlotOk(r, r.active.value);
      FreshlyActivated(s);
    }
    hide Inv;
  }

  lemma FreshlyActivated(s: Sched)
    requires Inv(s) && s.active == None && ActivateNext(s).active.Some?
    ensures var r := ActivateNext(s); r.active.value < |r.tasks| && !r.tasks[r.active.value].armed
  {
    PopNeverSkips(s);
    TakeFrontMakesHole(s);
    hide PopNext, TakeFront, Activate;
    var (p, slot) := TakeFront(s);
    if slot.Some? { HoleClosesActive(p, slot.value); }
  }

  // --- the distance to the next pop --------------------------------------------------------

  // Ticks until the tick that pops, that one included, at most.
  function ToPop(w: World, ph: Phase): nat {
    if !ph.Quiet? then Rank(ph) + 2 else if w.sched.active.Some? then 2 else 1
  }

  predicate PopsNow(w: World, ph: Phase) { ph.Quiet? && w.sched.active == None }

  // The coupling is kept in every tick; the next pop comes a tick nearer, and is at most 78 ticks away
  // again once it has happened.
  lemma TickKeeps(w: World, m: Sys, ops: seq<Op>, v: World, ph: Phase, rows: seq<Row>, nodes: seq<Node>, t: nat)
    requires Coupled(w, ph) && TickOf(w, m, ops, v, rows, nodes, t)
    ensures |m.parties| >= 1 && (ph.Turnaround? || ph.Response? ==> ph.d < |m.parties|)
    ensures Coupled(v, NextPhase(ph, m))
    ensures if PopsNow(w, ph) then ToPop(v, NextPhase(ph, m)) <= LONGEST + 2 else ToPop(v, NextPhase(ph, m)) < ToPop(w, ph)
  {
    hide Coupled, TickOf, NextPhase, Rank;
    PartiesThere(w, m, ops, v, ph, rows, nodes, t);
    if !ph.Quiet? {
      BusyTick(w, m, ops, v, ph, rows, nodes, t);
    } else if w.sched.active.Some? {
      FinalizeTick(w, m, ops, v, rows, nodes, t);
    } else {
      PopTick(w, m, ops, v, rows, nodes, t);
    }
  }

  lemma PartiesThere(w: World, m: Sys, ops: seq<Op>, v: World, ph: Phase, rows: seq<Row>, nodes: seq<Node>, t: nat)
    requires Coupled(w, ph) && TickOf(w, m, ops, v, rows, nodes, t)
    ensures |m.parties| >= 1
  {
    BusyIffNotQuiet(w.sys, ph);
    hide InPhase, Inv, Tick;
  }

  // What arming really does to the master is what the relation asks of it.
  lemma ArmPartyIsArmedFor(p: Party, pending: seq<seq<word>>, rows: seq<Row>, n: Node, slot: nat, kind: TaskKind, own: seq<word>)
    requires NodeServed(p, n) && !p.ctl.busy && |own| == |p.mem.cmd|
    ensures ArmedFor(ArmParty(p, pending, rows, n, slot, kind, own), n, kind)
    ensures MasterApp(p, ArmParty(p, pending, rows, n, slot, kind, own))
  {
    hide ArmParty, Armed, MasterApp, CalcNBlocks;
    ArmedForNode(p, pending, rows, n, slot, kind, own);
  }

  // Freshly bound parties with a freshly reset scheduler.
  lemma FreshCoupled(s: Sys)
    requires Configured(s) && s.visible == None && Cs(s).ctl.resultReady == false
    requires forall i | 0 <= i < |s.parties| :: s.parties[i].ctl.exchange == Rx && s.parties[i].ctl.rx == RxSof && !s.parties[i].ctl.busy
    ensures Coupled(World(s, FRESH), Quiet)
  {
    hide Inv, Configured;
    FreshIsQuiet(s);
    FreshInv();
  }
}
