// Bounded waiting over whole runs of the closed system, and exactly one completion per armed exchange.
module ServedInTime {
  import opened Wire
  import opened CommTable
  import opened BusExchange
  import opened Lockstep
  import opened ClosedSystem
  import opened Transactions
  import opened Scheduler
  import opened SchedulerInvariant
  import opened SchedulerFairness
  import opened FlightKept
  import opened CommandWindows
  import opened Liveness
  import opened Reclassing

  // W[j] is the world before tick t0 + j, M[j] the joint state its software leaves, O[j] its operations.
  ghost predicate IsWorldRun(W: seq<World>, M: seq<Sys>, O: seq<seq<Op>>, rows: seq<Row>, nodes: seq<Node>, t0: nat) {
    && |W| == |M| + 1 && |O| == |M|
    && forall j | 0 <= j < |M| :: TickOf(W[j], M[j], O[j], W[j + 1], rows, nodes, t0 + j)
  }

  // --- a tick as scheduler operations ------------------------------------------------------

  // All operations of a tick, control and arming included.
  function TickOps(w: World, ops: seq<Op>): seq<Op>
    requires |w.sys.parties| >= 1
  {
    if Cs(w.sys).ctl.busy then ops else ops + [Scheduler.Op.Control(ResultOf(Cs(w.sys))), Scheduler.Op.Arm]
  }

  lemma TickOpsRun(w: World, ops: seq<Op>)
    requires |w.sys.parties| >= 1
    ensures RunOps(w.sched, TickOps(w, ops), |TickOps(w, ops)|) == NextSched(w, ops)
  {
    if !Cs(w.sys).ctl.busy {
      var all := TickOps(w, ops);
      RunPrefix(w.sched, ops, [Scheduler.Op.Control(ResultOf(Cs(w.sys))), Scheduler.Op.Arm], |ops|);
      hide ExchangeControl, MarkArmed;
      assert RunOps(w.sched, all, |ops| + 1) == Apply(RunOps(w.sched, all, |ops|), all[|ops|]);
      assert RunOps(w.sched, all, |ops| + 2) == Apply(RunOps(w.sched, all, |ops| + 1), all[|ops| + 1]);
    }
  }

  // A tick that pops contains a pop.
  lemma TickPops(w: World, ops: seq<Op>, ph: Phase)
    requires Coupled(w, ph) && PopsNow(w, ph) && AllOutside(ops)
    ensures |w.sys.parties| >= 1 && Pops(w.sched, TickOps(w, ops), 0, |TickOps(w, ops)|) >= 1
  {
    BusyIffNotQuiet(w.sys, ph);
    hide InPhase, Inv, Apply, Takes, Sober;
    var all := TickOps(w, ops);
    OpsStand(w.sched, ops, |ops|);
    RunPrefix(w.sched, ops, [Scheduler.Op.Control(ResultOf(Cs(w.sys))), Scheduler.Op.Arm], |ops|);
    assert PopAt(w.sched, all, |ops|) == 1;
    assert Pops(w.sched, all, 0, |ops| + 1) >= 1;
    assert |all| == |ops| + 2;
  }

  // --- the wait over a run -----------------------------------------------------------------

  // Through the whole tick, after each of its operations, the slot waits in one of the queues.
  ghost predicate WaitsInTick(w: World, ops: seq<Op>, slot: nat) {
    |w.sys.parties| >= 1 && StaysWaiting(w.sched, TickOps(w, ops), 0, |TickOps(w, ops)|, slot)
  }

  // How often the tick's operations move it to the other queue.
  function TickSwitches(w: World, ops: seq<Op>, slot: nat): nat {
    if |w.sys.parties| >= 1 then Switches(w.sched, TickOps(w, ops), 0, |TickOps(w, ops)|, slot) else 0
  }

  const PERIOD: nat := 78

  // The measure: whole periods for the pops still ahead, and the ticks to the next one.
  function Horizon(w: World, ph: Phase, slot: nat): int {
    PERIOD * (WaitNow(w.sched, slot) - 1) + ToPop(w, ph)
  }

  lemma WaitOverTick(w: World, ops: seq<Op>, slot: nat)
    requires Inv(w.sched) && WaitsInTick(w, ops, slot)
    ensures Pops(w.sched, TickOps(w, ops), 0, |TickOps(w, ops)|) + WaitNow(NextSched(w, ops), slot)
         <= WaitNow(w.sched, slot) + LONGEST_WAIT * TickSwitches(w, ops, slot)
    ensures WaitNow(NextSched(w, ops), slot) >= 1
  {
    hide WaitNow, Pops, Inv, StaysWaiting, Apply, Switches;
    WaitWithSwitches(w.sched, TickOps(w, ops), 0, |TickOps(w, ops)|, slot);
    TickOpsRun(w, ops);
  }

  lemma HorizonFalls(w: World, m: Sys, ops: seq<Op>, v: World, ph: Phase, rows: seq<Row>, nodes: seq<Node>, t: nat, slot: nat)
    requires Coupled(w, ph) && TickOf(w, m, ops, v, rows, nodes, t) && WaitsInTick(w, ops, slot)
    ensures |m.parties| >= 1 && (ph.Turnaround? || ph.Response? ==> ph.d < |m.parties|)
    ensures Coupled(v, NextPhase(ph, m))
    ensures Horizon(v, NextPhase(ph, m), slot) < Horizon(w, ph, slot) + PERIOD * LONGEST_WAIT * TickSwitches(w, ops, slot)
  {
    TickKeeps(w, m, ops, v, ph, rows, nodes, t);
    assert Inv(w.sched) && AllOutside(ops) && v.sched == NextSched(w, ops) by { hide InPhase, Inv, Tick, App, FreeMaster; }
    WaitOverTick(w, ops, slot);
    if PopsNow(w, ph) { TickPops(w, ops, ph); }
    hide Coupled, TickOf, WaitNow, Pops, TickOps, NextPhase, WaitsInTick, ToPop, TickSwitches;
    assert PopsNow(w, ph) ==> ToPop(w, ph) >= 1 by { ToPopPositive(w, ph); }
  }

  lemma ToPopPositive(w: World, ph: Phase)
    ensures ToPop(w, ph) >= 1
  {
    hide Rank;
  }

  // Scheduler and bus stay coupled in every world of every run.
  lemma {:induction false} CoupledOverRun(W: seq<World>, M: seq<Sys>, O: seq<seq<Op>>, rows: seq<Row>, nodes: seq<Node>,
                                          t0: nat, start: Phase, n: nat) returns (ph: Phase)
    requires IsWorldRun(W, M, O, rows, nodes, t0) && n <= |M| && Coupled(W[0], start)
    ensures Coupled(W[n], ph)
    decreases n
  {
    hide Coupled, TickOf, NextPhase;
    ph := start;
    if n > 0 {
      var before := CoupledOverRun(W, M, O, rows, nodes, t0, start, n - 1);
      assert TickOf(W[n - 1], M[n - 1], O[n - 1], W[n - 1 + 1], rows, nodes, t0 + (n - 1));
      TickKeeps(W[n - 1], M[n - 1], O[n - 1], W[n], before, rows, nodes, t0 + (n - 1));
      ph := NextPhase(before, M[n - 1]);
    }
  }

  // How often the task is moved to the other queue in the first n ticks.
  function SwitchesOverRun(W: seq<World>, O: seq<seq<Op>>, n: nat, slot: nat): nat
    requires n <= |W| && n <= |O|
  {
    if n == 0 then 0 else SwitchesOverRun(W, O, n - 1, slot) + TickSwitches(W[n - 1], O[n - 1], slot)
  }

  lemma {:induction false} HorizonOverRun(W: seq<World>, M: seq<Sys>, O: seq<seq<Op>>, rows: seq<Row>, nodes: seq<Node>,
                                          t0: nat, start: Phase, n: nat, slot: nat) returns (ph: Phase)
    requires IsWorldRun(W, M, O, rows, nodes, t0) && n <= |M| && Coupled(W[0], start)
    requires forall j | 0 <= j < n :: WaitsInTick(W[j], O[j], slot)
    ensures Coupled(W[n], ph)
    ensures n + Horizon(W[n], ph, slot) <= Horizon(W[0], start, slot) + PERIOD * LONGEST_WAIT * SwitchesOverRun(W, O, n, slot)
    decreases n
  {
    hide Coupled, TickOf, WaitsInTick, Horizon, NextPhase, TickSwitches;
    ph := start;
    if n > 0 {
      var before := HorizonOverRun(W, M, O, rows, nodes, t0, start, n - 1, slot);
      assert TickOf(W[n - 1], M[n - 1], O[n - 1], W[n - 1 + 1], rows, nodes, t0 + (n - 1));
      HorizonFalls(W[n - 1], M[n - 1], O[n - 1], W[n], before, rows, nodes, t0 + (n - 1), slot);
      ph := NextPhase(before, M[n - 1]);
    }
  }

  // Liveness: while a task waits, whatever else the software does, at most 78 ticks pass for each pop
  // that its place allows, and for each of the 128 pops that each of its own changes of class may cost.
  lemma WaitingIsServed(W: seq<World>, M: seq<Sys>, O: seq<seq<Op>>, rows: seq<Row>, nodes: seq<Node>,
                        t0: nat, start: Phase, n: nat, slot: nat)
    requires IsWorldRun(W, M, O, rows, nodes, t0) && 0 < n <= |M| && Coupled(W[0], start)
    requires forall j | 0 <= j < n :: WaitsInTick(W[j], O[j], slot)
    ensures n < PERIOD * (WaitNow(W[0].sched, slot) + LONGEST_WAIT * SwitchesOverRun(W, O, n, slot))
  {
    var ph := HorizonOverRun(W, M, O, rows, nodes, t0, start, n, slot);
    HorizonBounds(W[0], start, slot);
    HorizonBounds(W[n], ph, slot);
    hide Horizon, WaitNow, WaitsInTick;
  }

  // Through the whole tick the slot stays in the queue of class c.
  ghost predicate StaysInTick(w: World, ops: seq<Op>, c: QueueClass, slot: nat) {
    |w.sys.parties| >= 1 && StaysQueued(w.sched, TickOps(w, ops), 0, |TickOps(w, ops)|, c, slot)
  }

  lemma {:induction false} StayingIsWaiting(W: seq<World>, M: seq<Sys>, O: seq<seq<Op>>, rows: seq<Row>, nodes: seq<Node>,
                                            t0: nat, start: Phase, n: nat, c: QueueClass, slot: nat)
    requires IsWorldRun(W, M, O, rows, nodes, t0) && n <= |M| && Coupled(W[0], start)
    requires forall j | 0 <= j < n :: StaysInTick(W[j], O[j], c, slot)
    ensures SwitchesOverRun(W, O, n, slot) == 0 && forall j | 0 <= j < n :: WaitsInTick(W[j], O[j], slot)
    decreases n
  {
    hide StaysInTick, WaitsInTick, Coupled, TickOf, TickSwitches;
    if n > 0 {
      StayingIsWaiting(W, M, O, rows, nodes, t0, start, n - 1, c, slot);
      var ph := CoupledOverRun(W, M, O, rows, nodes, t0, start, n - 1);
      assert StaysInTick(W[n - 1], O[n - 1], c, slot);
      StayingTick(W[n - 1], ph, O[n - 1], c, slot);
    }
  }

  lemma StayingTick(w: World, ph: Phase, ops: seq<Op>, c: QueueClass, slot: nat)
    requires Coupled(w, ph) && StaysInTick(w, ops, c, slot)
    ensures WaitsInTick(w, ops, slot) && TickSwitches(w, ops, slot) == 0 && WaitNow(w.sched, slot) == Wait(w.sched, c, slot)
  {
    hide InPhase, Inv, StaysQueued, StaysWaiting, Switches, WaitNow, Wait, TickOps, Apply;
    NoSwitches(w.sched, TickOps(w, ops), 0, |TickOps(w, ops)|, c, slot);
  }

  // In particular, a task that nobody cancels or moves leaves its queue within 78 ticks per pop that
  // its place allows.
  lemma QueuedIsServed(W: seq<World>, M: seq<Sys>, O: seq<seq<Op>>, rows: seq<Row>, nodes: seq<Node>,
                       t0: nat, start: Phase, n: nat, c: QueueClass, slot: nat)
    requires IsWorldRun(W, M, O, rows, nodes, t0) && n <= |M| && Coupled(W[0], start)
    requires forall j | 0 <= j < n :: StaysInTick(W[j], O[j], c, slot)
    requires n > 0
    ensures n < PERIOD * Wait(W[0].sched, c, slot)
  {
    hide StaysInTick, WaitsInTick, TickOf, Coupled, WaitNow, Wait;
    StayingIsWaiting(W, M, O, rows, nodes, t0, start, n, c, slot);
    WaitingIsServed(W, M, O, rows, nodes, t0, start, n, slot);
    assert StaysInTick(W[0], O[0], c, slot);
    StayingTick(W[0], start, O[0], c, slot);
  }

  lemma HorizonBounds(w: World, ph: Phase, slot: nat)
    requires Coupled(w, ph)
    ensures 1 <= Horizon(w, ph, slot) <= PERIOD * WaitNow(w.sched, slot)
  {
    RankBound(w.sys, ph);
    ToPopPositive(w, ph);
    WaitAtLeastOne(w.sched, ClassOf(w.sched, slot), slot);
    hide InPhase, Inv, Rank, Wait;
  }

  lemma WaitAtLeastOne(s: Sched, c: QueueClass, slot: nat)
    ensures Wait(s, c, slot) >= 1
  {
  }

  lemma RankBound(s: Sys, ph: Phase)
    requires InPhase(s, ph) && Sober(ph)
    ensures Rank(ph) <= LONGEST
  {
    hide OneBehind, TxAt, Finished, HeaderFor, FrameBlocks, Carriable;
  }

  // --- leaving the queue is being served ---------------------------------------------------

  // A task that the tick's operations leave queued and that is no longer queued after the tick is in
  // flight: armed, and its request is on the bus.
  lemma LeavingIsService(w: World, m: Sys, ops: seq<Op>, v: World, ph: Phase, rows: seq<Row>, nodes: seq<Node>, t: nat,
                         c: QueueClass, slot: nat)
    requires Coupled(w, ph) && TickOf(w, m, ops, v, rows, nodes, t)
    requires slot in QueueOf(AfterOps(w, ops), c) && slot !in QueueOf(v.sched, c)
    ensures PopsNow(w, ph) && v.sched.active == Some(slot) && Takes(v.sched)
    ensures |m.parties| >= 1 && NextPhase(ph, m).Request?
  {
    hide InPhase, Inv, Tick, App, FreeMaster, Rank, Sober, RunOps, NextPhase;
    BusyIffNotQuiet(w.sys, ph);
    AfterOpsOk(w, m, ops, v, rows, nodes, t);
    PartiesThere(w, m, ops, v, ph, rows, nodes, t);
    var s := AfterOps(w, ops);
    if w.sched.active.Some? {
      ControlKeepsQueued(s, ResultOf(Cs(w.sys)), c, slot);
    } else {
      PopLeaves(s, ResultOf(Cs(w.sys)), c, slot);
      ControlPops(s, ResultOf(Cs(w.sys)));
      StartsRequest(w, m, ops, v, rows, nodes, t);
    }
    hide ExchangeControl, MarkArmed, Takes;
  }

  lemma StartsRequest(w: World, m: Sys, ops: seq<Op>, v: World, rows: seq<Row>, nodes: seq<Node>, t: nat)
    requires InPhase(w.sys, Quiet) && TickOf(w, m, ops, v, rows, nodes, t) && |w.sys.parties| >= 1
    requires Arming(Controlled(w, ops))
    ensures |m.parties| >= 1 && NextPhase(Quiet, m).Request?
  {
    hide InPhase, Tick, App, TickOf, NextPhase, Armed, ExchangeControl;
    QuietMaster(w, m, ops, v, rows, nodes, t);
    ArmedStarts(m);
  }

  lemma ControlKeepsQueued(s: Sched, result: Option<Result>, c: QueueClass, slot: nat)
    requires Inv(s) && s.active.Some? && slot in QueueOf(s, c)
    ensures slot in QueueOf(MarkArmed(ExchangeControl(s, result)), c)
  {
    hide Inv;
  }

  lemma PopLeaves(s: Sched, result: Option<Result>, c: QueueClass, slot: nat)
    requires Inv(s) && s.active == None && slot in QueueOf(s, c)
    ensures slot !in QueueOf(MarkArmed(ExchangeControl(s, result)), c) ==> TakeFrontOf(s) == Some(slot)
  {
    PopBringsNearer(s, c, slot);
    PopActivates(s, Scheduler.Op.Control(result));
    hide Inv, TakeFront, ExchangeControl, Wait, Index;
  }

  // --- exactly one completion --------------------------------------------------------------

  // The completion a tick's control step appends, if it does.
  function TickCompletion(w: World, ops: seq<Op>): Option<Completion>
    requires |w.sys.parties| >= 1
  {
    if Cs(w.sys).ctl.busy then None else Finalize(AfterOps(w, ops), ResultOf(Cs(w.sys))).1
  }

  function SysSeq(W: seq<World>): (S: seq<Sys>)
    ensures |S| == |W| && forall j | 0 <= j < |W| :: S[j] == W[j].sys
  {
    seq(|W|, j requires 0 <= j < |W| => W[j].sys)
  }

  lemma WorldRunIsRun(W: seq<World>, M: seq<Sys>, O: seq<seq<Op>>, rows: seq<Row>, nodes: seq<Node>, t0: nat)
    requires IsWorldRun(W, M, O, rows, nodes, t0)
    ensures IsRun(SysSeq(W), M, rows, t0)
  {
    hide Tick, App, FreeMaster, NextSched;
    forall j | 0 <= j < |M| ensures App(SysSeq(W)[j], M[j]) && SysSeq(W)[j + 1] == Tick(M[j], rows, t0 + j) {
      assert TickOf(W[j], M[j], O[j], W[j + 1], rows, nodes, t0 + j);
    }
  }

  // Tick 0 of the run pops a task into this slot and arms its exchange.
  ghost predicate ArmsTask(W: seq<World>, M: seq<Sys>, O: seq<seq<Op>>, rows: seq<Row>, nodes: seq<Node>, t0: nat, slot: nat) {
    && IsWorldRun(W, M, O, rows, nodes, t0) && |M| >= 1 && Coupled(W[0], Quiet) && W[0].sched.active == None
    && W[1].sched.active == Some(slot)
  }

  // The tasks of the world: the slot holds the same task in the same state of flight.
  predicate Flying(w: World, slot: nat, task: Task) {
    slot < |w.sched.tasks| && w.sched.active == Some(slot) && SameFlight(task, w.sched.tasks[slot])
  }

  lemma {:induction false} FliesOn(W: seq<World>, M: seq<Sys>, O: seq<seq<Op>>, rows: seq<Row>, nodes: seq<Node>, t0: nat,
                                   slot: nat, f: nat, j: nat)
    requires IsWorldRun(W, M, O, rows, nodes, t0) && 1 <= j <= f <= |M|
    requires Inv(W[1].sched) && slot < |W[1].sched.tasks| && W[1].sched.active == Some(slot)
    requires forall i | 1 <= i < f :: BusyAt(W[i].sys)
    ensures Inv(W[j].sched) && Flying(W[j], slot, W[1].sched.tasks[slot])
    decreases j
  {
    hide Inv, Tick, App, FreeMaster;
    if j > 1 {
      FliesOn(W, M, O, rows, nodes, t0, slot, f, j - 1);
      assert TickOf(W[j - 1], M[j - 1], O[j - 1], W[j - 1 + 1], rows, nodes, t0 + (j - 1)) && BusyAt(W[j - 1].sys);
      OpsStand(W[j - 1].sched, O[j - 1], |O[j - 1]|);
      InvariantKept(W[j - 1].sched, O[j - 1], |O[j - 1]|);
      hide RunOps;
    }
  }

  // The completion of a task with this result.
  predicate CompletionOf(c: Option<Completion>, task: Task, r: Result) {
    && c.Some? && task.node.Some? && c.value.id == task.id && c.value.kind == task.kind
    && c.value.target == TargetOf(task.node.value) && c.value.result == r
  }

  predicate CompletesAt(W: seq<World>, O: seq<seq<Op>>, f: nat, task: Task, r: Result) {
    f < |W| && f < |O| && |W[f].sys.parties| >= 1 && CompletionOf(TickCompletion(W[f], O[f]), task, r)
  }

  predicate SilentAt(W: seq<World>, O: seq<seq<Op>>, j: nat) {
    j < |W| && j < |O| && |W[j].sys.parties| >= 1 && TickCompletion(W[j], O[j]) == None
  }

  lemma FinalizeGives(s: Sched, slot: nat, task: Task, r: Result)
    requires Inv(s) && s.active == Some(slot) && slot < |s.tasks| && SameFlight(task, s.tasks[slot]) && task.armed && task.node.Some?
    ensures CompletionOf(Finalize(s, Some(r)).1, task, r)
  {
    hide Inv, QueueTaskSlot, ClearSlot;
  }

  // While the bus is busy nothing is completed; when the exchange has ended, the armed task is
  // completed with that exchange's own result.
  lemma OneCompletion(W: seq<World>, M: seq<Sys>, O: seq<seq<Op>>, rows: seq<Row>, nodes: seq<Node>, t0: nat,
                      slot: nat, f: nat, r: Result)
    requires ArmsTask(W, M, O, rows, nodes, t0, slot) && 1 <= f < |M| && slot < |W[1].sched.tasks|
    requires forall i | 1 <= i < f :: BusyAt(W[i].sys)
    requires DoneAt(W[f].sys, r)
    ensures forall j | 1 <= j < f :: SilentAt(W, O, j)
    ensures CompletesAt(W, O, f, W[1].sched.tasks[slot], r)
  {
    hide Coupled, TickOf, DoneAt, Takes, CompletesAt, TickCompletion, SameFlight;
    FirstTick(W, M, O, rows, nodes, t0, slot);
    FliesOn(W, M, O, rows, nodes, t0, slot, f, f);
    assert TickOf(W[f], M[f], O[f], W[f + 1], rows, nodes, t0 + f);
    LastTick(W, O, f, slot, W[1].sched.tasks[slot], M[f], W[f + 1], rows, nodes, t0 + f, r);
    forall j | 1 <= j < f ensures SilentAt(W, O, j) {
      BusyIsSilent(W[j], O[j]);
    }
  }

  lemma BusyIsSilent(w: World, ops: seq<Op>)
    requires BusyAt(w.sys)
    ensures |w.sys.parties| >= 1 && TickCompletion(w, ops) == None
  {
  }

  lemma FirstTick(W: seq<World>, M: seq<Sys>, O: seq<seq<Op>>, rows: seq<Row>, nodes: seq<Node>, t0: nat, slot: nat)
    requires ArmsTask(W, M, O, rows, nodes, t0, slot) && slot < |W[1].sched.tasks|
    ensures Inv(W[1].sched) && W[1].sched.tasks[slot].armed && W[1].sched.tasks[slot].node.Some?
  {
    hide Coupled, TickOf, NextPhase, Inv;
    assert TickOf(W[0], M[0], O[0], W[0 + 1], rows, nodes, t0 + 0);
    PopTick(W[0], M[0], O[0], W[1], rows, nodes, t0);
    TaskFlies(W[1], NextPhase(Quiet, M[0]), slot);
  }

  lemma LastTick(W: seq<World>, O: seq<seq<Op>>, f: nat, slot: nat, task: Task, m: Sys, v: World, rows: seq<Row>,
                 nodes: seq<Node>, t: nat, r: Result)
    requires f < |W| && f < |O| && TickOf(W[f], m, O[f], v, rows, nodes, t)
    requires Inv(W[f].sched) && Flying(W[f], slot, task) && task.armed && task.node.Some? && DoneAt(W[f].sys, r)
    ensures CompletesAt(W, O, f, task, r)
  {
    hide Inv, Tick, App, FreeMaster, Finalize, RunOps, InRequest, InResponse, InTurnaround, InWaiting;
    OpsStand(W[f].sched, O[f], |O[f]|);
    InvariantKept(W[f].sched, O[f], |O[f]|);
    FinalizeGives(AfterOps(W[f], O[f]), slot, task, r);
    assert ResultOf(Cs(W[f].sys)) == Some(r);
    hide CompletionOf;
  }

  lemma TaskFlies(w: World, ph: Phase, slot: nat)
    requires Coupled(w, ph) && w.sched.active == Some(slot) && slot < |w.sched.tasks|
    ensures Inv(w.sched) && w.sched.tasks[slot].armed && w.sched.tasks[slot].node.Some?
  {
    assert SlotOk(w.sched, slot);
    hide InPhase;
  }

  // The exchange that tick 0 starts is the one for the armed task's node.
  lemma ArmedTaskStarts(W: seq<World>, M: seq<Sys>, O: seq<seq<Op>>, rows: seq<Row>, nodes: seq<Node>, t0: nat, slot: nat)
    requires ArmsTask(W, M, O, rows, nodes, t0, slot) && slot < |W[1].sched.tasks|
    ensures StartsExchange(SysSeq(W), M, rows, t0)
    ensures var task := W[1].sched.tasks[slot];
      task.node.Some? && task.node.value < |nodes| && ArmedFor(Cs(M[0]), nodes[task.node.value], task.kind)
  {
    hide Tick, App, ArmedFor, InPhase, Inv;
    WorldRunIsRun(W, M, O, rows, nodes, t0);
    assert TickOf(W[0], M[0], O[0], W[0 + 1], rows, nodes, t0 + 0);
    ArmsFor(W[0], M[0], O[0], W[1], rows, nodes, t0, slot);
    ArmedForIsArmed(Cs(M[0]), nodes[W[1].sched.tasks[slot].node.value], W[1].sched.tasks[slot].kind);
  }

  lemma ArmedForIsArmed(p: Party, n: Node, kind: TaskKind)
    requires ArmedFor(p, n, kind)
    ensures Armed(p) && p.targetAddr == n.busAddr && CalcNBlocks(p) == (if kind == CommandTask then n.comBlocks else 0)
  {
  }

  lemma ArmsFor(w: World, m: Sys, ops: seq<Op>, v: World, rows: seq<Row>, nodes: seq<Node>, t: nat, slot: nat)
    requires Coupled(w, Quiet) && TickOf(w, m, ops, v, rows, nodes, t) && w.sched.active == None
    requires v.sched.active == Some(slot) && slot < |v.sched.tasks|
    ensures |m.parties| >= 1
    ensures var task := v.sched.tasks[slot];
      task.node.Some? && task.node.value < |nodes| && ArmedFor(Cs(m), nodes[task.node.value], task.kind)
  {
    hide InPhase, Tick, App, TickOf, NextPhase, Inv, ArmedFor;
    QuietMaster(w, m, ops, v, rows, nodes, t);
    AfterOpsOk(w, m, ops, v, rows, nodes, t);
    ControlPops(AfterOps(w, ops), ResultOf(Cs(w.sys)));
    hide RunOps, ExchangeControl;
  }

  // A node that is there: the armed task is completed once, with success, in the tick after the
  // exchange, and nothing else is completed meanwhile.
  lemma PresentNodeCompletes(W: seq<World>, M: seq<Sys>, O: seq<seq<Op>>, rows: seq<Row>, nodes: seq<Node>, t0: nat,
                             slot: nat, d: nat, n1: nat, n2: nat)
    requires ArmsTask(W, M, O, rows, nodes, t0, slot) && slot < |W[1].sched.tasks|
    requires FullExchange(SysSeq(W), M, rows, t0, d, n1, n2) && 2 * (n1 + n2) + 10 < |M|
    ensures forall j | 1 <= j < 2 * (n1 + n2) + 10 :: SilentAt(W, O, j)
    ensures CompletesAt(W, O, 2 * (n1 + n2) + 10, W[1].sched.tasks[slot], Success)
  {
    hide ArmsTask, FullExchange, SilentAt, CompletesAt, BusyAt, DoneAt, SysSeq;
    RunLength(W, M, O, rows, nodes, t0, slot);
    ExchangeTiming(SysSeq(W), M, rows, t0, d, n1, n2);
    forall i | 1 <= i < 2 * (n1 + n2) + 10 ensures BusyAt(W[i].sys) {
      assert BusyAt(SysSeq(W)[i]);
    }
    OneCompletion(W, M, O, rows, nodes, t0, slot, 2 * (n1 + n2) + 10, Success);
  }

  lemma RunLength(W: seq<World>, M: seq<Sys>, O: seq<seq<Op>>, rows: seq<Row>, nodes: seq<Node>, t0: nat, slot: nat)
    requires ArmsTask(W, M, O, rows, nodes, t0, slot)
    ensures |W| == |M| + 1 && |M| >= 1
  {
    hide TickOf, Coupled;
  }

  // A node that is not there: the armed task is completed once, with a timeout.
  lemma AbsentNodeCompletes(W: seq<World>, M: seq<Sys>, O: seq<seq<Op>>, rows: seq<Row>, nodes: seq<Node>, t0: nat,
                            slot: nat, n1: nat)
    requires ArmsTask(W, M, O, rows, nodes, t0, slot) && slot < |W[1].sched.tasks|
    requires |M[0].parties| >= 1 && Addressee(M) == 0 && n1 == RequestBlocks(M) && 15 + 2 * n1 < |M|
    ensures forall j | 1 <= j < 15 + 2 * n1 :: SilentAt(W, O, j)
    ensures CompletesAt(W, O, 15 + 2 * n1, W[1].sched.tasks[slot], Timeout)
  {
    hide ArmsTask, SilentAt, CompletesAt, BusyAt, DoneAt, SysSeq, StartsExchange, Addressee, RequestBlocks, ArmedFor;
    RunLength(W, M, O, rows, nodes, t0, slot);
    ArmedTaskStarts(W, M, O, rows, nodes, t0, slot);
    AbsentDeviceTimesOut(SysSeq(W), M, rows, t0, n1);
    forall i | 1 <= i < 15 + 2 * n1 ensures BusyAt(W[i].sys) {
      assert BusyAt(SysSeq(W)[i]);
    }
    OneCompletion(W, M, O, rows, nodes, t0, slot, 15 + 2 * n1, Timeout);
  }

  // --- from queued to completed ------------------------------------------------------------

  // When the exchange that tick 0 arms is completed, and how.
  function CompletionTick(M: seq<Sys>): nat
    requires |M| >= 1 && |M[0].parties| >= 1
  {
    var d, n := Addressee(M), RequestBlocks(M);
    if d == 0 then 15 + 2 * n
    else 2 * (n + if Cs(M[0]).ctl.flag == CMD_REQ then 0 else PrmFrameBlocks(M[0].parties[d])) + 10
  }

  function OutcomeFor(M: seq<Sys>): Result
    requires |M| >= 1 && |M[0].parties| >= 1
  {
    if Addressee(M) == 0 then Timeout else Success
  }

  lemma CompletionInTime(S: seq<Sys>, M: seq<Sys>, rows: seq<Row>, t0: nat, n: Node, kind: TaskKind)
    requires StartsExchange(S, M, rows, t0) && ArmedFor(Cs(M[0]), n, kind)
    ensures |M| >= 1 && |M[0].parties| >= 1 && 1 <= CompletionTick(M) <= 77
  {
    hide Tick, CalcNBlocks, PrmFrameBlocks, CmdFrameBlocks;
    assert App(S[0], M[0]);
    AppKeepsConfiguration(S[0], M[0]);
    if Addressee(M) != 0 { assert PlainDevice(M[0].parties[Addressee(M)]); }
  }

  // Exactly one completion: within 77 ticks of arming the task is completed, silently until then, with
  // success if a device has the node's address and with a timeout if none has.
  lemma ArmedCompletes(W: seq<World>, M: seq<Sys>, O: seq<seq<Op>>, rows: seq<Row>, nodes: seq<Node>, t0: nat, slot: nat)
    requires ArmsTask(W, M, O, rows, nodes, t0, slot) && slot < |W[1].sched.tasks| && |M| > 77
    ensures |M[0].parties| >= 1 && 1 <= CompletionTick(M) <= 77
    ensures forall j | 1 <= j < CompletionTick(M) :: SilentAt(W, O, j)
    ensures CompletesAt(W, O, CompletionTick(M), W[1].sched.tasks[slot], OutcomeFor(M))
  {
    hide ArmsTask, SilentAt, CompletesAt, StartsExchange, ArmedFor, RequestBlocks, PrmFrameBlocks;
    RunLength(W, M, O, rows, nodes, t0, slot);
    ArmedTaskStarts(W, M, O, rows, nodes, t0, slot);
    var task := W[1].sched.tasks[slot];
    CompletionInTime(SysSeq(W), M, rows, t0, nodes[task.node.value], task.kind);
    var d, n := Addressee(M), RequestBlocks(M);
    if d == 0 {
      AbsentNodeCompletes(W, M, O, rows, nodes, t0, slot, n);
    } else {
      var n2 := if Cs(M[0]).ctl.flag == CMD_REQ then 0 else PrmFrameBlocks(M[0].parties[d]);
      PresentNodeCompletes(W, M, O, rows, nodes, t0, slot, d, n, n2);
    }
  }

  // The operations from outside do not take the slot out of the queues; they may move it between them.
  ghost predicate OpsKeepWaiting(w: World, ops: seq<Op>, slot: nat) {
    InQueue(w.sched, slot) ==> StaysWaiting(w.sched, ops, 0, |ops|, slot)
  }

  lemma ArmKeepsQueue(s: Sched, slot: nat)
    ensures InQueue(MarkArmed(s), slot) <==> InQueue(s, slot)
  {
  }

  // A slot that the tick's operations leave waiting, and that still waits after the tick, waits all through it.
  lemma WaitsThrough(w: World, ops: seq<Op>, slot: nat)
    requires |w.sys.parties| >= 1 && StaysWaiting(w.sched, ops, 0, |ops|, slot) && InQueue(NextSched(w, ops), slot)
    ensures WaitsInTick(w, ops, slot)
  {
    hide Apply, InQueue, ExchangeControl, MarkArmed;
    var all := TickOps(w, ops);
    TickOpsRun(w, ops);
    if !Cs(w.sys).ctl.busy {
      var more := [Scheduler.Op.Control(ResultOf(Cs(w.sys))), Scheduler.Op.Arm];
      ArmKeepsQueue(Controlled(w, ops), slot);
      forall i | 0 <= i <= |all| ensures WaitingAfter(w.sched, all, i, slot) {
        if i <= |ops| {
          RunPrefix(w.sched, ops, more, i);
          assert WaitingAfter(w.sched, ops, i, slot);
        } else if i == |ops| + 1 {
          RunAppend(w.sched, ops, more, 1);
          assert RunOps(AfterOps(w, ops), more, 1) == Apply(AfterOps(w, ops), more[0]);
          ControlIs(AfterOps(w, ops), ResultOf(Cs(w.sys)));
        }
      }
    }
  }

  lemma ControlIs(s: Sched, result: Option<Result>)
    ensures Apply(s, Scheduler.Op.Control(result)) == ExchangeControl(s, result)
  {
  }

  // A tick in which a waiting task does not wait all through is the one that arms it.
  lemma LeavingArms(w: World, m: Sys, ops: seq<Op>, v: World, ph: Phase, rows: seq<Row>, nodes: seq<Node>, t: nat, slot: nat)
    requires Coupled(w, ph) && TickOf(w, m, ops, v, rows, nodes, t) && InQueue(w.sched, slot) && OpsKeepWaiting(w, ops, slot)
    requires !WaitsInTick(w, ops, slot)
    ensures ph.Quiet? && w.sched.active == None && v.sched.active == Some(slot)
  {
    hide InPhase, Inv, Tick, App, FreeMaster, NextSched, WaitsInTick, Takes, Sober;
    TickIsNext(w, m, ops, v, rows, nodes, t);
    if InQueue(v.sched, slot) {
      WaitsThrough(w, ops, slot);
    } else {
      assert WaitingAfter(w.sched, ops, |ops|, slot);
      LeavingIsService(w, m, ops, v, ph, rows, nodes, t, ClassOf(AfterOps(w, ops), slot), slot);
    }
  }

  lemma StillQueued(w: World, ops: seq<Op>, slot: nat)
    requires WaitsInTick(w, ops, slot)
    ensures InQueue(NextSched(w, ops), slot)
  {
    hide Apply, InQueue, NextSched, TickOps;
    TickOpsRun(w, ops);
    assert WaitingAfter(w.sched, TickOps(w, ops), |TickOps(w, ops)|, slot);
  }

  // The worlds from tick a on.
  lemma WorldSuffix(W: seq<World>, M: seq<Sys>, O: seq<seq<Op>>, rows: seq<Row>, nodes: seq<Node>, t0: nat, a: nat)
    requires IsWorldRun(W, M, O, rows, nodes, t0) && a <= |M|
    ensures IsWorldRun(W[a..], M[a..], O[a..], rows, nodes, t0 + a)
  {
    hide TickOf;
    forall j | 0 <= j < |M[a..]| ensures TickOf(W[a..][j], M[a..][j], O[a..][j], W[a..][j + 1], rows, nodes, t0 + a + j) {
      assert TickOf(W[a + j], M[a + j], O[a + j], W[a + j + 1], rows, nodes, t0 + (a + j));
    }
  }

  // A task that nobody cancels is armed before the n ticks its wait allows are over; from tick j on it
  // is still to be served.
  lemma {:induction false} ArmedInTime(W: seq<World>, M: seq<Sys>, O: seq<seq<Op>>, rows: seq<Row>, nodes: seq<Node>,
                                       t0: nat, start: Phase, n: nat, slot: nat, j: nat) returns (a: nat)
    requires IsWorldRun(W, M, O, rows, nodes, t0) && j <= n <= |M| && 0 < n && Coupled(W[0], start)
    requires n >= PERIOD * (WaitNow(W[0].sched, slot) + LONGEST_WAIT * SwitchesOverRun(W, O, n, slot))
    requires forall i | 0 <= i < n :: OpsKeepWaiting(W[i], O[i], slot)
    requires (forall i | 0 <= i < j :: WaitsInTick(W[i], O[i], slot)) && InQueue(W[j].sched, slot)
    ensures a < n && ArmsTask(W[a..], M[a..], O[a..], rows, nodes, t0 + a, slot)
    decreases n - j
  {
    hide *;
    if j == n {
      NotForEver(W, M, O, rows, nodes, t0, start, n, slot);
    } else {
      RunLengths(W, M, O, rows, nodes, t0);
      if WaitsInTick(W[j], O[j], slot) {
        StaysAfterTick(W, M, O, rows, nodes, t0, j, slot);
        a := ArmedInTime(W, M, O, rows, nodes, t0, start, n, slot, j + 1);
      } else {
        a := j;
        LeavingTick(W, M, O, rows, nodes, t0, start, j, slot);
      }
    }
  }

  lemma RunLengths(W: seq<World>, M: seq<Sys>, O: seq<seq<Op>>, rows: seq<Row>, nodes: seq<Node>, t0: nat)
    requires IsWorldRun(W, M, O, rows, nodes, t0)
    ensures |W| == |M| + 1 && |O| == |M|
  {
    hide TickOf;
  }

  lemma NotForEver(W: seq<World>, M: seq<Sys>, O: seq<seq<Op>>, rows: seq<Row>, nodes: seq<Node>, t0: nat, start: Phase,
                   n: nat, slot: nat)
    requires IsWorldRun(W, M, O, rows, nodes, t0) && 0 < n <= |M| && Coupled(W[0], start)
    requires n >= PERIOD * (WaitNow(W[0].sched, slot) + LONGEST_WAIT * SwitchesOverRun(W, O, n, slot))
    ensures |W| == |M| + 1 == |O| + 1 && exists i | 0 <= i < n :: !WaitsInTick(W[i], O[i], slot)
  {
    hide *;
    RunLengths(W, M, O, rows, nodes, t0);
    if forall i | 0 <= i < n :: WaitsInTick(W[i], O[i], slot) {
      WaitingIsServed(W, M, O, rows, nodes, t0, start, n, slot);
    }
  }

  lemma StaysAfterTick(W: seq<World>, M: seq<Sys>, O: seq<seq<Op>>, rows: seq<Row>, nodes: seq<Node>, t0: nat, j: nat, slot: nat)
    requires IsWorldRun(W, M, O, rows, nodes, t0) && j < |M| && WaitsInTick(W[j], O[j], slot)
    ensures InQueue(W[j + 1].sched, slot)
  {
    hide TickOf, WaitsInTick, InQueue;
    assert TickOf(W[j], M[j], O[j], W[j + 1], rows, nodes, t0 + j);
    StillQueued(W[j], O[j], slot);
    TickIsNext(W[j], M[j], O[j], W[j + 1], rows, nodes, t0 + j);
  }

  lemma LeavingTick(W: seq<World>, M: seq<Sys>, O: seq<seq<Op>>, rows: seq<Row>, nodes: seq<Node>, t0: nat, start: Phase,
                    j: nat, slot: nat)
    requires IsWorldRun(W, M, O, rows, nodes, t0) && j < |M| && Coupled(W[0], start)
    requires InQueue(W[j].sched, slot) && OpsKeepWaiting(W[j], O[j], slot) && !WaitsInTick(W[j], O[j], slot)
    ensures ArmsTask(W[j..], M[j..], O[j..], rows, nodes, t0 + j, slot)
  {
    hide Coupled, TickOf, WaitsInTick, OpsKeepWaiting, InQueue;
    var ph := CoupledOverRun(W, M, O, rows, nodes, t0, start, j);
    assert TickOf(W[j], M[j], O[j], W[j + 1], rows, nodes, t0 + j);
    LeavingArms(W[j], M[j], O[j], W[j + 1], ph, rows, nodes, t0 + j, slot);
    WorldSuffix(W, M, O, rows, nodes, t0, j);
  }

  lemma TickIsNext(w: World, m: Sys, ops: seq<Op>, v: World, rows: seq<Row>, nodes: seq<Node>, t: nat)
    requires TickOf(w, m, ops, v, rows, nodes, t)
    ensures |w.sys.parties| >= 1 && v.sched == NextSched(w, ops)
  {
    hide NextSched, Tick, FreeMaster;
  }

  // The whole way: a waiting task that nobody cancels is armed within n ticks, n being what its place
  // and its changes of class allow, and completed at most 77 ticks later, exactly once.
  lemma WaitingIsCompleted(W: seq<World>, M: seq<Sys>, O: seq<seq<Op>>, rows: seq<Row>, nodes: seq<Node>,
                           t0: nat, start: Phase, n: nat, slot: nat) returns (a: nat, f: nat)
    requires IsWorldRun(W, M, O, rows, nodes, t0) && 0 < n && n + 77 < |M| && Coupled(W[0], start) && InQueue(W[0].sched, slot)
    requires n >= PERIOD * (WaitNow(W[0].sched, slot) + LONGEST_WAIT * SwitchesOverRun(W, O, n, slot))
    requires forall i | 0 <= i < n :: OpsKeepWaiting(W[i], O[i], slot)
    ensures a < n && a < f <= a + 77 && W[a].sched.active == None && W[a + 1].sched.active == Some(slot)
    ensures slot < |W[a + 1].sched.tasks| && |M[a].parties| >= 1
    ensures forall j | a < j < f :: SilentAt(W, O, j)
    ensures CompletesAt(W, O, f, W[a + 1].sched.tasks[slot], OutcomeFor(M[a..]))
  {
    hide *;
    a := ArmedInTime(W, M, O, rows, nodes, t0, start, n, slot, 0);
    RunLengths(W, M, O, rows, nodes, t0);
    SlotThere(W[a..], M[a..], O[a..], rows, nodes, t0 + a, slot);
    ArmedCompletes(W[a..], M[a..], O[a..], rows, nodes, t0 + a, slot);
    f := a + CompletionTick(M[a..]);
    CompletesLater(W, O, a, f - a, W[a + 1].sched.tasks[slot], OutcomeFor(M[a..]));
  }

  // What happens in a run from tick a on happens in the run.
  lemma CompletesLater(W: seq<World>, O: seq<seq<Op>>, a: nat, k: nat, task: Task, r: Result)
    requires a <= |O| && a <= |W| && CompletesAt(W[a..], O[a..], k, task, r)
    requires forall j | 1 <= j < k :: SilentAt(W[a..], O[a..], j)
    ensures CompletesAt(W, O, a + k, task, r) && forall j | a < j < a + k :: SilentAt(W, O, j)
  {
    hide CompletionOf, TickCompletion;
    forall j | a < j < a + k ensures SilentAt(W, O, j) {
      assert SilentAt(W[a..], O[a..], j - a);
    }
  }

  lemma SlotThere(W: seq<World>, M: seq<Sys>, O: seq<seq<Op>>, rows: seq<Row>, nodes: seq<Node>, t0: nat, slot: nat)
    requires ArmsTask(W, M, O, rows, nodes, t0, slot)
    ensures |W| == |M| + 1 == |O| + 1 && |M| >= 1 && slot < |W[1].sched.tasks|
    ensures W[0].sched.active == None && W[1].sched.active == Some(slot)
  {
    hide Coupled, TickOf, NextPhase, Inv;
    assert TickOf(W[0], M[0], O[0], W[0 + 1], rows, nodes, t0 + 0);
    PopTick(W[0], M[0], O[0], W[1], rows, nodes, t0);
    ActiveThere(W[1], NextPhase(Quiet, M[0]));
  }

  lemma ActiveThere(w: World, ph: Phase)
    requires Coupled(w, ph)
    ensures w.sched.active.Some? ==> w.sched.active.value < |w.sched.tasks|
  {
    hide InPhase, Inv, Sober;
  }
}
