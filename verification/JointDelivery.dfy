// What the device of a node merges at the end of a command exchange: exactly the latest value commanded,
// or what a cancellation in the middle of the request leaves of it.
module JointDelivery {
  import opened Wire
  import opened Bits
  import opened MsgBlock
  import opened CommTable
  import opened BusExchange
  import opened Lockstep
  import opened ClosedSystem
  import opened Transactions
  import opened Scheduler
  import opened SchedulerInvariant
  import opened CsExchange
  import opened Liveness
  import opened CommandPath
  import opened JointRun
  import F = FlightEvents
  import V = ServedInTime
  import W = CommandWindows
  import P = Params
  import C = Codec

  // --- the exchange that a tick starts -----------------------------------------------------

  // The tick arms a command exchange with node n.
  ghost predicate ArmsCommand(c: W.Config, j: Joint, m: Sys, x: Input, v: Joint, t: nat, n: nat) {
    && JointTick(c, j, m, x, v, t) && j.world.sched.active == None
    && F.FlightOf(v.world.sched).InFlight? && F.FlightOf(v.world.sched).node == n
  }

  lemma ArmsFromQuiet(c: W.Config, j: Joint, m: Sys, x: Input, v: Joint, ph: Phase, t: nat, n: nat)
    requires ArmsCommand(c, j, m, x, v, t, n) && Coupled(j.world, ph)
    ensures ph.Quiet? && !Cs(j.world.sys).ctl.busy && n < |c.nodes| && ArmedFor(Cs(m), c.nodes[n], CommandTask)
    ensures F.FlightOf(v.world.sched) == W.InFlight(n, false)
  {
    BusyIffNotQuiet(j.world.sys, ph);
    assert ph.Quiet? by { hide InPhase, JointTick, Inv; }
    ArmsUndoomed(c, j, m, x, v, t, n);
    hide InPhase, Inv, Tick, App, FreeMaster, WindowsAfter, InputOk, ArmedFor, NextSched;
    V.ArmsFor(j.world, m, Ops(x), v.world, c.rows, c.nodes, t, v.world.sched.active.value);
  }

  lemma ArmsUndoomed(c: W.Config, j: Joint, m: Sys, x: Input, v: Joint, t: nat, n: nat)
    requires ArmsCommand(c, j, m, x, v, t, n) && Coupled(j.world, Quiet)
    ensures F.FlightOf(v.world.sched) == W.InFlight(n, false)
  {
    BusyIffNotQuiet(j.world.sys, Quiet);
    ResultWaits(c, j, m, x, v, Quiet, t);
    StepsAreOps(j.world.sched, x.steps, |x.steps|);
    AfterOpsOk(j.world, m, Ops(x), v.world, c.rows, c.nodes, t);
    var s := AfterSteps(j, x);
    var e := F.EventSound(s, TurnOf(j, x));
    hide InPhase, Inv, Tick, App, FreeMaster, WindowsAfter, InputOk, F.StepEvent, F.StepSched, RunOps, NextSched;
  }

  // Arming as the program does it moves the windows by that event.
  lemma ArmPartyMoves(c: W.Config, p: Party, pending: seq<seq<word>>, n: nat, t: P.Tables, task: Task, root: real)
    requires W.ConfigOk(c) && W.Shaped(c, WiresOf(p, pending)) && c.rows == t.comms
    requires W.EventFits(c, W.Arm(n, OwnWrite(p.mem, t, task, root)))
    requires !task.staged && t.IsComm(task.commandId) ==>
      C.RootOk(t.CommRow(task.commandId), if task.hasValue then task.value else 1.0, root)
    ensures var own := OwnCommand(p.mem, t, task, root);
      WiresOf(ArmParty(p, pending, c.rows, c.nodes[n], n, CommandTask, own), pending)
      == Moved(c, WiresOf(p, pending), W.Grounded, Some(W.Arm(n, OwnWrite(p.mem, t, task, root))))
  {
    hide OwnWrite, OwnCommand, W.ConfigOk, W.Written, C.RootOk, FramesFor, ArmControl;
    OwnCommandIsWritten(p.mem, t, task, root);
    ArmKeepsSizes(WiresOf(p, pending), c.rows, c.nodes[n], n, OwnCommand(p.mem, t, task, root));
    hide W.ArmWindows;
  }

  function SysOf(J: seq<Joint>): (S: seq<Sys>)
    ensures |S| == |J| && forall j | 0 <= j < |J| :: S[j] == J[j].world.sys
  {
    seq(|J|, j requires 0 <= j < |J| => J[j].world.sys)
  }

  lemma JointIsRun(c: W.Config, J: seq<Joint>, M: seq<Sys>, X: seq<Input>, t0: nat)
    requires IsJointRun(c, J, M, X, t0)
    ensures IsRun(SysOf(J), M, c.rows, t0)
  {
    hide Tick, App, FreeMaster, NextSched, InputOk, WindowsAfter;
    forall j | 0 <= j < |M| ensures App(SysOf(J)[j], M[j]) && SysOf(J)[j + 1] == Tick(M[j], c.rows, t0 + j) {
      assert JointTick(c, J[j], M[j], X[j], J[j + 1], t0 + j);
    }
  }

  // --- cancellations while the request is sent ---------------------------------------------

  // The step cancels everything for a node whose window has a block k.
  predicate Empties(c: W.Config, st: F.Step, k: nat) {
    && st.Do? && st.op.CancelTarget? && NodeOf(st.op.target).Some?
    && NodeOf(st.op.target).value < |c.nodes| && k < c.nodes[NodeOf(st.op.target).value].comBlocks
  }

  predicate EmptiesAmong(c: W.Config, steps: seq<F.Step>, n: nat, k: nat)
    requires n <= |steps|
  {
    exists i | 0 <= i < n :: Empties(c, steps[i], k)
  }

  // Some step of the tick does.
  predicate EmptiesBlock(c: W.Config, x: Input, k: nat) { EmptiesAmong(c, x.steps, |x.steps|, k) }

  // It empties block k of the transport buffer, and no other step before control touches that.
  lemma EventBlock(c: W.Config, w: W.Wires, s: Sched, st: F.Step, k: nat)
    requires W.ConfigOk(c) && |c.nodes| == NODE_COUNT && W.Shaped(c, w) && W.FlightOk(c, F.FlightOf(s)) && Inv(s)
    requires !st.Turn? && k < c.bufBlocks
    ensures var r := Moved(c, w, F.FlightOf(s), EventOf(s, st));
      |r.buf| == c.bufBlocks && r.buf[k] == if Empties(c, st, k) then 0 else w.buf[k]
  {
    hide Inv, W.ConfigOk, F.FlightOf;
    if EventOf(s, st).Some? && EventOf(s, st).value.Cancel? {
      var n := EventOf(s, st).value.node;
      W.FitsAll(c, n);
      CancelBlock(c, w, n, k);
      hide W.CancelWindows;
    }
  }

  lemma CancelBlock(c: W.Config, w: W.Wires, n: nat, k: nat)
    requires W.Shaped(c, w) && n < |c.nodes| && c.nodes[n].comBlocks <= c.bufBlocks && k < c.bufBlocks
    ensures var r := W.CancelWindows(w, c.nodes[n], n);
      |r.buf| == c.bufBlocks && r.buf[k] == if k < c.nodes[n].comBlocks then 0 else w.buf[k]
  {
  }

  lemma {:induction false} StepsBlock(c: W.Config, evs: seq<W.Event>, s: Sched, steps: seq<F.Step>, n: nat, k: nat)
    requires F.Follows(c, evs, s) && F.StepsOk(c, s, steps) && n <= |steps| && |c.nodes| == NODE_COUNT && NoTurn(steps)
    requires k < c.bufBlocks
    ensures var w := W.WiresAt(c, evs, |evs|); var r := WiresAfter(c, w, s, steps, n);
      |r.buf| == |w.buf| == c.bufBlocks && r.buf[k] == if EmptiesAmong(c, steps, n, k) then 0 else w.buf[k]
  {
    hide Moved, EventOf, F.StepEvent, F.StepsOk, F.Events, Empties, Inv, F.FlightOf, F.RunSteps, W.ConfigOk, W.WiresAt;
    if n > 0 {
      StepsBlock(c, evs, s, steps, n - 1, k);
      StepsMove(c, evs, s, steps, n - 1);
      var more, r := evs + F.Events(c, s, steps, n - 1), F.RunSteps(s, steps, n - 1);
      W.FlightStaysOk(c, more, |more|);
      EventBlock(c, WiresAfter(c, W.WiresAt(c, evs, |evs|), s, steps, n - 1), r, steps[n - 1], k);
    }
  }

  // One tick of the request: the software empties the block or leaves it alone.
  lemma BusyBlock(c: W.Config, evs: seq<W.Event>, j: Joint, m: Sys, x: Input, v: Joint, t: nat, k: nat)
    requires Recorded(c, evs, j) && JointTick(c, j, m, x, v, t) && BusyAt(j.world.sys) && k < c.bufBlocks
    ensures |m.parties| >= 1 && |Cs(m).mem.cmdBuf| == |Cs(j.world.sys).mem.cmdBuf| == c.bufBlocks
    ensures Cs(m).mem.cmdBuf[k] == if EmptiesBlock(c, x, k) then 0 else Cs(j.world.sys).mem.cmdBuf[k]
  {
    hide TickOf, F.StepsOk, F.OwnOfNode, WiresAfter, Moved, EmptiesAmong, F.Follows, W.WiresAt;
    StepsBlock(c, evs, j.world.sched, x.steps, |x.steps|, k);
  }

  // --- what is sent ------------------------------------------------------------------------

  // Every cancellation so far was harmless to field i of node n.
  ghost predicate Unharmed(c: W.Config, evs: seq<W.Event>, n: nat, i: nat) {
    W.Run(c, evs) && W.FieldOf(c, n, i) && forall k :: 0 <= k < |evs| ==> W.Harmless(c, evs, k, n, i)
  }

  // The latest nonzero value of field i commanded for node n and neither delivered nor cancelled.
  ghost function LatestOf(c: W.Config, evs: seq<W.Event>, n: nat, i: nat): nat {
    if W.Run(c, evs) && i < |c.rows| then W.Latest(c, evs, |evs|, n, i) else 0
  }

  // A joint run whose tick 0 arms a command exchange with node n, for which device d is there; evs is the
  // history before it.
  ghost predicate DeliveryRun(c: W.Config, evs: seq<W.Event>, J: seq<Joint>, M: seq<Sys>, X: seq<Input>, t0: nat, n: nat, d: nat) {
    && IsJointRun(c, J, M, X, t0) && |M| >= 1 && Recorded(c, evs, J[0]) && Coupled(J[0].world, Quiet)
    && ArmsCommand(c, J[0], M[0], X[0], J[1], t0, n) && n < |c.nodes| && |M| >= 2 * c.nodes[n].comBlocks + 10
    && |M[0].parties| >= 1 && d == Addressee(M) != 0 && Mirrors(M[0].parties[d], c.nodes[n])
  }

  lemma DeliveryIsExchange(c: W.Config, evs: seq<W.Event>, J: seq<Joint>, M: seq<Sys>, X: seq<Input>, t0: nat, n: nat, d: nat)
    requires DeliveryRun(c, evs, J, M, X, t0, n, d)
    ensures FullExchange(SysOf(J), M, c.rows, t0, d, c.nodes[n].comBlocks, 0)
    ensures CmdFrameBlocks(Cs(M[0])) == c.nodes[n].comBlocks == RequestBlocks(M) && Cs(M[0]).ctl.flag == CMD_REQ
    ensures F.FlightOf(J[1].world.sched) == W.InFlight(n, false)
  {
    hide Recorded, JointTick, InPhase, Inv, Armed, CalcNBlocks, CmdFrameBlocks, Addressee;
    ArmsFromQuiet(c, J[0], M[0], X[0], J[1], Quiet, t0, n);
    JointIsRun(c, J, M, X, t0);
  }

  lemma DeliveryTimes(c: W.Config, evs: seq<W.Event>, J: seq<Joint>, M: seq<Sys>, X: seq<Input>, t0: nat, n: nat, d: nat)
    requires DeliveryRun(c, evs, J, M, X, t0, n, d)
    ensures |J| == |M| + 1 && |M| >= 2 * c.nodes[n].comBlocks + 10
    ensures forall j | 1 <= j <= 2 * c.nodes[n].comBlocks + 9 :: BusyAt(SysOf(J)[j])
    ensures SucceededAt(SysOf(J), 2 * c.nodes[n].comBlocks + 10)
  {
    hide *;
    DeliveryLength(c, evs, J, M, X, t0, n, d);
    DeliveryIsExchange(c, evs, J, M, X, t0, n, d);
    var last := 2 * c.nodes[n].comBlocks + 10;
    ExchangeTiming(SysOf(J), M, c.rows, t0, d, c.nodes[n].comBlocks, 0);
    DoneIsSuccess(SysOf(J), last);
  }

  lemma DeliveryLength(c: W.Config, evs: seq<W.Event>, J: seq<Joint>, M: seq<Sys>, X: seq<Input>, t0: nat, n: nat, d: nat)
    requires DeliveryRun(c, evs, J, M, X, t0, n, d)
    ensures |J| == |M| + 1 && |X| == |M| && n < |c.nodes| && |M| >= 2 * c.nodes[n].comBlocks + 10 && |M[0].parties| >= 1
  {
    hide Recorded, JointTick, Coupled, ArmsCommand, Addressee, Mirrors;
  }

  lemma DoneIsSuccess(S: seq<Sys>, j: nat)
    requires j < |S| && DoneAt(S[j], Success)
    ensures SucceededAt(S, j)
  {
    hide AtRest;
  }

  lemma ArmingParts(c: W.Config, evs: seq<W.Event>, J: seq<Joint>, M: seq<Sys>, X: seq<Input>, t0: nat, n: nat, d: nat)
    requires DeliveryRun(c, evs, J, M, X, t0, n, d)
    ensures Coupled(J[0].world, Quiet) && ArmsCommand(c, J[0], M[0], X[0], J[1], t0, n)
    ensures IsJointRun(c, J, M, X, t0) && Recorded(c, evs, J[0])
  {
    hide Recorded, Coupled, ArmsCommand, IsJointRun, Addressee, Mirrors;
  }

  lemma RunTick(c: W.Config, evs: seq<W.Event>, J: seq<Joint>, M: seq<Sys>, X: seq<Input>, t0: nat, n: nat, d: nat, j: nat)
    requires DeliveryRun(c, evs, J, M, X, t0, n, d) && j < |M|
    ensures |J| == |M| + 1 && |X| == |M| && JointTick(c, J[j], M[j], X[j], J[j + 1], t0 + j)
  {
    hide JointTick, Recorded, Coupled, ArmsCommand, Addressee, Mirrors;
    assert JointTick(c, J[j], M[j], X[j], J[j + 1], t0 + j);
  }

  // From one tick to the next the bus leaves the buffer alone.
  lemma BufferBetween(c: W.Config, evs: seq<W.Event>, J: seq<Joint>, M: seq<Sys>, X: seq<Input>, t0: nat, n: nat, d: nat, j: nat)
    returns (more: seq<W.Event>)
    requires DeliveryRun(c, evs, J, M, X, t0, n, d) && j < |M|
    ensures |J| == |M| + 1 && Recorded(c, more, J[j + 1])
    ensures |M[j].parties| >= 1 && |J[j + 1].world.sys.parties| >= 1
    ensures Cs(J[j + 1].world.sys).mem.cmdBuf == Cs(M[j]).mem.cmdBuf && |Cs(M[j]).mem.cmdBuf| == c.bufBlocks
  {
    hide *;
    ArmingParts(c, evs, J, M, X, t0, n, d);
    RunTick(c, evs, J, M, X, t0, n, d, j);
    var ph := HistoryGoesOn(c, evs, J, M, X, t0, Quiet, j);
    more := evs + History(c, J, X, j);
    TickMoves(c, more, J[j], M[j], X[j], J[j + 1], ph, t0 + j);
    TickKeepsCommands(c, J[j], M[j], X[j], J[j + 1], ph, t0 + j);
    more := more + TickEvents(c, J[j], X[j]);
    RecordedBuffer(c, more, J[j + 1]);
    SameBuffer(Cs(J[j + 1].world.sys), J[j + 1].pending, Cs(M[j]));
  }

  lemma RecordedBuffer(c: W.Config, evs: seq<W.Event>, j: Joint)
    requires Recorded(c, evs, j)
    ensures |j.world.sys.parties| >= 1 && |Cs(j.world.sys).mem.cmdBuf| == c.bufBlocks
  {
    hide F.Follows, W.WiresAt;
    assert W.Run(c, evs) by { hide F.Sound, F.FlightOf; assert F.Follows(c, evs, j.world.sched); FollowsRun(c, evs, j.world.sched); }
  }

  lemma FollowsRun(c: W.Config, evs: seq<W.Event>, s: Sched)
    requires F.Follows(c, evs, s)
    ensures W.Run(c, evs)
  {
    hide W.Run, F.Sound, F.FlightOf;
  }

  lemma SameBuffer(p: Party, pending: seq<seq<word>>, q: Party)
    requires WiresOf(p, pending) == WiresOf(q, pending)
    ensures p.mem.cmdBuf == q.mem.cmdBuf
  {
  }

  // Block k is emptied in one of the ticks 1 to j of the request.
  predicate EmptiedBy(c: W.Config, X: seq<Input>, k: nat, j: nat) {
    exists i | 1 <= i <= j && i < |X| :: EmptiesBlock(c, X[i], k)
  }

  // The master's buffer while the request is sent.
  lemma {:induction false} BlockDuring(c: W.Config, evs: seq<W.Event>, J: seq<Joint>, M: seq<Sys>, X: seq<Input>, t0: nat,
                                       n: nat, d: nat, k: nat, j: nat)
    requires DeliveryRun(c, evs, J, M, X, t0, n, d) && k < c.bufBlocks && j <= 2 * c.nodes[n].comBlocks + 9
    ensures j < |M| && |M[0].parties| >= 1 && |M[j].parties| >= 1 && |Cs(M[0]).mem.cmdBuf| == |Cs(M[j]).mem.cmdBuf| == c.bufBlocks
    ensures Cs(M[j]).mem.cmdBuf[k] == if EmptiedBy(c, X, k, j) then 0 else Cs(M[0]).mem.cmdBuf[k]
    decreases j
  {
    hide DeliveryRun, Recorded, JointTick, BusyAt, EmptiesBlock;
    DeliveryTimes(c, evs, J, M, X, t0, n, d);
    var more := BufferBetween(c, evs, J, M, X, t0, n, d, if j == 0 then 0 else j - 1);
    if j > 0 {
      BlockDuring(c, evs, J, M, X, t0, n, d, k, j - 1);
      RunTick(c, evs, J, M, X, t0, n, d, j);
      assert BusyAt(SysOf(J)[j]);
      BusyBlock(c, more, J[j], M[j], X[j], J[j + 1], t0 + j, k);
    }
  }

  // What arrives of a word that the buffer held in block k when the exchange was armed: nothing if the block
  // is emptied before its first byte is sent, and the low byte alone if it is emptied just before the second.
  function Arrives(c: W.Config, X: seq<Input>, k: nat, w: word): word {
    if EmptiedBy(c, X, k, 3 + 2 * k) then 0 else if EmptiedBy(c, X, k, 4 + 2 * k) then w % 256 else w
  }

  lemma BufferByte(p: Party, k: nat, b: nat)
    requires p.ctl.flag == CMD_REQ && CmdFrameBlocks(p) == b && k < b <= |p.mem.cmdBuf|
    ensures PayloadByte(p, 2 * k) == p.mem.cmdBuf[k] % 256 && PayloadByte(p, 2 * k + 1) == p.mem.cmdBuf[k] / 256
  {
    assert (2 * k) / 2 == k && (2 * k + 1) / 2 == k && (2 * k) % 2 == 0 && (2 * k + 1) % 2 == 1;
    hide FrameBlocks;
  }

  // The master in tick j of the request sends from its buffer.
  lemma SendingTick(c: W.Config, evs: seq<W.Event>, J: seq<Joint>, M: seq<Sys>, X: seq<Input>, t0: nat, n: nat, d: nat, j: nat)
    requires DeliveryRun(c, evs, J, M, X, t0, n, d) && 1 <= j < 4 + 2 * c.nodes[n].comBlocks
    ensures j < |M| && |M[j].parties| >= 1 && Cs(M[j]).ctl.flag == CMD_REQ && CmdFrameBlocks(Cs(M[j])) == c.nodes[n].comBlocks
  {
    hide *;
    DeliveryLength(c, evs, J, M, X, t0, n, d);
    DeliveryIsExchange(c, evs, J, M, X, t0, n, d);
    ExchangeStarts(SysOf(J), M, c.rows, t0, d, c.nodes[n].comBlocks);
    FrameIs(c.nodes[n].comBlocks);
    Sender(SysOf(J), M, c.rows, t0, j);
    SameFrame(Cs(M[0]), Cs(M[j]));
  }

  lemma ExchangeStarts(S: seq<Sys>, M: seq<Sys>, rows: seq<Row>, t0: nat, d: nat, b: nat)
    requires FullExchange(S, M, rows, t0, d, b, 0)
    ensures StartsExchange(S, M, rows, t0)
  {
    hide StartsExchange, Addressee, CalcNBlocks;
  }

  lemma FrameIs(b: nat)
    ensures FrameLength(b) == 4 + 2 * b
  {
  }

  lemma SameFrame(p: Party, q: Party)
    requires q.win == p.win && SameSizes(p.mem, q.mem)
    ensures CmdFrameBlocks(q) == CmdFrameBlocks(p)
  {
  }

  lemma SentBlockIs(c: W.Config, evs: seq<W.Event>, J: seq<Joint>, M: seq<Sys>, X: seq<Input>, t0: nat, n: nat, d: nat, k: nat)
    requires DeliveryRun(c, evs, J, M, X, t0, n, d) && k < c.nodes[n].comBlocks <= c.bufBlocks
    ensures |M[0].parties| >= 1 && |Cs(M[0]).mem.cmdBuf| == c.bufBlocks
    ensures SentBlock(M, k) == Arrives(c, X, k, Cs(M[0]).mem.cmdBuf[k])
  {
    hide DeliveryRun, EmptiedBy, FrameBlocks, CmdFrameBlocks, PayloadByte;
    DeliveryLength(c, evs, J, M, X, t0, n, d);
    BlockDuring(c, evs, J, M, X, t0, n, d, k, 3 + 2 * k);
    BlockDuring(c, evs, J, M, X, t0, n, d, k, 4 + 2 * k);
    SendingTick(c, evs, J, M, X, t0, n, d, 3 + 2 * k);
    SendingTick(c, evs, J, M, X, t0, n, d, 4 + 2 * k);
    BufferByte(Cs(M[3 + 2 * k]), k, c.nodes[n].comBlocks);
    BufferByte(Cs(M[4 + 2 * k]), k, c.nodes[n].comBlocks);
    LaterEmptied(c, X, k, 3 + 2 * k);
    assert PayloadAt(M, 0, 3, 2 * k) == PayloadByte(M[3 + 2 * k].parties[0], 2 * k);
    assert 3 + (2 * k + 1) == 4 + 2 * k;
    assert PayloadAt(M, 0, 3, 2 * k + 1) == PayloadByte(M[4 + 2 * k].parties[0], 2 * k + 1);
  }

  lemma LaterEmptied(c: W.Config, X: seq<Input>, k: nat, j: nat)
    ensures EmptiedBy(c, X, k, j) ==> EmptiedBy(c, X, k, j + 1)
  {
  }

  // --- fields ------------------------------------------------------------------------------

  // What a field keeps when only the low byte of its block arrives.
  function Torn(f: Field, v: nat): nat { if f.offset >= 8 then 0 else if f.width == 16 then v % 256 else v }

  lemma TornField(f: Field, w: word)
    requires LayoutSupported(f.width, f.offset)
    ensures Extract(w % 256, f.offset, f.width) == Torn(f, Extract(w, f.offset, f.width))
  {
    hide Extract;
    LowByteAlone(w);
    if f.width == 1 {
      LowBit(w, f.offset);
    } else if f.width == 16 {
      ByteSlices(w, 0, 16);
      ByteSlices(w % 256, 0, 16);
    } else {
      ByteSlices(w, f.offset, 8);
      ByteSlices(w % 256, f.offset, 8);
    }
  }

  lemma LowByteAlone(w: nat)
    ensures w % 256 % 256 == w % 256 && w % 256 / 256 == 0
  {
  }

  lemma LowBit(w: nat, i: nat)
    ensures Extract(w % 256, i, 1) == if i < 8 then Extract(w, i, 1) else 0
  {
    hide Bit;
    assert Pow2(8) == 256 by { Pow2Values(); }
    LowBits(w, 8);
    BitOfExtract(w, 0, 8, i);
    OneBit(w, i);
    OneBit(w % 256, i);
  }

  lemma OneBit(w: nat, i: nat)
    ensures Extract(w, i, 1) == Bit(w, i)
  {
    hide Bit;
    assert Extract(w, i + 1, 0) == 0;
  }

  lemma EmptyField(f: Field)
    requires LayoutSupported(f.width, f.offset)
    ensures Extract(0, f.offset, f.width) == 0
  {
    W.ExtractZero(f.offset, f.width);
  }

  // What a field delivers of the value v that the master was armed with for it.
  function Delivered(c: W.Config, X: seq<Input>, f: Field, v: nat): nat {
    if EmptiedBy(c, X, f.block, 3 + 2 * f.block) then 0
    else if EmptiedBy(c, X, f.block, 4 + 2 * f.block) then Torn(f, v) else v
  }

  // With a single cancellation that reaches the block, in tick j: in time it leaves nothing, late it changes
  // nothing, and in the one tick between the two bytes of the block it tears the word.
  lemma OneCancellation(c: W.Config, X: seq<Input>, f: Field, v: nat, j: nat)
    requires 1 <= j < |X| && forall i | 1 <= i < |X| :: EmptiesBlock(c, X[i], f.block) <==> i == j
    ensures Delivered(c, X, f, v) == if j <= 3 + 2 * f.block then 0 else if j == 4 + 2 * f.block then Torn(f, v) else v
  {
    hide EmptiesBlock, Torn;
    assert EmptiesBlock(c, X[j], f.block);
  }

  lemma DeliveredWord(c: W.Config, X: seq<Input>, f: Field, w: word)
    requires LayoutSupported(f.width, f.offset)
    ensures Extract(Arrives(c, X, f.block, w), f.offset, f.width) == Delivered(c, X, f, Extract(w, f.offset, f.width))
  {
    hide EmptiedBy, Extract, Torn;
    TornField(f, w);
    EmptyField(f);
  }

  lemma SentField(c: W.Config, evs: seq<W.Event>, J: seq<Joint>, M: seq<Sys>, X: seq<Input>, t0: nat, n: nat, d: nat, f: Field)
    requires DeliveryRun(c, evs, J, M, X, t0, n, d) && c.nodes[n].comBlocks <= c.bufBlocks && f.Fits(c.nodes[n].comBlocks)
    ensures |M[0].parties| >= 1 && |Cs(M[0]).mem.cmdBuf| == c.bufBlocks
    ensures Get(SentBlocks(M, c.nodes[n].comBlocks), f) == Delivered(c, X, f, Get(Cs(M[0]).mem.cmdBuf, f))
  {
    hide DeliveryRun, SentBlock, Arrives, Delivered, Extract;
    DeliveryLength(c, evs, J, M, X, t0, n, d);
    SentBlockIs(c, evs, J, M, X, t0, n, d, f.block);
    DeliveredWord(c, X, f, Cs(M[0]).mem.cmdBuf[f.block]);
    assert SentBlocks(M, c.nodes[n].comBlocks)[f.block] == SentBlock(M, f.block);
  }

  // Delivery: whatever is cancelled while the request is sent, the device merges for a field exactly what
  // that leaves of the value v the master was armed with for it, and the exchange succeeds.
  lemma FieldIsDelivered(c: W.Config, evs: seq<W.Event>, J: seq<Joint>, M: seq<Sys>, X: seq<Input>, t0: nat, n: nat, d: nat,
                         i: nat, v: nat)
    requires DeliveryRun(c, evs, J, M, X, t0, n, d) && W.ConfigOk(c) && W.FieldOf(c, n, i)
    requires ArmedValue(M, c.rows[i].DeviceField(), v)
    ensures FieldMerged(PartyAt(M, 4 + 2 * c.nodes[n].comBlocks, d), PartyAt(SysOf(J), 5 + 2 * c.nodes[n].comBlocks, d),
                        c.nodes[n], c.rows[i].DeviceField(), Delivered(c, X, c.rows[i].DeviceField(), v))
    ensures SucceededAt(SysOf(J), 2 * c.nodes[n].comBlocks + 10)
  {
    hide *;
    DeliveryLength(c, evs, J, M, X, t0, n, d);
    DeliveryTimes(c, evs, J, M, X, t0, n, d);
    DeliveryIsExchange(c, evs, J, M, X, t0, n, d);
    FieldParts(c, n, i);
    RequestSends(c, evs, J, M, X, t0, n, d);
    SentIsMerged(SysOf(J), M, t0, c.rows, c.nodes[n], d, i);
    SentField(c, evs, J, M, X, t0, n, d, c.rows[i].DeviceField());
    ArmedValueIs(M, c.rows[i].DeviceField(), v);
  }

  // The master's buffer holds v for the field when the exchange is armed.
  predicate ArmedValue(M: seq<Sys>, f: Field, v: nat) {
    |M| >= 1 && |M[0].parties| >= 1 && f.Fits(|Cs(M[0]).mem.cmdBuf|) && Get(Cs(M[0]).mem.cmdBuf, f) == v
  }

  lemma ArmedValueIs(M: seq<Sys>, f: Field, v: nat)
    requires ArmedValue(M, f, v)
    ensures |M| >= 1 && |M[0].parties| >= 1 && f.Fits(|Cs(M[0]).mem.cmdBuf|) && Get(Cs(M[0]).mem.cmdBuf, f) == v
  {
    hide Get;
  }

  lemma FieldParts(c: W.Config, n: nat, i: nat)
    requires W.ConfigOk(c) && W.FieldOf(c, n, i)
    ensures n < |c.nodes| && 1 <= c.nodes[n].comBlocks <= c.bufBlocks && i < |c.rows| && c.rows[i].sysId == c.nodes[n].systemId
    ensures DisjointRows(c.rows, c.nodes[n].systemId, c.nodes[n].comBlocks)
    ensures c.rows[i].DeviceField().Fits(c.nodes[n].comBlocks)
  {
    W.FieldFits(c, n, i);
    W.FitsAll(c, n);
    hide W.ConfigOk, DisjointRows;
  }

  lemma RequestSends(c: W.Config, evs: seq<W.Event>, J: seq<Joint>, M: seq<Sys>, X: seq<Input>, t0: nat, n: nat, d: nat)
    requires DeliveryRun(c, evs, J, M, X, t0, n, d) && c.nodes[n].comBlocks >= 1
    ensures SendsCommands(M, c.nodes[n]) && d < |M[0].parties| && Mirrors(M[0].parties[d], c.nodes[n])
  {
    DeliveryIsExchange(c, evs, J, M, X, t0, n, d);
    hide Recorded, JointTick, Coupled, ArmsCommand, Mirrors, CmdFrameBlocks, CalcNBlocks, FullExchange;
  }

  // --- what the master is armed with -------------------------------------------------------

  // For a field that no cancellation has harmed it is the latest value.
  lemma ArmedWithLatest(c: W.Config, evs: seq<W.Event>, j: Joint, m: Sys, x: Input, v: Joint, t: nat, n: nat, i: nat)
    requires Recorded(c, evs, j) && Coupled(j.world, Quiet) && ArmsCommand(c, j, m, x, v, t, n)
    requires Unharmed(c, evs + TickEvents(c, j, x), n, i)
    ensures ArmedValue([m], c.rows[i].DeviceField(), LatestOf(c, evs + TickEvents(c, j, x), n, i))
  {
    hide JointTick, Coupled, TickEvents, W.Harmless, W.Latest, W.WiresAt, F.FlightOf, F.Sound, Get;
    var more := evs + TickEvents(c, j, x);
    TickMoves(c, evs, j, m, x, v, Quiet, t);
    TickKeepsCommands(c, j, m, x, v, Quiet, t);
    ArmsUndoomed(c, j, m, x, v, t, n);
    W.PendingRefinesLatest(c, more, |more|, n, i);
    assert W.HoldsLatest(c, more, |more|, n, i);
    W.FieldFits(c, n, i);
  }

  // The command area that the tick's arming takes the values from.
  ghost function AreaArmed(c: W.Config, j: Joint, x: Input): seq<word>
    requires |j.world.sys.parties| >= 1
  {
    W.Written(c.rows, WiresAfter(c, WiresOf(Cs(j.world.sys), j.pending), j.world.sched, x.steps, |x.steps|).cmd, x.own)
  }

  // The windows and the scheduler when control takes its turn.
  lemma BeforeTurn(c: W.Config, evs: seq<W.Event>, j: Joint, m: Sys, x: Input, v: Joint, t: nat)
    returns (more: seq<W.Event>)
    requires Recorded(c, evs, j) && Coupled(j.world, Quiet) && JointTick(c, j, m, x, v, t)
    ensures F.Follows(c, more, AfterSteps(j, x)) && F.StepOk(AfterSteps(j, x), TurnOf(j, x))
    ensures F.StepFits(c, AfterSteps(j, x), TurnOf(j, x))
    ensures W.WiresAt(c, more, |more|) == WiresAfter(c, WiresOf(Cs(j.world.sys), j.pending), j.world.sched, x.steps, |x.steps|)
    ensures F.StepSched(AfterSteps(j, x), TurnOf(j, x)) == v.world.sched && |c.nodes| == NODE_COUNT && !Cs(j.world.sys).ctl.busy
  {
    hide Coupled, TickOf, F.OwnOfNode, W.WiresAt, Moved, WiresAfter, W.Run, F.Events, F.RunSteps, F.StepsOk, Inv, F.StepEvent,
         F.StepOk, F.StepSched;
    QuietFree(j.world);
    ResultWaits(c, j, m, x, v, Quiet, t);
    StepsMove(c, evs, j.world.sched, x.steps, |x.steps|);
    more := evs + F.Events(c, j.world.sched, x.steps, |x.steps|);
  }

  lemma QuietFree(w: World)
    requires Coupled(w, Quiet)
    ensures |w.sys.parties| >= 1 && !Cs(w.sys).ctl.busy
  {
    BusyIffNotQuiet(w.sys, Quiet);
    hide InPhase, Inv;
  }

  // Arming for n is the event of control, and nothing was in flight before.
  lemma TurnArms(c: W.Config, evs: seq<W.Event>, s: Sched, st: F.Step, n: nat)
    requires F.Follows(c, evs, s) && F.StepOk(s, st) && st.Turn? && s.active == None
    requires F.FlightOf(F.StepSched(s, st)).InFlight? && F.FlightOf(F.StepSched(s, st)).node == n
    ensures EventOf(s, st) == Some(W.Arm(n, st.own)) && F.FlightOf(s) == W.Grounded
  {
    var e := F.EventSound(s, st);
    hide F.StepSched, Inv, W.Run;
  }

  lemma ArmingMoves(c: W.Config, w: W.Wires, n: nat, own: Option<W.Own>)
    requires W.ConfigOk(c) && W.Shaped(c, w) && W.EventFits(c, W.Arm(n, own))
    ensures Moved(c, w, W.Grounded, Some(W.Arm(n, own))) == W.ArmWindows(w, c.rows, c.nodes[n], n, W.Written(c.rows, w.cmd, own))
  {
    hide W.ConfigOk, W.ArmWindows, W.Written;
  }

  lemma StepsStay(c: W.Config, j: Joint, m: Sys, x: Input, v: Joint, t: nat)
    requires Coupled(j.world, Quiet) && JointTick(c, j, m, x, v, t)
    ensures AfterSteps(j, x).active == j.world.sched.active
  {
    StepsAreOps(j.world.sched, x.steps, |x.steps|);
    AfterOpsOk(j.world, m, Ops(x), v.world, c.rows, c.nodes, t);
    hide InPhase, Inv, Tick, App, FreeMaster, WindowsAfter, F.StepsOk, F.OwnOfNode, RunOps, NextSched;
  }

  // The buffer after arming.
  lemma ArmedBufferIs(c: W.Config, evs: seq<W.Event>, j: Joint, m: Sys, x: Input, v: Joint, t: nat, n: nat)
    returns (w: W.Wires)
    requires Recorded(c, evs, j) && Coupled(j.world, Quiet) && ArmsCommand(c, j, m, x, v, t, n)
    ensures W.ConfigOk(c) && W.Shaped(c, w) && n < |c.nodes| && |m.parties| >= 1 && |j.world.sys.parties| >= 1
    ensures AreaArmed(c, j, x) == W.Written(c.rows, w.cmd, x.own)
    ensures Cs(m).mem.cmdBuf == W.ArmWindows(w, c.rows, c.nodes[n], n, AreaArmed(c, j, x)).buf
  {
    hide TickOf, InputOk, Coupled, F.FlightOf, F.StepSched, F.StepOk, F.StepFits, WiresAfter, W.Written, W.ArmWindows, W.WiresAt,
         EventOf, Moved, W.ConfigOk, W.Shaped, F.Sound, Reached, AfterSteps, W.EventFits;
    var more := BeforeTurn(c, evs, j, m, x, v, t);
    w := W.WiresAt(c, more, |more|);
    StepsStay(c, j, m, x, v, t);
    TurnArms(c, more, AfterSteps(j, x), TurnOf(j, x), n);
    FollowsRun(c, more, AfterSteps(j, x));
    TurnFits(c, more, AfterSteps(j, x), TurnOf(j, x));
    assert W.ConfigOk(c) by { RunConfig(c, more); }
    NodeOfArm(c, n, x.own);
    ArmingMoves(c, w, n, x.own);
  }

  lemma NodeOfArm(c: W.Config, n: nat, own: Option<W.Own>)
    requires W.EventFits(c, W.Arm(n, own))
    ensures n < |c.nodes|
  {
  }

  lemma RunConfig(c: W.Config, evs: seq<W.Event>)
    requires W.Run(c, evs)
    ensures W.ConfigOk(c)
  {
    hide W.ConfigOk;
  }

  lemma TurnFits(c: W.Config, evs: seq<W.Event>, s: Sched, st: F.Step)
    requires F.Follows(c, evs, s) && F.StepFits(c, s, st) && |c.nodes| == NODE_COUNT
    ensures EventOf(s, st).Some? ==> W.EventFits(c, EventOf(s, st).value)
  {
    F.EventFitsConfig(c, s, st);
    hide Inv, W.Run, W.EventFits, F.StepFits, F.StepEvent;
  }

  // A field commanded in that area is armed, whatever was pending or cancelled before.
  lemma ArmedWithCommand(c: W.Config, evs: seq<W.Event>, j: Joint, m: Sys, x: Input, v: Joint, t: nat, n: nat, i: nat)
    requires Recorded(c, evs, j) && Coupled(j.world, Quiet) && ArmsCommand(c, j, m, x, v, t, n) && W.FieldOf(c, n, i)
    requires W.Seen(c, AreaArmed(c, j, x), i) != 0
    ensures ArmedValue([m], c.rows[i].DeviceField(), W.Seen(c, AreaArmed(c, j, x), i))
  {
    hide Recorded, ArmsCommand, Coupled, AreaArmed, W.ArmWindows, W.Written, W.Seen, Get, W.ConfigOk;
    var w := ArmedBufferIs(c, evs, j, m, x, v, t, n);
    var own := AreaArmed(c, j, x);
    W.ArmField(c, w, n, own, i);
    W.FieldFits(c, n, i);
    ArmKeepsSizes(w, c.rows, c.nodes[n], n, own);
  }

  // --- anywhere in a run from reset --------------------------------------------------------

  // Tick a arms a command exchange with node n, device d is there for it, and the run is long enough for it
  // to end.
  ghost predicate Delivers(c: W.Config, J: seq<Joint>, M: seq<Sys>, X: seq<Input>, t0: nat, a: nat, n: nat, d: nat) {
    && |J| == |M| + 1 && |X| == |M| && a < |M| && ArmsCommand(c, J[a], M[a], X[a], J[a + 1], t0 + a, n)
    && n < |c.nodes| && |M| >= a + 2 * c.nodes[n].comBlocks + 10
    && |M[a].parties| >= 1 && d == FindDevice(M[a].parties, Cs(M[a]).targetAddr, |M[a].parties|) != 0
    && Mirrors(M[a].parties[d], c.nodes[n])
  }

  lemma JointSuffix(c: W.Config, J: seq<Joint>, M: seq<Sys>, X: seq<Input>, t0: nat, a: nat)
    requires IsJointRun(c, J, M, X, t0) && a <= |M|
    ensures IsJointRun(c, J[a..], M[a..], X[a..], t0 + a)
  {
    hide JointTick;
    forall j | 0 <= j < |M[a..]| ensures JointTick(c, J[a..][j], M[a..][j], X[a..][j], J[a..][j + 1], t0 + a + j) {
      assert JointTick(c, J[a + j], M[a + j], X[a + j], J[a + j + 1], t0 + (a + j));
    }
  }

  lemma SuffixDelivers(c: W.Config, J: seq<Joint>, M: seq<Sys>, X: seq<Input>, t0: nat, a: nat, n: nat, d: nat)
    requires IsJointRun(c, J, M, X, t0) && Begins(c, J[0]) && Delivers(c, J, M, X, t0, a, n, d)
    ensures DeliveryRun(c, History(c, J, X, a), J[a..], M[a..], X[a..], t0 + a, n, d)
  {
    hide *;
    DeliversParts(c, J, M, X, t0, a, n, d);
    var ph := HistoryLeads(c, J, M, X, t0, a);
    ArmsFromQuiet(c, J[a], M[a], X[a], J[a + 1], ph, t0 + a, n);
    JointSuffix(c, J, M, X, t0, a);
    SuffixRun(c, J, M, X, t0, a, n, d);
  }

  lemma DeliversParts(c: W.Config, J: seq<Joint>, M: seq<Sys>, X: seq<Input>, t0: nat, a: nat, n: nat, d: nat)
    requires Delivers(c, J, M, X, t0, a, n, d)
    ensures |J| == |M| + 1 && |X| == |M| && n < |c.nodes| && a + 2 * c.nodes[n].comBlocks + 10 <= |M|
    ensures ArmsCommand(c, J[a], M[a], X[a], J[a + 1], t0 + a, n)
  {
    hide ArmsCommand, FindDevice, Mirrors;
  }

  lemma SuffixRun(c: W.Config, J: seq<Joint>, M: seq<Sys>, X: seq<Input>, t0: nat, a: nat, n: nat, d: nat)
    requires Delivers(c, J, M, X, t0, a, n, d) && Coupled(J[a].world, Quiet) && Recorded(c, History(c, J, X, a), J[a])
    requires IsJointRun(c, J[a..], M[a..], X[a..], t0 + a)
    ensures DeliveryRun(c, History(c, J, X, a), J[a..], M[a..], X[a..], t0 + a, n, d)
  {
    hide IsJointRun, Coupled, ArmsCommand, FindDevice, Mirrors, Recorded, History;
  }

  lemma SuffixParty(J: seq<Joint>, M: seq<Sys>, a: nat, b: nat, d: nat)
    requires |J| == |M| + 1 && a + b + 10 <= |M|
    ensures PartyAt(M[a..], 4 + b, d) == PartyAt(M, a + 4 + b, d)
    ensures PartyAt(SysOf(J[a..]), 5 + b, d) == PartyAt(SysOf(J), a + 5 + b, d)
    ensures SucceededAt(SysOf(J[a..]), b + 10) ==> SucceededAt(SysOf(J), a + b + 10)
  {
  }

  // What device d has merged of a field at the end of the request that tick a arms.
  ghost predicate MergedIn(c: W.Config, J: seq<Joint>, M: seq<Sys>, X: seq<Input>, a: nat, n: nat, d: nat, i: nat, v: nat) {
    n < |c.nodes| && i < |c.rows| && a <= |X|
    && FieldMerged(PartyAt(M, a + 4 + 2 * c.nodes[n].comBlocks, d), PartyAt(SysOf(J), a + 5 + 2 * c.nodes[n].comBlocks, d),
                   c.nodes[n], c.rows[i].DeviceField(), Delivered(c, X[a..], c.rows[i].DeviceField(), v))
    && SucceededAt(SysOf(J), a + 2 * c.nodes[n].comBlocks + 10)
  }

  lemma ArmedIsMerged(c: W.Config, J: seq<Joint>, M: seq<Sys>, X: seq<Input>, t0: nat, a: nat, n: nat, d: nat, i: nat, v: nat)
    requires IsJointRun(c, J, M, X, t0) && Begins(c, J[0]) && Delivers(c, J, M, X, t0, a, n, d)
    requires W.ConfigOk(c) && W.FieldOf(c, n, i) && ArmedValue([M[a]], c.rows[i].DeviceField(), v)
    ensures MergedIn(c, J, M, X, a, n, d, i, v)
  {
    hide IsJointRun, Begins, FieldMerged, ArmsCommand, Mirrors, FindDevice, DeliveryRun, W.ConfigOk, ArmedValue, Delivered, PartyAt,
         SucceededAt, History;
    SuffixDelivers(c, J, M, X, t0, a, n, d);
    SameArmed(M, a, c.rows[i].DeviceField(), v);
    FieldIsDelivered(c, History(c, J, X, a), J[a..], M[a..], X[a..], t0 + a, n, d, i, v);
    SuffixParty(J, M, a, 2 * c.nodes[n].comBlocks, d);
  }

  lemma SameArmed(M: seq<Sys>, a: nat, f: Field, v: nat)
    requires a < |M| && ArmedValue([M[a]], f, v)
    ensures ArmedValue(M[a..], f, v)
  {
    hide Get;
  }

  // In every run of bus, scheduler and windows from reset, whatever is queued, cancelled, staged and answered
  // on the way: a command exchange delivers to the device, field by field, exactly the latest nonzero value
  // commanded and not yet delivered or cancelled, or what a cancellation during the request leaves of it.
  lemma DeviceGetsLatest(c: W.Config, J: seq<Joint>, M: seq<Sys>, X: seq<Input>, t0: nat, a: nat, n: nat, d: nat, i: nat)
    requires IsJointRun(c, J, M, X, t0) && Begins(c, J[0]) && Delivers(c, J, M, X, t0, a, n, d)
    requires Unharmed(c, History(c, J, X, a + 1), n, i)
    ensures MergedIn(c, J, M, X, a, n, d, i, LatestOf(c, History(c, J, X, a + 1), n, i))
  {
    hide *;
    DeliversParts(c, J, M, X, t0, a, n, d);
    var ph := HistoryLeads(c, J, M, X, t0, a);
    ArmsFromQuiet(c, J[a], M[a], X[a], J[a + 1], ph, t0 + a, n);
    OneMoreTick(c, J, X, a);
    UnharmedParts(c, History(c, J, X, a + 1), n, i);
    ArmedWithLatest(c, History(c, J, X, a), J[a], M[a], X[a], J[a + 1], t0 + a, n, i);
    ArmedIsMerged(c, J, M, X, t0, a, n, d, i, LatestOf(c, History(c, J, X, a + 1), n, i));
  }

  lemma OneMoreTick(c: W.Config, J: seq<Joint>, X: seq<Input>, a: nat)
    requires a < |J| && a < |X|
    ensures a + 1 <= |J| && a + 1 <= |X| && History(c, J, X, a + 1) == History(c, J, X, a) + TickEvents(c, J[a], X[a])
  {
    hide TickEvents;
  }

  lemma UnharmedParts(c: W.Config, evs: seq<W.Event>, n: nat, i: nat)
    requires Unharmed(c, evs, n, i)
    ensures W.ConfigOk(c) && W.FieldOf(c, n, i)
  {
    hide W.ConfigOk, W.Harmless;
  }

  // --- from setting a value to reading it --------------------------------------------------

  // The field arrives whole: nothing empties its block before its last byte is sent.
  predicate Untouched(c: W.Config, X: seq<Input>, a: nat, f: Field) { a <= |X| && !EmptiedBy(c, X[a..], f.block, 4 + 2 * f.block) }

  lemma UntouchedIsWhole(c: W.Config, X: seq<Input>, a: nat, f: Field, v: nat)
    requires Untouched(c, X, a, f)
    ensures a <= |X| && Delivered(c, X[a..], f, v) == v
  {
    LaterEmptied(c, X[a..], f.block, 3 + 2 * f.block);
    hide EmptiedBy;
  }

  lemma MergedWholeIsRead(c: W.Config, J: seq<Joint>, M: seq<Sys>, X: seq<Input>, a: nat, n: nat, d: nat, i: nat,
                          t: P.Tables, id: nat, x: real, root: real)
    requires c.rows == t.comms && Commandable(t, id, x, root) && id == |t.params| + i && i < |c.rows|
    requires n < |c.nodes| && t.CommRow(id).sysId == c.nodes[n].systemId && Untouched(c, X, a, t.CommRow(id).DeviceField())
    requires MergedIn(c, J, M, X, a, n, d, i, P.Pattern(t.CommRow(id), x, root))
    ensures Reads(PartyAt(SysOf(J), a + 5 + 2 * c.nodes[n].comBlocks, d), t, id, x, root)
  {
    hide C.Accepts, C.RootOk, P.Pattern, FieldMerged, PartyAt, Reads, Delivered, Untouched, SucceededAt;
    UntouchedIsWhole(c, X, a, c.rows[i].DeviceField(), P.Pattern(t.CommRow(id), x, root));
    MergedIsRead(PartyAt(M, a + 4 + 2 * c.nodes[n].comBlocks, d), PartyAt(SysOf(J), a + 5 + 2 * c.nodes[n].comBlocks, d),
                 c.nodes[n], t, id, x, root);
  }

  // The identifier is a command of node n's system, row i of the table.
  predicate CommandOf(c: W.Config, n: nat, t: P.Tables, id: nat, x: real, root: real, i: nat) {
    && c.rows == t.comms && n < |c.nodes| && Commandable(t, id, x, root) && id == |t.params| + i && i < |c.rows|
    && t.CommRow(id).sysId == c.nodes[n].systemId
  }

  // If the latest value is the pattern of x, staged now or still pending, the device reads x quantised.
  lemma LatestIsRead(c: W.Config, J: seq<Joint>, M: seq<Sys>, X: seq<Input>, t0: nat, a: nat, n: nat, d: nat, i: nat,
                     t: P.Tables, id: nat, x: real, root: real)
    requires IsJointRun(c, J, M, X, t0) && Begins(c, J[0]) && Delivers(c, J, M, X, t0, a, n, d)
    requires CommandOf(c, n, t, id, x, root, i) && Untouched(c, X, a, t.CommRow(id).DeviceField())
    requires Unharmed(c, History(c, J, X, a + 1), n, i) && LatestOf(c, History(c, J, X, a + 1), n, i) == P.Pattern(t.CommRow(id), x, root)
    ensures Reads(PartyAt(SysOf(J), a + 5 + 2 * c.nodes[n].comBlocks, d), t, id, x, root)
  {
    hide IsJointRun, Begins, Delivers, Commandable, Untouched, Unharmed, LatestOf, MergedIn, Reads, P.Pattern, History;
    DeviceGetsLatest(c, J, M, X, t0, a, n, d, i);
    MergedWholeIsRead(c, J, M, X, a, n, d, i, t, id, x, root);
  }

  // If the area holds the pattern of x when the exchange is armed, the device reads x quantised, whatever
  // was pending, failed or was cancelled before.
  lemma CommandedIsRead(c: W.Config, J: seq<Joint>, M: seq<Sys>, X: seq<Input>, t0: nat, a: nat, n: nat, d: nat, i: nat,
                        t: P.Tables, id: nat, x: real, root: real)
    requires IsJointRun(c, J, M, X, t0) && Begins(c, J[0]) && Delivers(c, J, M, X, t0, a, n, d)
    requires CommandOf(c, n, t, id, x, root, i) && Untouched(c, X, a, t.CommRow(id).DeviceField())
    requires |J[a].world.sys.parties| >= 1 && Commands(AreaArmed(c, J[a], X[a]), t, id, x, root)
    ensures Reads(PartyAt(SysOf(J), a + 5 + 2 * c.nodes[n].comBlocks, d), t, id, x, root)
  {
    hide *;
    DeliversParts(c, J, M, X, t0, a, n, d);
    var ph := HistoryLeads(c, J, M, X, t0, a);
    ArmsFromQuiet(c, J[a], M[a], X[a], J[a + 1], ph, t0 + a, n);
    RecordedConfig(c, History(c, J, X, a), J[a]);
    CommandIsField(c, n, AreaArmed(c, J[a], X[a]), t, id, x, root, i);
    ArmedWithCommand(c, History(c, J, X, a), J[a], M[a], X[a], J[a + 1], t0 + a, n, i);
    ArmedIsMerged(c, J, M, X, t0, a, n, d, i, W.Seen(c, AreaArmed(c, J[a], X[a]), i));
    MergedWholeIsRead(c, J, M, X, a, n, d, i, t, id, x, root);
  }

  lemma RecordedConfig(c: W.Config, evs: seq<W.Event>, j: Joint)
    requires Recorded(c, evs, j)
    ensures W.ConfigOk(c)
  {
    FollowsRun(c, evs, j.world.sched);
    RunConfig(c, evs);
    hide F.Follows, W.WiresAt;
  }

  lemma CommandIsField(c: W.Config, n: nat, area: seq<word>, t: P.Tables, id: nat, x: real, root: real, i: nat)
    requires CommandOf(c, n, t, id, x, root, i) && Commands(area, t, id, x, root)
    ensures W.FieldOf(c, n, i) && i < |c.rows| && t.IsComm(id) && t.CommRow(id).Width() > 0 && C.Accepts(t.CommRow(id), x)
    ensures c.rows == t.comms && Commandable(t, id, x, root) && id == |t.params| + i && t.CommRow(id).sysId == c.nodes[n].systemId
    ensures W.Seen(c, area, i) == P.Pattern(t.CommRow(id), x, root) != 0
  {
    hide C.Accepts, C.RootOk, P.Pattern, Get;
  }

  // The last thing the software does before control is to set the identifier to x, and the task armed has no
  // command of its own.
  ghost predicate SetsValue(c: W.Config, j: Joint, x: Input, t: P.Tables, id: nat, v: real, root: real) {
    && |x.steps| > 0 && x.own == None && |j.world.sys.parties| >= 1
    && var p, last := Cs(j.world.sys), |x.steps| - 1;
    && var area := WiresAfter(c, WiresOf(p, j.pending), j.world.sched, x.steps, last).cmd;
    && x.steps[last] == F.Write(P.SetValue(P.Context(P.CsSide, SYS_CS, p.mem.prm, area), t, id, v, root).0.cmd)
  }

  // Or the task armed sets it itself.
  ghost predicate OwnsValue(c: W.Config, j: Joint, x: Input, t: P.Tables, id: nat, v: real, root: real, i: nat) {
    && |j.world.sys.parties| >= 1 && t.IsComm(id) && t.CommRow(id).Width() > 0 && C.Accepts(t.CommRow(id), v)
    && x.own == Some(W.Own(i, P.Pattern(t.CommRow(id), v, root)))
  }

  lemma WriteMoves(c: W.Config, evs: seq<W.Event>, j: Joint, x: Input)
    requires Recorded(c, evs, j) && InputOk(c, j, x) && |x.steps| > 0 && x.steps[|x.steps| - 1].Write?
    ensures W.ConfigOk(c) && W.Shaped(c, WiresAfter(c, WiresOf(Cs(j.world.sys), j.pending), j.world.sched, x.steps, |x.steps| - 1))
    ensures WiresAfter(c, WiresOf(Cs(j.world.sys), j.pending), j.world.sched, x.steps, |x.steps|).cmd == x.steps[|x.steps| - 1].cmd
  {
    hide F.StepsOk, F.OwnOfNode, F.Events, W.WiresAt, W.Run, F.RunSteps, Inv, W.ConfigOk, W.Shaped, F.FlightOf;
    var last, s := |x.steps| - 1, j.world.sched;
    StepsMove(c, evs, s, x.steps, last);
    var more := evs + F.Events(c, s, x.steps, last);
    LastWrite(c, more, s, x.steps, last);
    RunConfig(c, more);
  }

  lemma LastWrite(c: W.Config, evs: seq<W.Event>, s: Sched, steps: seq<F.Step>, n: nat)
    requires n < |steps| && steps[n].Write? && F.StepsOk(c, s, steps) && F.Follows(c, evs, F.RunSteps(s, steps, n))
    ensures W.Run(c, evs) && W.Shaped(c, W.WiresAt(c, evs, |evs|))
    ensures Moved(c, W.WiresAt(c, evs, |evs|), F.FlightOf(F.RunSteps(s, steps, n)), EventOf(F.RunSteps(s, steps, n), steps[n])).cmd
         == steps[n].cmd
  {
    assert F.StepOkAt(c, s, steps, n);
    W.FlightStaysOk(c, evs, |evs|);
    RunConfig(c, evs);
    hide W.Run, W.WiresAt, F.RunSteps, Inv, W.ConfigOk, F.FlightOf, W.FlightOk, W.Shaped;
  }

  lemma SetIsCommanded(c: W.Config, evs: seq<W.Event>, j: Joint, x: Input, n: nat, t: P.Tables, id: nat, v: real, root: real, i: nat)
    requires Recorded(c, evs, j) && InputOk(c, j, x) && SetsValue(c, j, x, t, id, v, root) && CommandOf(c, n, t, id, v, root, i)
    ensures Commands(AreaArmed(c, j, x), t, id, v, root)
  {
    hide Recorded, InputOk, P.SetValue, P.Pattern, C.Accepts, C.RootOk, Get, WiresAfter, W.ConfigOk;
    WriteMoves(c, evs, j, x);
    var p := Cs(j.world.sys);
    var before := WiresAfter(c, WiresOf(p, j.pending), j.world.sched, x.steps, |x.steps| - 1);
    W.FieldFits(c, n, i);
    SettingCommands(p.(mem := p.mem.(cmd := before.cmd)), t, id, v, root);
  }

  lemma OwnIsCommanded(c: W.Config, evs: seq<W.Event>, j: Joint, x: Input, n: nat, t: P.Tables, id: nat, v: real, root: real, i: nat)
    requires Recorded(c, evs, j) && InputOk(c, j, x) && OwnsValue(c, j, x, t, id, v, root, i) && CommandOf(c, n, t, id, v, root, i)
    ensures Commands(AreaArmed(c, j, x), t, id, v, root)
  {
    hide P.Pattern, C.Accepts, C.RootOk, Get, WiresAfter, W.ConfigOk, F.StepsOk, F.OwnOfNode, Inv, F.RunSteps, W.Shaped;
    AreaSize(c, evs, j, x);
    W.FieldFits(c, n, i);
    WrittenCommand(c, WiresAfter(c, WiresOf(Cs(j.world.sys), j.pending), j.world.sched, x.steps, |x.steps|).cmd, t, id, v, root, i);
  }

  lemma AreaSize(c: W.Config, evs: seq<W.Event>, j: Joint, x: Input)
    requires Recorded(c, evs, j) && InputOk(c, j, x)
    ensures W.ConfigOk(c) && |WiresAfter(c, WiresOf(Cs(j.world.sys), j.pending), j.world.sched, x.steps, |x.steps|).cmd| == c.cmdBlocks
  {
    hide F.StepsOk, F.OwnOfNode, F.Events, W.WiresAt, W.Run, F.RunSteps, Inv, W.ConfigOk, F.Sound, F.FlightOf;
    StepsMove(c, evs, j.world.sched, x.steps, |x.steps|);
    RunConfig(c, evs + F.Events(c, j.world.sched, x.steps, |x.steps|));
  }

  lemma WrittenCommand(c: W.Config, area: seq<word>, t: P.Tables, id: nat, v: real, root: real, i: nat)
    requires c.rows == t.comms && Commandable(t, id, v, root) && id == |t.params| + i && i < |c.rows|
    requires t.CommRow(id).CsField().Fits(|area|)
    ensures Commands(W.Written(c.rows, area, Some(W.Own(i, P.Pattern(t.CommRow(id), v, root)))), t, id, v, root)
  {
    hide P.Pattern, C.Accepts, C.RootOk, Get, WriteValue;
    P.PatternFits(t.CommRow(id), v, root);
    FieldWritten(area, t.CommRow(id).CsField(), P.Pattern(t.CommRow(id), v, root));
  }

  lemma FieldWritten(area: seq<word>, f: Field, raw: nat)
    requires f.Fits(|area|) && raw < Pow2(f.width)
    ensures var w := WriteValue(area, f.block, f.offset, f.width, raw);
      w.Some? && |w.value| == |area| && f.Fits(|w.value|) && Get(w.value, f) == raw
  {
    hide WriteValue, Get, Put;
    WriteIsSplice(area, f, raw);
    StoredSmall(f.width, raw);
    GetOfPut(area, f, raw, f);
  }

  // From setting a value to reading it: in every run from reset, a command set before control arms an exchange
  // with its node, by the operator or by the task itself, is read by the device as exactly the quantised
  // value at the end of the request, unless a cancellation empties its block before its last byte is sent.
  lemma SetValueIsRead(c: W.Config, J: seq<Joint>, M: seq<Sys>, X: seq<Input>, t0: nat, a: nat, n: nat, d: nat, i: nat,
                       t: P.Tables, id: nat, v: real, root: real)
    requires IsJointRun(c, J, M, X, t0) && Begins(c, J[0]) && Delivers(c, J, M, X, t0, a, n, d)
    requires CommandOf(c, n, t, id, v, root, i) && Untouched(c, X, a, t.CommRow(id).DeviceField())
    requires SetsValue(c, J[a], X[a], t, id, v, root) || OwnsValue(c, J[a], X[a], t, id, v, root, i)
    ensures Reads(PartyAt(SysOf(J), a + 5 + 2 * c.nodes[n].comBlocks, d), t, id, v, root)
  {
    hide *;
    DeliversParts(c, J, M, X, t0, a, n, d);
    var ph := HistoryLeads(c, J, M, X, t0, a);
    ArmingInput(c, J[a], M[a], X[a], J[a + 1], t0 + a, n);
    if SetsValue(c, J[a], X[a], t, id, v, root) {
      SetIsCommanded(c, History(c, J, X, a), J[a], X[a], n, t, id, v, root, i);
    } else {
      OwnIsCommanded(c, History(c, J, X, a), J[a], X[a], n, t, id, v, root, i);
    }
    CommandedIsRead(c, J, M, X, t0, a, n, d, i, t, id, v, root);
  }

  lemma ArmingInput(c: W.Config, j: Joint, m: Sys, x: Input, v: Joint, t: nat, n: nat)
    requires ArmsCommand(c, j, m, x, v, t, n)
    ensures InputOk(c, j, x) && |j.world.sys.parties| >= 1
  {
    hide InputOk, TickOf, WindowsAfter, F.FlightOf;
  }
}
