// The whole path: a command value set in CS is the quantised value the device reads, and the mirror of
// that for parameters.
module CommandPath {
  import opened Wire
  import opened MsgBlock
  import opened CommTable
  import opened BusExchange
  import opened Lockstep
  import opened ClosedSystem
  import opened Transactions
  import opened Scheduler
  import opened CommandWindows
  import opened CsExchange
  import P = Params
  import C = Codec

  // --- the transmitted buffer --------------------------------------------------------------

  // While the master sends, its software leaves the buffer it sends from alone.
  ghost predicate BufferLeftAlone(S: seq<Sys>, M: seq<Sys>, k: nat) {
    forall j | 1 <= j < k && j < |M| && j < |S| :: 0 < |S[j].parties| && 0 < |M[j].parties| ==>
      Cs(M[j]).mem.cmdBuf == Cs(S[j]).mem.cmdBuf
  }

  // The master in tick j of its request.
  lemma Sender(S: seq<Sys>, M: seq<Sys>, rows: seq<Row>, t0: nat, j: nat)
    requires StartsExchange(S, M, rows, t0) && 1 <= j < FrameLength(RequestBlocks(M)) && j < |M|
    ensures 0 < |M[j].parties| && 0 < |S[j].parties| && 0 < |M[0].parties|
    ensures var p, q := Cs(M[0]), Cs(M[j]);
      q.ctl.exchange == Tx && q.ctl.flag == p.ctl.flag && q.win == p.win && SameSizes(p.mem, q.mem)
    ensures 0 < |S[j + 1].parties| && Cs(S[j + 1]).mem.cmdBuf == Cs(M[j]).mem.cmdBuf
  {
    hide Tick, PayloadFrom, CalcNBlocks, OneBehind;
    DuringRequest(S, M, rows, t0, j);
    assert App(S[j], M[j]) && S[j + 1] == Tick(M[j], rows, t0 + j);
    var n, dst, flag := RequestBlocks(M), Cs(M[0]).targetAddr, Cs(M[0]).ctl.flag;
    var sent := PayloadFrom(M, 0, 3, PayloadCount(j, n));
    AppKeepsPhase(S[j], M[j], Phase.Request(j, n, dst, flag, sent));
    SenderPosition(Cs(M[j]), j, n, dst, flag);
    TransmitKeeps(Cs(M[j]), t0 + j);
    TransmitIsStep(Cs(M[j]), rows, t0 + j, M[j].visible);
    AtTickTransmits(M[j], rows, t0 + j);
  }

  lemma AtTickTransmits(m: Sys, rows: seq<Row>, t: nat)
    requires 0 < |m.parties| && Cs(m).ctl.exchange == Tx
    ensures Cs(Tick(m, rows, t)) == Transmit(Cs(m), t).party
  {
    hide Receive, Transmit;
  }

  lemma {:induction false} BufferStands(S: seq<Sys>, M: seq<Sys>, rows: seq<Row>, t0: nat, j: nat)
    requires StartsExchange(S, M, rows, t0) && j < FrameLength(RequestBlocks(M)) && j < |M|
    requires BufferLeftAlone(S, M, j + 1)
    ensures 0 < |M[j].parties| && 0 < |M[0].parties| && Cs(M[j]).mem.cmdBuf == Cs(M[0]).mem.cmdBuf
    decreases j
  {
    hide Tick, CalcNBlocks, InPhase;
    if j == 1 {
      assert App(S[0], M[0]) && S[1] == Tick(M[0], rows, t0);
      Sender(S, M, rows, t0, 1);
      AtTickTransmits(M[0], rows, t0);
      TransmitKeeps(Cs(M[0]), t0);
    } else if j > 1 {
      BufferStands(S, M, rows, t0, j - 1);
      Sender(S, M, rows, t0, j - 1);
      Sender(S, M, rows, t0, j);
    }
  }

  // The payload of a command request is the armed buffer.
  lemma PayloadIsBuffer(S: seq<Sys>, M: seq<Sys>, rows: seq<Row>, t0: nat, n: nat)
    requires StartsExchange(S, M, rows, t0) && n == RequestBlocks(M) && 3 + 2 * n < |M|
    requires Cs(M[0]).ctl.flag == CMD_REQ && CmdFrameBlocks(Cs(M[0])) == n <= |Cs(M[0]).mem.cmdBuf|
    requires BufferLeftAlone(S, M, 3 + 2 * n)
    ensures Holds(Cs(M[0]).mem.cmdBuf, n, PayloadFrom(M, 0, 3, 2 * n))
  {
    hide InPhase, Tick, CalcNBlocks, PayloadByte;
    forall j | 3 <= j < 3 + 2 * n
      ensures 0 < |M[j].parties| && Cs(M[j]).ctl.flag == CMD_REQ && Cs(M[j]).mem.cmdBuf == Cs(M[0]).mem.cmdBuf
      ensures 0 < |M[j].parties| && CmdFrameBlocks(Cs(M[j])) == n
    {
      Sender(S, M, rows, t0, j);
      BufferStands(S, M, rows, t0, j);
    }
    StableCommandBuffer(M, n, Cs(M[0]).mem.cmdBuf);
  }

  lemma HeldBlocks(dev: seq<word>, buf: seq<word>, n: nat, payload: seq<byte>)
    requires n <= |dev| && n <= |buf| && |payload| == 2 * n && Holds(dev, n, payload) && Holds(buf, n, payload)
    ensures dev[..n] == buf[..n]
  {
    forall j: nat | j < 2 * n ensures ReadByte(dev, j) == ReadByte(buf, j) {
      assert ReadByte(dev, j) == Some(payload[j]) && ReadByte(buf, j) == Some(payload[j]);
    }
    SameBytes(dev, buf, n);
  }

  // --- the device's merge ------------------------------------------------------------------

  // The device of a node: same address and system, and areas of the node's window sizes.
  predicate Mirrors(dev: Party, n: Node) {
    && dev.who.systemId == n.systemId && n.systemId != SYS_NONE && dev.who.selfAddr == n.busAddr
    && |dev.mem.cmd| == |dev.mem.cmdBuf| == n.comBlocks && |dev.mem.prm| == |dev.mem.prmBuf| == n.parBlocks
  }

  lemma MergedField(rows: seq<Row>, dev: Party, buf: seq<word>, n: nat, i: nat)
    requires |dev.mem.cmd| == |dev.mem.cmdBuf| == n <= |buf| && dev.mem.cmdBuf == buf[..n]
    requires dev.who.systemId != SYS_NONE && DisjointRows(rows, dev.who.systemId, n)
    requires i < |rows| && rows[i].sysId == dev.who.systemId
    ensures rows[i].DeviceField().Fits(n)
    ensures var f, after := rows[i].DeviceField(), MergeCommands(dev, rows).mem.cmd;
      |after| == n && Get(after, f) == if Get(buf, f) != 0 then Get(buf, f) else Get(dev.mem.cmd, f)
  {
    OverlayField(rows, |rows|, dev.who.systemId, false, dev.mem.cmdBuf, dev.mem.cmd, i);
    hide Overlay;
  }

  // The run of a command exchange of node k that CS arms in tick t0 from state p, with what it has
  // pending for the nodes and the command area own that it takes staged values from.
  ghost predicate CommandRun(S: seq<Sys>, M: seq<Sys>, t0: nat, c: Config, k: nat, p: Party,
                             pending: seq<seq<word>>, own: seq<word>, d: nat) {
    && ConfigOk(c) && k < |c.nodes| && Shaped(c, Wires(p.mem.cmd, p.mem.cmdBuf, pending)) && |own| == c.cmdBlocks
    && NodeServed(p, c.nodes[k]) && !p.ctl.busy
    && StartsExchange(S, M, c.rows, t0) && |M| >= 2 * c.nodes[k].comBlocks + 10
    && Cs(M[0]) == ArmParty(p, pending, c.rows, c.nodes[k], k, CommandTask, own)
    && d == Addressee(M) != 0 && Mirrors(M[0].parties[d], c.nodes[k])
  }

  function BlocksOf(c: Config, k: nat): nat { if k < |c.nodes| then c.nodes[k].comBlocks else 0 }

  // Party d in the joint state j of a run.
  function PartyAt(X: seq<Sys>, j: nat, d: nat): Option<Party> {
    if j < |X| && d < |X[j].parties| then Some(X[j].parties[d]) else None
  }

  // What the exchange carries for field i: the value staged in own, or else the one still pending.
  ghost function Carries(c: Config, k: nat, pending: seq<seq<word>>, own: seq<word>, i: nat): nat {
    if ConfigOk(c) && FieldOf(c, k, i) && k < |pending| && |pending[k]| == c.bufBlocks
    then if Seen(c, own, i) != 0 then Seen(c, own, i) else Get(pending[k], DeviceField(c, k, i))
    else 0
  }

  // The armed master's buffer.
  predicate ArmedBuffer(M: seq<Sys>, buf: seq<word>, n: nat) {
    && |M| >= 1 && |M[0].parties| >= 1 && Cs(M[0]).mem.cmdBuf == buf && n <= |buf|
    && Cs(M[0]).ctl.flag == CMD_REQ && CmdFrameBlocks(Cs(M[0])) == RequestBlocks(M) == n
  }

  function BufferArmed(c: Config, k: nat, p: Party, pending: seq<seq<word>>, own: seq<word>): seq<word>
    requires k < |c.nodes|
  {
    ArmWindows(Wires(p.mem.cmd, p.mem.cmdBuf, pending), c.rows, c.nodes[k], k, own).buf
  }

  lemma RunIsExchange(S: seq<Sys>, M: seq<Sys>, t0: nat, c: Config, k: nat, p: Party, pending: seq<seq<word>>,
                      own: seq<word>, d: nat)
    requires CommandRun(S, M, t0, c, k, p, pending, own, d)
    ensures FullExchange(S, M, c.rows, t0, d, BlocksOf(c, k), 0)
    ensures ArmedBuffer(M, BufferArmed(c, k, p, pending, own), BlocksOf(c, k))
  {
    hide InPhase, Tick, ArmWindows, FramesFor, CalcNBlocks, Addressee, Armed;
    ArmedForNode(p, pending, c.rows, c.nodes[k], k, CommandTask, own);
    ArmKeepsSizes(Wires(p.mem.cmd, p.mem.cmdBuf, pending), c.rows, c.nodes[k], k, own);
    FitsAll(c, k);
  }

  // The staging buffer of dev is the front of buf, and next is dev after the merge.
  predicate Receives(dev: Option<Party>, next: Option<Party>, rows: seq<Row>, buf: seq<word>, n: Node) {
    && dev.Some? && next.Some? && n.comBlocks <= |buf| && dev.value.mem.cmdBuf == buf[..n.comBlocks]
    && Mirrors(dev.value, n) && next.value.mem == MergeCommands(dev.value, rows).mem && next.value.who == dev.value.who
  }

  // If the buffer is left alone, the device merges the front of it at the end of the request.
  lemma BufferArrives(S: seq<Sys>, M: seq<Sys>, t0: nat, c: Config, k: nat, p: Party, pending: seq<seq<word>>,
                      own: seq<word>, d: nat)
    requires CommandRun(S, M, t0, c, k, p, pending, own, d)
    requires BufferLeftAlone(S, M, 3 + 2 * BlocksOf(c, k))
    ensures Receives(PartyAt(M, 4 + 2 * BlocksOf(c, k), d), PartyAt(S, 5 + 2 * BlocksOf(c, k), d), c.rows,
                     BufferArmed(c, k, p, pending, own), c.nodes[k])
  {
    hide *;
    RunIsExchange(S, M, t0, c, k, p, pending, own, d);
    RunParts(S, M, t0, c, k, p, pending, own, d);
    Arrival(S, M, t0, c.rows, c.nodes[k], BufferArmed(c, k, p, pending, own), d);
  }

  lemma RunParts(S: seq<Sys>, M: seq<Sys>, t0: nat, c: Config, k: nat, p: Party, pending: seq<seq<word>>,
                 own: seq<word>, d: nat)
    requires CommandRun(S, M, t0, c, k, p, pending, own, d)
    ensures |M| >= 1 && d < |M[0].parties| && k < |c.nodes| && Mirrors(M[0].parties[d], c.nodes[k])
    ensures c.nodes[k].comBlocks == BlocksOf(c, k) >= 1
  {
    hide StartsExchange, ArmParty, ConfigOk, Shaped, Mirrors;
  }

  // The blocks of a command request as they were sent: block k in ticks 3 + 2k and 4 + 2k, its low byte
  // from what the buffer held in the first and its high byte from what it held in the second.
  function SentBlocks(M: seq<Sys>, n: nat): (b: seq<word>)
    ensures |b| == n
  {
    seq<word>(n, k requires 0 <= k < n => SentBlock(M, k))
  }

  function SentBlock(M: seq<Sys>, k: nat): word {
    var low: int, high: int := PayloadAt(M, 0, 3, 2 * k), PayloadAt(M, 0, 3, 2 * k + 1);
    low + 256 * high
  }

  lemma SentBlocksHold(M: seq<Sys>, n: nat)
    ensures Holds(SentBlocks(M, n), n, PayloadFrom(M, 0, 3, 2 * n))
  {
    hide PayloadAt;
    forall j: nat | j < 2 * n ensures ReadByte(SentBlocks(M, n), j) == Some(PayloadFrom(M, 0, 3, 2 * n)[j]) {
      var w := SentBlocks(M, n)[j / 2];
      assert w == SentBlock(M, j / 2);
      assert if j % 2 == 0 then j == 2 * (j / 2) else j == 2 * (j / 2) + 1;
    }
  }

  // A request with n.comBlocks blocks of commands.
  predicate SendsCommands(M: seq<Sys>, n: Node) {
    && |M| >= 1 && |M[0].parties| >= 1 && Cs(M[0]).ctl.flag == CMD_REQ && n.comBlocks >= 1
    && CmdFrameBlocks(Cs(M[0])) == RequestBlocks(M) == n.comBlocks
  }

  // Whatever becomes of the master's buffer meanwhile, at the end of the request the device merges the
  // blocks as they were sent.
  lemma SentArrives(S: seq<Sys>, M: seq<Sys>, t0: nat, rows: seq<Row>, n: Node, d: nat)
    requires FullExchange(S, M, rows, t0, d, n.comBlocks, 0) && SendsCommands(M, n)
    requires d < |M[0].parties| && Mirrors(M[0].parties[d], n)
    ensures Receives(PartyAt(M, 4 + 2 * n.comBlocks, d), PartyAt(S, 5 + 2 * n.comBlocks, d), rows, SentBlocks(M, n.comBlocks), n)
  {
    hide InPhase, Tick, CalcNBlocks, PayloadFrom, MergeCommands, Holds, Addressee, Armed, App, SentBlock;
    var b := n.comBlocks;
    var e := 4 + 2 * b;
    CommandDelivered(S, M, rows, t0, d, b, 0);
    SentBlocksHold(M, b);
    DeviceAt(S, M, rows, t0, e, d, n);
    var dev := M[e].parties[d];
    hide FullExchange, Mirrors, FrameBlocks;
    HeldBlocks(dev.mem.cmdBuf, SentBlocks(M, b), b, PayloadFrom(M, 0, 3, 2 * b));
    assert dev.mem.cmdBuf[..b] == dev.mem.cmdBuf;
  }

  // If the buffer is left alone, that is the buffer the master was armed with.
  lemma Arrival(S: seq<Sys>, M: seq<Sys>, t0: nat, rows: seq<Row>, n: Node, buf: seq<word>, d: nat)
    requires FullExchange(S, M, rows, t0, d, n.comBlocks, 0) && ArmedBuffer(M, buf, n.comBlocks)
    requires d < |M[0].parties| && Mirrors(M[0].parties[d], n) && n.comBlocks >= 1
    requires BufferLeftAlone(S, M, 3 + 2 * n.comBlocks)
    ensures Receives(PartyAt(M, 4 + 2 * n.comBlocks, d), PartyAt(S, 5 + 2 * n.comBlocks, d), rows, buf, n)
  {
    hide InPhase, Tick, CalcNBlocks, PayloadFrom, MergeCommands, Holds, Addressee, BufferLeftAlone, Armed, App, SentBlocks, Mirrors,
         PartyAt;
    SentArrives(S, M, t0, rows, n, d);
    PayloadIsBuffer(S, M, rows, t0, n.comBlocks);
    SentBlocksHold(M, n.comBlocks);
    HeldBlocks(SentBlocks(M, n.comBlocks), buf, n.comBlocks, PayloadFrom(M, 0, 3, 2 * n.comBlocks));
  }

  // The node's device in tick j of a run, and after it.
  lemma DeviceAt(S: seq<Sys>, M: seq<Sys>, rows: seq<Row>, t0: nat, j: nat, d: nat, n: Node)
    requires IsRun(S, M, rows, t0) && InPhase(S[0], Quiet) && j < |M| && 1 <= d < |M[0].parties|
    requires Mirrors(M[0].parties[d], n) && n.comBlocks >= 1
    ensures d < |M[j].parties| && d < |S[j + 1].parties|
    ensures Mirrors(M[j].parties[d], n) && CmdFrameBlocks(M[j].parties[d]) == |M[j].parties[d].mem.cmdBuf| == n.comBlocks
    ensures S[j + 1].parties[d].who == M[j].parties[d].who
  {
    hide InPhase, Tick, App, Step;
    AddressesStand(S, M, rows, t0, j);
    DevicesStayPlain(S, M, rows, t0, j, d);
    assert App(S[j], M[j]) && S[j + 1] == Tick(M[j], rows, t0 + j);
    StepKeepsIdentity(M[j].parties[d], rows, t0 + j, M[j].visible);
    TickSteps(M[j], rows, t0 + j, d);
  }

  lemma TickSteps(m: Sys, rows: seq<Row>, t: nat, d: nat)
    requires d < |m.parties|
    ensures d < |Tick(m, rows, t).parties| && Tick(m, rows, t).parties[d] == Step(m.parties[d], rows, t, m.visible).party
  {
    hide Step;
  }

  lemma DevicesStayPlain(S: seq<Sys>, M: seq<Sys>, rows: seq<Row>, t0: nat, j: nat, d: nat)
    requires IsRun(S, M, rows, t0) && InPhase(S[0], Quiet) && j < |M| && 1 <= d < |M[j].parties|
    ensures PlainDevice(M[j].parties[d])
  {
    hide InRequest, InResponse, InTurnaround, InWaiting, Tick;
    var ph := ReachablePhase(S, M, rows, t0, j);
    assert App(S[j], M[j]);
    AppKeepsConfiguration(S[j], M[j]);
  }

  // --- the theorems ------------------------------------------------------------------------

  // After the merge a device's field holds the value v if that is nonzero, and else what it held before.
  predicate FieldMerged(dev: Option<Party>, next: Option<Party>, n: Node, f: Field, v: nat) {
    && dev.Some? && next.Some? && f.Fits(n.comBlocks) && next.value.who.systemId == n.systemId
    && |dev.value.mem.cmd| == |next.value.mem.cmd| == n.comBlocks
    && Get(next.value.mem.cmd, f) == if v != 0 then v else Get(dev.value.mem.cmd, f)
  }

  predicate SucceededAt(S: seq<Sys>, j: nat) {
    j < |S| && |S[j].parties| >= 1 && !Cs(S[j]).ctl.busy && Cs(S[j]).ctl.resultReady && Cs(S[j]).ctl.lastResult == Success
  }

  // Each of the device's fields is merged as it was sent.
  lemma SentIsMerged(S: seq<Sys>, M: seq<Sys>, t0: nat, rows: seq<Row>, n: Node, d: nat, i: nat)
    requires FullExchange(S, M, rows, t0, d, n.comBlocks, 0) && SendsCommands(M, n)
    requires d < |M[0].parties| && Mirrors(M[0].parties[d], n)
    requires DisjointRows(rows, n.systemId, n.comBlocks) && i < |rows| && rows[i].sysId == n.systemId
    ensures rows[i].DeviceField().Fits(n.comBlocks)
    ensures FieldMerged(PartyAt(M, 4 + 2 * n.comBlocks, d), PartyAt(S, 5 + 2 * n.comBlocks, d), n, rows[i].DeviceField(),
                        Get(SentBlocks(M, n.comBlocks), rows[i].DeviceField()))
  {
    SentArrives(S, M, t0, rows, n, d);
    hide FullExchange, SendsCommands, MergeCommands, Get, DisjointRows, SentBlocks, PartyAt;
    MergedField(rows, PartyAt(M, 4 + 2 * n.comBlocks, d).value, SentBlocks(M, n.comBlocks), n.comBlocks, i);
  }

  // A command exchange with a present device succeeds, and right after the device's merge each of the
  // device's fields is what was sent for it, or unchanged by the merge where that was 0; if the buffer is
  // left alone meanwhile, what was sent is what the exchange carried.
  lemma CommandReachesDevice(S: seq<Sys>, M: seq<Sys>, t0: nat, c: Config, k: nat, p: Party, pending: seq<seq<word>>,
                             own: seq<word>, d: nat, i: nat)
    requires CommandRun(S, M, t0, c, k, p, pending, own, d) && FieldOf(c, k, i)
    ensures c.rows[i].DeviceField().Fits(BlocksOf(c, k))
    ensures FieldMerged(PartyAt(M, 4 + 2 * BlocksOf(c, k), d), PartyAt(S, 5 + 2 * BlocksOf(c, k), d), c.nodes[k],
                        c.rows[i].DeviceField(), Get(SentBlocks(M, BlocksOf(c, k)), c.rows[i].DeviceField()))
    ensures BufferLeftAlone(S, M, 3 + 2 * BlocksOf(c, k)) ==>
      FieldMerged(PartyAt(M, 4 + 2 * BlocksOf(c, k), d), PartyAt(S, 5 + 2 * BlocksOf(c, k), d), c.nodes[k],
                  c.rows[i].DeviceField(), Carries(c, k, pending, own, i))
    ensures SucceededAt(S, 2 * BlocksOf(c, k) + 10)
  {
    hide *;
    CommandSucceeds(S, M, t0, c, k, p, pending, own, d);
    CommandIsSent(S, M, t0, c, k, p, pending, own, d, i);
    if BufferLeftAlone(S, M, 3 + 2 * BlocksOf(c, k)) {
      CarriedArrives(S, M, t0, c, k, p, pending, own, d, i);
    }
  }

  lemma CommandIsSent(S: seq<Sys>, M: seq<Sys>, t0: nat, c: Config, k: nat, p: Party, pending: seq<seq<word>>,
                      own: seq<word>, d: nat, i: nat)
    requires CommandRun(S, M, t0, c, k, p, pending, own, d) && FieldOf(c, k, i)
    ensures c.rows[i].DeviceField().Fits(BlocksOf(c, k))
    ensures FieldMerged(PartyAt(M, 4 + 2 * BlocksOf(c, k), d), PartyAt(S, 5 + 2 * BlocksOf(c, k), d), c.nodes[k],
                        c.rows[i].DeviceField(), Get(SentBlocks(M, BlocksOf(c, k)), c.rows[i].DeviceField()))
  {
    hide *;
    RunIsExchange(S, M, t0, c, k, p, pending, own, d);
    RunParts(S, M, t0, c, k, p, pending, own, d);
    InRun(S, M, t0, c, k, p, pending, own, d);
    ArmedSends(M, BufferArmed(c, k, p, pending, own), c.nodes[k]);
    FieldDisjoint(c, k, i);
    SentIsMerged(S, M, t0, c.rows, c.nodes[k], d, i);
  }

  lemma ArmedSends(M: seq<Sys>, buf: seq<word>, n: Node)
    requires ArmedBuffer(M, buf, n.comBlocks) && n.comBlocks >= 1
    ensures SendsCommands(M, n)
  {
    hide CalcNBlocks, CmdFrameBlocks;
  }

  lemma FieldDisjoint(c: Config, k: nat, i: nat)
    requires ConfigOk(c) && FieldOf(c, k, i)
    ensures DisjointRows(c.rows, c.nodes[k].systemId, c.nodes[k].comBlocks)
    ensures i < |c.rows| && c.rows[i].sysId == c.nodes[k].systemId
  {
    FitsAll(c, k);
    hide DisjointRows;
  }

  lemma CarriedArrives(S: seq<Sys>, M: seq<Sys>, t0: nat, c: Config, k: nat, p: Party, pending: seq<seq<word>>,
                       own: seq<word>, d: nat, i: nat)
    requires CommandRun(S, M, t0, c, k, p, pending, own, d) && FieldOf(c, k, i)
    requires BufferLeftAlone(S, M, 3 + 2 * BlocksOf(c, k))
    ensures FieldMerged(PartyAt(M, 4 + 2 * BlocksOf(c, k), d), PartyAt(S, 5 + 2 * BlocksOf(c, k), d), c.nodes[k],
                        c.rows[i].DeviceField(), Carries(c, k, pending, own, i))
  {
    BufferArrives(S, M, t0, c, k, p, pending, own, d);
    InRun(S, M, t0, c, k, p, pending, own, d);
    var buf := BufferArmed(c, k, p, pending, own);
    ArmField(c, Wires(p.mem.cmd, p.mem.cmdBuf, pending), k, own, i);
    FitsAll(c, k);
    hide CommandRun, MergeCommands, ArmWindows, Get, Overlay, PartyAt, SucceededAt, Seen;
    var dev := PartyAt(M, 4 + 2 * BlocksOf(c, k), d).value;
    MergedField(c.rows, dev, buf, c.nodes[k].comBlocks, i);
    FrontField(buf, c.nodes[k].comBlocks, c.rows[i].DeviceField());
  }

  lemma FrontField(buf: seq<word>, n: nat, f: Field)
    requires n <= |buf| && f.Fits(n)
    ensures Get(buf[..n], f) == Get(buf, f)
  {
  }

  lemma CommandSucceeds(S: seq<Sys>, M: seq<Sys>, t0: nat, c: Config, k: nat, p: Party, pending: seq<seq<word>>,
                        own: seq<word>, d: nat)
    requires CommandRun(S, M, t0, c, k, p, pending, own, d)
    ensures SucceededAt(S, 2 * BlocksOf(c, k) + 10)
  {
    RunIsExchange(S, M, t0, c, k, p, pending, own, d);
    hide CommandRun, Tick, Addressee, CalcNBlocks, Armed, InRequest, InResponse, InTurnaround, InWaiting;
    ExchangeTiming(S, M, c.rows, t0, d, BlocksOf(c, k), 0);
  }

  lemma InRun(S: seq<Sys>, M: seq<Sys>, t0: nat, c: Config, k: nat, p: Party, pending: seq<seq<word>>,
              own: seq<word>, d: nat)
    requires CommandRun(S, M, t0, c, k, p, pending, own, d)
    ensures ConfigOk(c) && k < |c.nodes| && k < |pending| && |pending[k]| == c.bufBlocks
    ensures Shaped(c, Wires(p.mem.cmd, p.mem.cmdBuf, pending)) && |own| == c.cmdBlocks && c.nodes[k].systemId != SYS_NONE
  {
    hide InPhase, Tick, CalcNBlocks, Addressee, ArmParty, Armed, StartsExchange;
  }

  // The device, looking an identifier up in its command area, gets the quantised x.
  predicate Reads(dev: Option<Party>, t: P.Tables, id: nat, x: real, root: real) {
    && dev.Some? && t.IsComm(id) && t.CommRow(id).Width() > 0 && C.Accepts(t.CommRow(id), x)
    && P.GetValue(P.Context(P.DeviceSide, dev.value.who.systemId, dev.value.mem.prm, dev.value.mem.cmd), t, id)
       == P.Parsed(C.Ok, P.Quantised(t.CommRow(id), x, root))
  }

  // The identifier can command x: it accepts x, and its pattern is not 0, which stands for no command.
  predicate Commandable(t: P.Tables, id: nat, x: real, root: real) {
    && t.IsComm(id) && t.CommRow(id).Width() > 0 && C.Accepts(t.CommRow(id), x) && C.RootOk(t.CommRow(id), x, root)
    && P.Pattern(t.CommRow(id), x, root) != 0
  }

  // The command area holds the pattern of x for the identifier.
  predicate Commands(own: seq<word>, t: P.Tables, id: nat, x: real, root: real) {
    && Commandable(t, id, x, root) && t.CommRow(id).CsField().Fits(|own|)
    && Get(own, t.CommRow(id).CsField()) == P.Pattern(t.CommRow(id), x, root)
  }

  // The whole path: what CS commands when the exchange is armed, the device reads quantised right
  // after its merge, and the exchange succeeds.
  lemma CommandedIsRead(S: seq<Sys>, M: seq<Sys>, t0: nat, c: Config, k: nat, p: Party, pending: seq<seq<word>>,
                        own: seq<word>, d: nat, t: P.Tables, id: nat, x: real, root: real)
    requires CommandRun(S, M, t0, c, k, p, pending, own, d) && c.rows == t.comms
    requires Commands(own, t, id, x, root) && t.CommRow(id).sysId == c.nodes[k].systemId
    requires BufferLeftAlone(S, M, 3 + 2 * BlocksOf(c, k))
    ensures Reads(PartyAt(S, 5 + 2 * BlocksOf(c, k), d), t, id, x, root)
    ensures SucceededAt(S, 2 * BlocksOf(c, k) + 10)
  {
    hide *;
    InRun(S, M, t0, c, k, p, pending, own, d);
    var i := CommandIndex(c, k, t, id, x, root, own);
    CommandReachesDevice(S, M, t0, c, k, p, pending, own, d, i);
    CarriesPattern(c, k, pending, own, t, id, x, root, i);
    MergedIsRead(PartyAt(M, 4 + 2 * BlocksOf(c, k), d), PartyAt(S, 5 + 2 * BlocksOf(c, k), d), c.nodes[k], t, id, x, root);
  }

  lemma CommandIndex(c: Config, k: nat, t: P.Tables, id: nat, x: real, root: real, own: seq<word>) returns (i: nat)
    requires c.rows == t.comms && k < |c.nodes| && Commands(own, t, id, x, root) && t.CommRow(id).sysId == c.nodes[k].systemId
    ensures FieldOf(c, k, i) && c.rows[i] == t.CommRow(id)
  {
    hide P.Pattern, C.Accepts, C.RootOk, Get;
    i := id - |t.params|;
  }

  lemma CarriesPattern(c: Config, k: nat, pending: seq<seq<word>>, own: seq<word>, t: P.Tables, id: nat, x: real, root: real, i: nat)
    requires ConfigOk(c) && FieldOf(c, k, i) && k < |pending| && |pending[k]| == c.bufBlocks
    requires Commands(own, t, id, x, root) && c.rows[i] == t.CommRow(id)
    ensures Commandable(t, id, x, root) && Carries(c, k, pending, own, i) == P.Pattern(t.CommRow(id), x, root)
  {
    hide P.Pattern, C.Accepts, C.RootOk, Get, ConfigOk;
  }

  lemma MergedIsRead(dev: Option<Party>, next: Option<Party>, n: Node, t: P.Tables, id: nat, x: real, root: real)
    requires Commandable(t, id, x, root) && t.CommRow(id).sysId == n.systemId
    requires FieldMerged(dev, next, n, t.CommRow(id).DeviceField(), P.Pattern(t.CommRow(id), x, root))
    ensures Reads(next, t, id, x, root)
  {
    hide P.Pattern, P.Quantised, P.GetValue, C.Accepts, Get, C.RootOk;
    P.GetReads(P.Context(P.DeviceSide, next.value.who.systemId, next.value.mem.prm, next.value.mem.cmd), t, id, x, root);
  }

  // Setting a command in CS puts its pattern there, for every value the command accepts.
  lemma SettingCommands(p: Party, t: P.Tables, id: nat, x: real, root: real)
    requires t.IsComm(id) && t.CommRow(id).CsField().Fits(|p.mem.cmd|)
    requires C.Accepts(t.CommRow(id), x) && C.RootOk(t.CommRow(id), x, root) && P.Pattern(t.CommRow(id), x, root) != 0
    ensures var (r, s) := P.SetValue(P.Context(P.CsSide, SYS_CS, p.mem.prm, p.mem.cmd), t, id, x, root);
      s == C.Ok && |r.cmd| == |p.mem.cmd| && Commands(r.cmd, t, id, x, root)
  {
    P.SetStores(P.Context(P.CsSide, SYS_CS, p.mem.prm, p.mem.cmd), t, id, x, root);
    hide P.SetValue, P.Pattern, C.Accepts, C.RootOk, Get;
  }
}
