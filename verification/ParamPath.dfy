// The mirror of the command path: a parameter a device offers is the quantised value CS reads.
module ParamPath {
  import opened Wire
  import opened MsgBlock
  import opened CommTable
  import opened BusExchange
  import opened Lockstep
  import opened ClosedSystem
  import opened Transactions
  import opened Scheduler
  import opened CommandWindows
  import opened CsExchange
  import opened CommandPath
  import P = Params
  import C = Codec

  // The buffer the device answers from holds buf in every tick from base to base + count - 1.
  predicate Offers(M: seq<Sys>, d: nat, base: nat, count: nat, buf: seq<word>) {
    forall j: nat | base <= j < base + count && j < |M| :: d < |M[j].parties| && M[j].parties[d].mem.prmBuf == buf
  }

  // The run of a data exchange with node n that CS arms in tick t0 from state p; buf is what the
  // device answers from while it sends.
  ghost predicate DataRun(S: seq<Sys>, M: seq<Sys>, t0: nat, rows: seq<Row>, n: Node, p: Party, d: nat, buf: seq<word>) {
    && NodeServed(p, n) && !p.ctl.busy
    && StartsExchange(S, M, rows, t0) && |M| >= 2 * n.parBlocks + 10
    && Cs(M[0]) == ArmParty(p, [], rows, n, 0, DataTask, p.mem.cmd)
    && d == Addressee(M) != 0 && Mirrors(M[0].parties[d], n)
    && |buf| == n.parBlocks && Offers(M, d, 8, 2 * n.parBlocks, buf)
  }

  predicate DataArmed(M: seq<Sys>, n: Node) {
    && |M| >= 1 && |M[0].parties| >= 1 && Cs(M[0]).ctl.flag == DATA_REQ && RequestBlocks(M) == 0
    && PrmFrameBlocks(Cs(M[0])) == n.parBlocks && Cs(M[0]).win.prmOffset == n.parBase
    && FrameFits(n.parBase, n.parBlocks, |Cs(M[0]).mem.prm|, |Cs(M[0]).mem.prmBuf|)
  }

  lemma DataIsArmed(M: seq<Sys>, rows: seq<Row>, n: Node, p: Party)
    requires NodeServed(p, n) && !p.ctl.busy && |M| >= 1 && |M[0].parties| >= 1
    requires Cs(M[0]) == ArmParty(p, [], rows, n, 0, DataTask, p.mem.cmd)
    ensures DataArmed(M, n)
  {
    hide ArmParty, CalcNBlocks;
    ArmedForNode(p, [], rows, n, 0, DataTask, p.mem.cmd);
  }

  lemma DataIsFull(S: seq<Sys>, M: seq<Sys>, t0: nat, rows: seq<Row>, n: Node, p: Party, d: nat, buf: seq<word>)
    requires DataRun(S, M, t0, rows, n, p, d, buf)
    ensures DataArmed(M, n)
    ensures FullExchange(S, M, rows, t0, d, 0, n.parBlocks)
    ensures |buf| == n.parBlocks && Offers(M, d, 8, 2 * n.parBlocks, buf)
  {
    hide InPhase, Tick, ArmParty, CalcNBlocks, Armed, Offers;
    assert InPhase(S[0], Quiet) && IsRun(S, M, rows, t0);
    assert App(S[0], M[0]);
    DataIsArmed(M, rows, n, p);
    DevicesStayPlain(S, M, rows, t0, 0, d);
  }

  // --- the device while it answers ---------------------------------------------------------

  lemma Responder(S: seq<Sys>, M: seq<Sys>, rows: seq<Row>, t0: nat, d: nat, n: nat, j: nat)
    requires FullExchange(S, M, rows, t0, d, 0, n) && Cs(M[0]).ctl.flag == DATA_REQ
    requires 8 <= j < 8 + 2 * n
    ensures j < |M| && d < |M[j].parties|
    ensures M[j].parties[d].ctl.flag == DATA_RESP && PrmFrameBlocks(M[j].parties[d]) == PrmFrameBlocks(M[0].parties[d]) == n
  {
    hide Tick, PayloadFrom, CalcNBlocks, OneBehind, FrameBlocks;
    ResponseLength(S, M, rows, t0, d, 0, n);
    var k := j - 5;
    DuringResponse(S, M, rows, t0, d, 4, n, k);
    assert App(S[j], M[j]);
    var sent := PayloadFrom(M, d, 8, PayloadCount(k, n));
    AppKeepsPhase(S[j], M[j], Response(d, k, n, DATA_RESP, sent));
    SenderPosition(M[j].parties[d], k, n, Cs(M[j]).who.selfAddr, DATA_RESP);
    SameFrame(S, M, rows, t0, j, d);
  }

  lemma SameFrame(S: seq<Sys>, M: seq<Sys>, rows: seq<Row>, t0: nat, j: nat, d: nat)
    requires IsRun(S, M, rows, t0) && InPhase(S[0], Quiet) && j < |M| && 1 <= d < |M[0].parties| && d < |M[j].parties|
    ensures PrmFrameBlocks(M[j].parties[d]) == PrmFrameBlocks(M[0].parties[d])
  {
    hide InPhase, Tick, App;
    AddressesStand(S, M, rows, t0, j);
    DevicesStayPlain(S, M, rows, t0, j, d);
    DevicesStayPlain(S, M, rows, t0, 0, d);
  }

  // --- the window --------------------------------------------------------------------------

  // Blocks offset to offset + n - 1 of prm are buf.
  predicate WindowIs(prm: seq<word>, offset: nat, n: nat, buf: seq<word>) {
    offset + n <= |prm| && n <= |buf| && prm[offset..offset + n] == buf[..n]
  }

  lemma WindowFromBytes(prm: seq<word>, offset: nat, n: nat, buf: seq<word>, payload: seq<byte>)
    requires offset + n <= |prm| && n <= |buf| && |payload| == 2 * n
    requires WindowHolds(prm, offset, n, payload) && Holds(buf, n, payload)
    ensures WindowIs(prm, offset, n, buf)
  {
    var w := prm[offset..offset + n];
    forall j: nat | j < 2 * n ensures ReadByte(w, j) == ReadByte(buf, j) {
      assert ReadByte(prm, 2 * offset + j) == Some(payload[j]);
      assert (2 * offset + j) / 2 == offset + j / 2 && (2 * offset + j) % 2 == j % 2;
    }
    SameBytes(w, buf, n);
    assert w[..n] == w;
  }

  predicate WindowAt(S: seq<Sys>, j: nat, offset: nat, n: nat, buf: seq<word>) {
    j < |S| && |S[j].parties| >= 1 && WindowIs(Cs(S[j]).mem.prm, offset, n, buf)
  }

  // A data exchange with a present device succeeds and leaves what the device offered in its window.
  lemma WindowArrives(S: seq<Sys>, M: seq<Sys>, t0: nat, rows: seq<Row>, n: Node, p: Party, d: nat, buf: seq<word>)
    requires DataRun(S, M, t0, rows, n, p, d, buf)
    ensures WindowAt(S, 2 * n.parBlocks + 10, n.parBase, n.parBlocks, buf)
    ensures SucceededAt(S, 2 * n.parBlocks + 10)
  {
    hide *;
    DataIsFull(S, M, t0, rows, n, p, d, buf);
    WindowOfExchange(S, M, t0, rows, n, d, buf);
  }

  lemma WindowOfExchange(S: seq<Sys>, M: seq<Sys>, t0: nat, rows: seq<Row>, n: Node, d: nat, buf: seq<word>)
    requires DataArmed(M, n) && FullExchange(S, M, rows, t0, d, 0, n.parBlocks)
    requires |buf| == n.parBlocks && Offers(M, d, 8, 2 * n.parBlocks, buf)
    ensures WindowAt(S, 2 * n.parBlocks + 10, n.parBase, n.parBlocks, buf)
    ensures SucceededAt(S, 2 * n.parBlocks + 10)
  {
    hide Tick, Addressee, CalcNBlocks, Armed, InRequest, InResponse, InTurnaround, InWaiting, App, PayloadFrom, WindowHolds, FrameBlocks;
    var b := n.parBlocks;
    ExchangeTiming(S, M, rows, t0, d, 0, b);
    DataDelivered(S, M, rows, t0, d, 0, b);
    forall j | 8 <= j < 8 + 2 * b
      ensures d < |M[j].parties| && M[j].parties[d].ctl.flag == DATA_RESP && M[j].parties[d].mem.prmBuf == buf
           && PrmFrameBlocks(M[j].parties[d]) == b
    {
      Responder(S, M, rows, t0, d, b, j);
    }
    StableBufferIsSnapshot(M, d, 8, b, buf);
    WindowFromBytes(Cs(S[2 * b + 10]).mem.prm, n.parBase, b, buf, PayloadFrom(M, d, 8, 2 * b));
  }

  // --- the theorem -------------------------------------------------------------------------

  // CS, looking the parameter up in its area, gets the quantised x.
  predicate CsReads(S: seq<Sys>, j: nat, t: P.Tables, id: nat, x: real, root: real) {
    && j < |S| && |S[j].parties| >= 1 && t.IsParam(id) && t.params[id].Width() > 0 && C.Accepts(t.params[id], x)
    && P.GetValue(P.Context(P.CsSide, SYS_CS, Cs(S[j]).mem.prm, Cs(S[j]).mem.cmd), t, id)
       == P.Parsed(C.Ok, P.Quantised(t.params[id], x, root))
  }

  // The device's buffer holds the pattern of x for a parameter whose CS block is its own block in the
  // node's window.
  predicate Reports(buf: seq<word>, n: Node, t: P.Tables, id: nat, x: real, root: real) {
    && t.IsParam(id) && t.params[id].DeviceField().Fits(|buf|) && t.params[id].csBlock == n.parBase + t.params[id].block
    && C.Accepts(t.params[id], x) && C.RootOk(t.params[id], x, root)
    && Get(buf, t.params[id].DeviceField()) == P.Pattern(t.params[id], x, root)
  }

  lemma FieldInWindow(prm: seq<word>, offset: nat, n: nat, buf: seq<word>, row: Row)
    requires WindowIs(prm, offset, n, buf) && |buf| == n && row.DeviceField().Fits(n) && row.csBlock == offset + row.block
    ensures row.CsField().Fits(|prm|) && Get(prm, row.CsField()) == Get(buf, row.DeviceField())
  {
    assert prm[offset..offset + n][row.block] == prm[offset + row.block];
  }

  // What a device reports in its parameter buffer, CS reads quantised once the exchange has succeeded.
  lemma ReportedIsRead(S: seq<Sys>, M: seq<Sys>, t0: nat, n: Node, p: Party, d: nat, buf: seq<word>,
                       t: P.Tables, id: nat, x: real, root: real)
    requires DataRun(S, M, t0, t.comms, n, p, d, buf) && Reports(buf, n, t, id, x, root)
    ensures CsReads(S, 2 * n.parBlocks + 10, t, id, x, root)
    ensures SucceededAt(S, 2 * n.parBlocks + 10)
  {
    WindowArrives(S, M, t0, t.comms, n, p, d, buf);
    assert |buf| == n.parBlocks by { hide StartsExchange, ArmParty, Addressee, Mirrors; }
    hide DataRun, SucceededAt, P.GetValue, P.Pattern, P.Quantised, C.Accepts, C.RootOk, Get, WindowIs;
    var q := Cs(S[2 * n.parBlocks + 10]);
    FieldInWindow(q.mem.prm, n.parBase, n.parBlocks, buf, t.params[id]);
    P.CsReads(P.Context(P.CsSide, SYS_CS, q.mem.prm, q.mem.cmd), t, id, x, root);
  }
}
