// A sender and a listener at known positions of one frame, and what one tick does to each.
module Lockstep {
  import opened Wire
  import opened CommTable
  import opened BusExchange
  import H = MsgHeader

  const MAX_BLOCKS: nat := 31

  function FrameLength(n: nat): nat { 4 + 2 * n }

  // w is the header of a frame with these fields.
  predicate HeaderFor(w: word, dst: nat, flag: nat, n: nat) {
    H.Parse(w).Some? && var h := H.Parse(w).value; h.addr == dst && h.flag == flag && h.nblocks == n
  }

  // Fields that survive the narrowing to the header's bit widths.
  predicate Carriable(dst: nat, flag: nat, n: nat) { dst < 32 && flag < 4 && n <= MAX_BLOCKS }

  // p is sending a frame and has written k of its bytes.
  predicate TxAt(p: Party, k: nat, n: nat, dst: nat, flag: nat) {
    && p.ctl.exchange == Tx && p.targetAddr == dst && p.ctl.flag == flag
    && (k <= 1 ==> CalcNBlocks(p) == n)
    && (k >= 2 ==> p.ctl.nBlocks == n && HeaderFor(p.ctl.header, dst, flag, n))
    && (if k == 0 then p.ctl.tx == TxSof
        else if k <= 2 then p.ctl.tx == TxHeader && p.ctl.subClock == k - 1
        else if k < 3 + 2 * n then p.ctl.tx == TxData && p.ctl.subClock == k - 3
        else k == 3 + 2 * n && p.ctl.tx == TxEof)
  }

  // p is receiving a frame with header w and has consumed k of its bytes.
  predicate RxAt(p: Party, k: nat, n: nat, dst: nat, flag: nat, w: word) {
    && p.ctl.exchange == Rx
    && (k >= 3 ==> p.ctl.nBlocks == n && p.ctl.flag == flag && p.ctl.adrFlag == (dst == p.who.selfAddr))
    && (if k == 0 then p.ctl.rx == RxSof
        else if k == 1 then p.ctl.rx == RxHeader && p.ctl.subClock == 0
        else if k == 2 then p.ctl.rx == RxHeader && p.ctl.subClock == 1 && p.ctl.header % 256 == w % 256
        else if k < 3 + 2 * n then p.ctl.rx == RxData && p.ctl.subClock == k - 3
        else k == 3 + 2 * n && p.ctl.rx == RxEof)
  }

  // Byte k of the frame with header w and payload sent.
  function FrameByte(k: nat, n: nat, w: word, sent: seq<byte>): byte
    requires 3 <= k < 3 + 2 * n ==> k - 3 < |sent|
  {
    if k == 0 then SOF else if k == 1 then w % 256 else if k == 2 then w / 256
    else if k < 3 + 2 * n then sent[k - 3] else EOF
  }

  // Payload bytes among the first k bytes of a frame.
  function PayloadCount(k: nat, n: nat): nat {
    if k <= 3 then 0 else if k <= 3 + 2 * n then k - 3 else 2 * n
  }

  // What an addressed listener has collected.
  predicate Collected(p: Party, dst: nat, flag: nat, got: seq<byte>) {
    dst == p.who.selfAddr ==>
      && (flag == CMD_REQ ==> Holds(p.mem.cmdBuf, CmdFrameBlocks(p), got))
      && (flag == DATA_RESP ==> Holds(p.mem.prmBuf, PrmFrameBlocks(p), got))
  }

  // The flag of the frame that answers this one.
  function Answer(flag: nat): nat { flag + 1 }

  // p has just written its EOF and is listening again.
  predicate Finished(p: Party, dst: nat, flag: nat, n: nat) {
    && p.ctl.exchange == Rx && p.ctl.rx == RxSof && p.ctl.waitClock == 0 && HeaderFor(p.ctl.header, dst, flag, n)
    && (p.who.role == Master && (flag == CMD_REQ || flag == DATA_REQ) ==> p.ctl.flag == Answer(flag))
  }

  predicate SameButControl(p: Party, q: Party) {
    q.who == p.who && q.targetAddr == p.targetAddr && q.mem == p.mem && q.win == p.win
  }

  predicate SameResult(p: Party, q: Party) {
    q.ctl.resultReady == p.ctl.resultReady && q.ctl.lastResult == p.ctl.lastResult
  }

  // A sender writes the next byte of its frame; payload bytes come from its buffer as it is now.
  lemma SendStep(p: Party, tick: nat, k: nat, n: nat, dst: nat, flag: nat, sent: seq<byte>)
    requires TxAt(p, k, n, dst, flag) && Carriable(dst, flag, n) && |sent| == PayloadCount(k, n)
    ensures var out := Transmit(p, tick); var q := out.party;
      var after := if 3 <= k < 3 + 2 * n then sent + [PayloadByte(p, k - 3)] else sent;
      && |after| == PayloadCount(k + 1, n) && SameButControl(p, q) && SameResult(p, q)
      && (k >= 2 ==> q.ctl.header == p.ctl.header)
      && out.write == Some(FrameByte(k, n, q.ctl.header, after))
      && (k < 3 + 2 * n ==> TxAt(q, k + 1, n, dst, flag))
      && (k == 3 + 2 * n ==> Finished(q, dst, flag, n))
      && (p.ctl.busy && q.who.role == Master && (flag == CMD_REQ || flag == DATA_REQ) ==> q.ctl.busy)
  {
    hide H.Parse, H.Make, FrameBlocks;
    if k == 1 {
      H.ParseOfMake(dst, flag, tick % 256, n);
      assert p.ctl.subClock == 0;
    }
  }

  // A listener that gets the next byte of the frame advances by one, keeping an addressed payload.
  lemma ListenStep(p: Party, rows: seq<Row>, k: nat, n: nat, dst: nat, flag: nat, w: word, b: byte, got: seq<byte>)
    requires RxAt(p, k, n, dst, flag, w) && Carriable(dst, flag, n) && !TimesOut(p) && k < 3 + 2 * n
    requires k >= 2 ==> HeaderFor(w, dst, flag, n)
    requires k == 0 ==> b == SOF
    requires k == 1 ==> b == w % 256
    requires k == 2 ==> b == w / 256
    requires |got| == PayloadCount(k, n) && Collected(p, dst, flag, got)
    ensures var q := Receive(p, rows, Some(b));
      && RxAt(q, k + 1, n, dst, flag, w) && q.who == p.who && q.targetAddr == p.targetAddr && q.win == p.win
      && SameResult(p, q) && q.ctl.waitClock == 0 && (p.ctl.busy ==> q.ctl.busy)
      && Collected(q, dst, flag, if k < 3 then got else got + [b])
      && (dst != p.who.selfAddr || (flag != CMD_REQ && flag != DATA_RESP) ==> q.mem == p.mem)
      && q.mem.cmd == p.mem.cmd && q.mem.prm == p.mem.prm && |q.mem.cmdBuf| == |p.mem.cmdBuf| && |q.mem.prmBuf| == |p.mem.prmBuf|
      && (flag != CMD_REQ ==> q.mem.cmdBuf == p.mem.cmdBuf) && (flag != DATA_RESP ==> q.mem.prmBuf == p.mem.prmBuf)
  {
    hide H.Parse, FrameBlocks, Holds;
    if k == 2 {
      HeaderCompletes(Waited(p).ctl.header, w);
    } else if k >= 3 {
      if p.ctl.adrFlag && flag == CMD_REQ { HoldsMore(p.mem.cmdBuf, CmdFrameBlocks(p), got, b); }
      if p.ctl.adrFlag && flag == DATA_RESP { HoldsMore(p.mem.prmBuf, PrmFrameBlocks(p), got, b); }
    } else if k == 1 {
      H.LowByteWritten(Waited(p).ctl.header, b);
    }
    if k < 3 { HoldsNothing(p.mem.cmdBuf, CmdFrameBlocks(p)); HoldsNothing(p.mem.prmBuf, PrmFrameBlocks(p)); }
  }

  lemma HoldsNothing(buf: seq<word>, cap: nat)
    ensures Holds(buf, cap, [])
  {
  }

  lemma HeaderCompletes(held: word, w: word)
    requires held % 256 == w % 256
    ensures H.WriteHeaderByte(held, 1, w / 256) == w
  {
  }

  // The EOF of a frame for someone else only ends it.
  lemma EofElsewhere(p: Party, rows: seq<Row>, n: nat, dst: nat, flag: nat, w: word)
    requires RxAt(p, 3 + 2 * n, n, dst, flag, w) && dst != p.who.selfAddr && !TimesOut(p)
    ensures Receive(p, rows, Some(EOF)) == ResetToIdle(Waited(p))
  {
  }

  // The EOF of a request makes its addressee merge the commands it carried and answer.
  lemma EofOfRequest(p: Party, rows: seq<Row>, n: nat, dst: nat, flag: nat, w: word)
    requires RxAt(p, 3 + 2 * n, n, dst, flag, w) && dst == p.who.selfAddr && p.who.role == Device
    requires flag == CMD_REQ || flag == DATA_REQ
    ensures Receive(p, rows, Some(EOF))
         == StartResponse(if flag == CMD_REQ then MergeCommands(p, rows) else p, Answer(flag))
  {
  }

  // The EOF of a response completes the master's exchange; a data response is committed first.
  lemma EofOfResponse(p: Party, rows: seq<Row>, n: nat, dst: nat, flag: nat, w: word)
    requires RxAt(p, 3 + 2 * n, n, dst, flag, w) && dst == p.who.selfAddr && p.who.role == Master && !TimesOut(p)
    requires flag == CMD_RESP || flag == DATA_RESP
    ensures var q := Waited(p);
      Receive(p, rows, Some(EOF)) == FinishFrame(if flag == DATA_RESP then CommitParams(q) else q)
  {
  }

  // Silence, and a byte that is not SOF, leave an idle listener where it is.
  lemma IdleStep(p: Party, rows: seq<Row>, v: Option<byte>)
    requires p.ctl.exchange == Rx && p.ctl.rx == RxSof && !TimesOut(p) && v != Some(SOF)
    ensures Receive(p, rows, v) == Waited(p)
  {
  }
}
