// Both ways a busy master goes idle without a result do happen: a concrete byte stream for each.
module SilentEnds {
  import opened Wire
  import opened CommTable
  import opened BusExchange
  import opened Lockstep
  import H = MsgHeader

  // Four bytes from tick start on: a whole frame without payload, and silence otherwise.
  function FrameStream(start: nat, w: word): nat -> Option<byte> {
    i => if i == start then Some(SOF) else if i == start + 1 then Some(LowByte(w)) else if i == start + 2 then Some(HighByte(w))
         else if i == start + 3 then Some(EOF) else None
  }

  function LowByte(w: word): byte { w % 256 }

  function HighByte(w: word): byte { w / 256 }

  predicate Carrying(bytes: nat -> Option<byte>, start: nat, w: word) {
    && bytes(start) == Some(SOF) && bytes(start + 1) == Some(LowByte(w)) && bytes(start + 2) == Some(HighByte(w))
    && bytes(start + 3) == Some(EOF)
  }

  lemma StreamCarries(start: nat, w: word)
    ensures Carrying(FrameStream(start, w), start, w)
  {
  }

  // A master armed for a data request, as arming leaves it.
  predicate FreshlyArmed(p: Party) {
    && p.who.role == Master && p.ctl.exchange == Tx && p.ctl.tx == TxSof && p.ctl.flag == DATA_REQ && p.ctl.busy
    && !p.ctl.resultReady && p.targetAddr < 32 && p.who.selfAddr < 32
  }

  lemma RunNext(p: Party, rows: seq<Row>, t: nat, bytes: nat -> Option<byte>, m: nat)
    ensures Run(p, rows, t, bytes, m + 1) == Step(Run(p, rows, t, bytes, m), rows, t + m, bytes(t + m)).party
  {
    hide Step;
    assert t + (m + 1) - 1 == t + m;
  }

  lemma StepSends(p: Party, rows: seq<Row>, t: nat, v: Option<byte>)
    requires p.ctl.exchange == Tx
    ensures Step(p, rows, t, v) == Transmit(p, t)
  {
    hide Transmit, Receive;
  }

  lemma StepHears(p: Party, rows: seq<Row>, t: nat, v: Option<byte>)
    requires p.ctl.exchange == Rx
    ensures Step(p, rows, t, v).party == Receive(p, rows, v)
  {
    hide Transmit, Receive;
  }

  // Sending a frame without payload: after k of its bytes.
  lemma {:induction false} Sending(p: Party, rows: seq<Row>, t: nat, bytes: nat -> Option<byte>, m: nat, k: nat, dst: nat, flag: nat)
    requires k <= 3 && Carriable(dst, flag, 0) && TxAt(Run(p, rows, t, bytes, m), 0, 0, dst, flag)
    ensures var q, r := Run(p, rows, t, bytes, m), Run(p, rows, t, bytes, m + k);
      TxAt(r, k, 0, dst, flag) && SameButControl(q, r) && SameResult(q, r)
    decreases k
  {
    hide TxAt, Carriable, Transmit, Step, Run;
    if k > 0 {
      Sending(p, rows, t, bytes, m, k - 1, dst, flag);
      var r := Run(p, rows, t, bytes, m + (k - 1));
      RunNext(p, rows, t, bytes, m + (k - 1));
      TxIsSending(r, k - 1, dst, flag);
      StepSends(r, rows, t + (m + (k - 1)), bytes(t + (m + (k - 1))));
      SendStep(r, t + (m + (k - 1)), k - 1, 0, dst, flag, []);
    }
  }

  lemma TxIsSending(p: Party, k: nat, dst: nat, flag: nat)
    requires TxAt(p, k, 0, dst, flag)
    ensures p.ctl.exchange == Tx
  {
  }

  // The master after the EOF of a frame without payload: listening for the answer to its request, or done.
  lemma SentFrame(p: Party, rows: seq<Row>, t: nat, bytes: nat -> Option<byte>, m: nat, dst: nat, flag: nat)
    requires Carriable(dst, flag, 0) && TxAt(Run(p, rows, t, bytes, m), 0, 0, dst, flag)
    requires Run(p, rows, t, bytes, m).who.role == Master && (flag == DATA_REQ || flag == CMD_RESP)
    ensures var q, r := Run(p, rows, t, bytes, m), Run(p, rows, t, bytes, m + 4);
      && SameButControl(q, r) && SameResult(q, r) && r.ctl.exchange == Rx && r.ctl.rx == RxSof && r.ctl.waitClock == 0
      && (flag == CMD_RESP ==> !r.ctl.busy)
  {
    Sending(p, rows, t, bytes, m, 3, dst, flag);
    var r := Run(p, rows, t, bytes, m + 3);
    RunNext(p, rows, t, bytes, m + 3);
    StepSends(r, rows, t + (m + 3), bytes(t + (m + 3)));
    hide Run, Step, Carriable;
  }

  // Hearing a frame without payload: after k of its first three bytes.
  lemma {:induction false} Hearing(p: Party, rows: seq<Row>, t: nat, bytes: nat -> Option<byte>, m: nat, k: nat,
                                   dst: nat, flag: nat, w: word)
    requires k <= 3 && Carriable(dst, flag, 0) && HeaderFor(w, dst, flag, 0) && Carrying(bytes, t + m, w)
    requires RxAt(Run(p, rows, t, bytes, m), 0, 0, dst, flag, w) && Run(p, rows, t, bytes, m).ctl.waitClock == 0
    ensures var q, r := Run(p, rows, t, bytes, m), Run(p, rows, t, bytes, m + k);
      RxAt(r, k, 0, dst, flag, w) && SameResult(q, r) && r.who == q.who && r.targetAddr == q.targetAddr && r.ctl.waitClock == 0
    decreases k
  {
    hide RxAt, Carriable, HeaderFor, Receive, Step, Run, Collected;
    if k > 0 {
      Hearing(p, rows, t, bytes, m, k - 1, dst, flag, w);
      var r := Run(p, rows, t, bytes, m + (k - 1));
      RunNext(p, rows, t, bytes, m + (k - 1));
      RxIsHearing(r, k - 1, dst, flag, w);
      var b := if k == 1 then SOF else if k == 2 then LowByte(w) else HighByte(w);
      assert bytes(t + (m + (k - 1))) == Some(b);
      StepHears(r, rows, t + (m + (k - 1)), Some(b));
      NothingCollected(r, dst, flag);
      ListenStep(r, rows, k - 1, 0, dst, flag, w, b, []);
    }
  }

  lemma RxIsHearing(p: Party, k: nat, dst: nat, flag: nat, w: word)
    requires RxAt(p, k, 0, dst, flag, w)
    ensures p.ctl.exchange == Rx
  {
  }

  lemma NothingCollected(p: Party, dst: nat, flag: nat)
    ensures Collected(p, dst, flag, [])
  {
    hide FrameBlocks;
  }

  lemma MadeHeader(dst: nat, flag: nat)
    requires dst < 32 && flag < 4
    ensures HeaderFor(H.Make(dst, flag, 0, 0), dst, flag, 0)
  {
    H.ParseOfMake(dst, flag, 0, 0);
    hide H.Make, H.Parse;
  }

  lemma ArmedStarts(p: Party)
    requires FreshlyArmed(p)
    ensures TxAt(p, 0, 0, p.targetAddr, DATA_REQ) && Carriable(p.targetAddr, DATA_REQ, 0)
  {
  }

  // The master four ticks after it was armed, listening.
  lemma Listens(p: Party, rows: seq<Row>, t: nat, bytes: nat -> Option<byte>, dst: nat, flag: nat, w: word)
    requires FreshlyArmed(p)
    ensures var r := Run(p, rows, t, bytes, 4);
      RxAt(r, 0, 0, dst, flag, w) && r.ctl.waitClock == 0 && r.who == p.who && r.targetAddr == p.targetAddr && !r.ctl.resultReady
  {
    hide Run, TxAt, Carriable;
    ArmedStarts(p);
    AtZero(p, rows, t, bytes);
    SentFrame(p, rows, t, bytes, 0, p.targetAddr, DATA_REQ);
  }

  lemma AtZero(p: Party, rows: seq<Row>, t: nat, bytes: nat -> Option<byte>)
    ensures Run(p, rows, t, bytes, 0) == p
  {
  }

  // A whole frame for another address, right after the request: eight ticks after arming the master is
  // idle and has no result.
  lemma AlienFrameEndsSilently(p: Party, rows: seq<Row>, t: nat, addr: nat)
    requires FreshlyArmed(p) && addr < 32 && addr != p.who.selfAddr
    ensures var r := Run(p, rows, t, FrameStream(t + 4, H.Make(addr, CMD_REQ, 0, 0)), 8);
      !r.ctl.busy && !r.ctl.resultReady
  {
    hide Run, RxAt, Carriable, HeaderFor, FreshlyArmed, Receive, H.Make;
    var w := H.Make(addr, CMD_REQ, 0, 0);
    var bytes := FrameStream(t + 4, w);
    MadeHeader(addr, CMD_REQ);
    StreamCarries(t + 4, w);
    Listens(p, rows, t, bytes, addr, CMD_REQ, w);
    CanCarry(addr);
    Hearing(p, rows, t, bytes, 4, 3, addr, CMD_REQ, w);
    var q := Run(p, rows, t, bytes, 7);
    RunNext(p, rows, t, bytes, 7);
    RxIsHearing(q, 3, addr, CMD_REQ, w);
    StepHears(q, rows, t + 7, Some(EOF));
    EofElsewhere(q, rows, 0, addr, CMD_REQ, w);
  }

  lemma CanCarry(addr: nat)
    requires addr < 32
    ensures Carriable(addr, CMD_REQ, 0)
  {
  }

  // A request addressed to the master itself, and then its own answer: twelve ticks after arming the
  // master is idle and has no result.
  lemma OwnAnswerEndsSilently(p: Party, rows: seq<Row>, t: nat)
    requires FreshlyArmed(p)
    ensures var r := Run(p, rows, t, FrameStream(t + 4, H.Make(p.who.selfAddr, CMD_REQ, 0, 0)), 12);
      !r.ctl.busy && !r.ctl.resultReady
  {
    hide Run, RxAt, TxAt, Carriable, HeaderFor, Receive, H.Make, MergeCommands;
    var w, me := H.Make(p.who.selfAddr, CMD_REQ, 0, 0), p.who.selfAddr;
    var bytes := FrameStream(t + 4, w);
    MadeHeader(me, CMD_REQ);
    StreamCarries(t + 4, w);
    Listens(p, rows, t, bytes, me, CMD_REQ, w);
    CanCarry(me);
    Hearing(p, rows, t, bytes, 4, 3, me, CMD_REQ, w);
    var q := Run(p, rows, t, bytes, 7);
    RunNext(p, rows, t, bytes, 7);
    RxIsHearing(q, 3, me, CMD_REQ, w);
    StepHears(q, rows, t + 7, Some(EOF));
    MasterAnswers(q, rows, me, w);
    var r := Run(p, rows, t, bytes, 8);
    SentFrame(p, rows, t, bytes, 8, r.targetAddr, CMD_RESP);
  }

  lemma MasterAnswers(q: Party, rows: seq<Row>, me: nat, w: word)
    requires RxAt(q, 3, 0, me, CMD_REQ, w) && q.who.selfAddr == me && q.ctl.waitClock == 0 && q.targetAddr < 32
    ensures var r := Receive(q, rows, Some(EOF));
      TxAt(r, 0, 0, r.targetAddr, CMD_RESP) && Carriable(r.targetAddr, CMD_RESP, 0) && r.who == q.who && SameResult(q, r)
  {
    hide Overlay;
  }
}
