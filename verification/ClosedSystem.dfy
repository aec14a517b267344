// One master and any set of devices on one bus: every reachable joint state is in lockstep.
module ClosedSystem {
  import opened Wire
  import opened MsgBlock
  import opened CommTable
  import opened BusExchange
  import opened Lockstep
  import H = MsgHeader

  // Party 0 is the master. visible is the byte every party reads in the coming tick.
  datatype Sys = Sys(parties: seq<Party>, visible: Option<byte>)

  function Cs(s: Sys): Party
    requires |s.parties| >= 1
  {
    s.parties[0]
  }

  // --- one tick ----------------------------------------------------------------------------

  function Outs(s: Sys, rows: seq<Row>, t: nat): (outs: seq<Out>)
    ensures |outs| == |s.parties|
    ensures forall i | 0 <= i < |outs| :: outs[i] == Step(s.parties[i], rows, t, s.visible)
  {
    seq(|s.parties|, i requires 0 <= i < |s.parties| => Step(s.parties[i], rows, t, s.visible))
  }

  // The byte pending on the bus once the first n parties have stepped in order.
  function LastWrite(outs: seq<Out>, n: nat): Option<byte>
    requires n <= |outs|
  {
    if n == 0 then None else if outs[n - 1].write.Some? then outs[n - 1].write else LastWrite(outs, n - 1)
  }

  // Every party steps on the visible byte; what was written becomes visible.
  function Tick(s: Sys, rows: seq<Row>, t: nat): (r: Sys)
    ensures |r.parties| == |s.parties|
    ensures forall i | 0 <= i < |s.parties| :: r.parties[i] == Step(s.parties[i], rows, t, s.visible).party
  {
    var outs := Outs(s, rows, t);
    Sys(seq(|outs|, i requires 0 <= i < |outs| => outs[i].party), LastWrite(outs, |outs|))
  }

  lemma {:induction false} SoleWriter(outs: seq<Out>, n: nat, j: nat)
    requires j < n <= |outs| && outs[j].write.Some?
    requires forall i: nat | i < n && i != j :: outs[i].write == None
    ensures LastWrite(outs, n) == outs[j].write
    decreases n
  {
    if n - 1 != j { SoleWriter(outs, n - 1, j); }
  }

  lemma {:induction false} NoWriter(outs: seq<Out>, n: nat)
    requires n <= |outs|
    requires forall i: nat | i < n :: outs[i].write == None
    ensures LastWrite(outs, n) == None
    decreases n
  {
    if n > 0 { NoWriter(outs, n - 1); }
  }

  // --- what software outside the exchange machine may do between exchange steps ------------

  predicate SameSizes(m: Memory, n: Memory) {
    |n.cmdBuf| == |m.cmdBuf| && |n.prmBuf| == |m.prmBuf| && |n.cmd| == |m.cmd| && |n.prm| == |m.prm|
  }

  // A device's own algorithms: they execute commands and refresh parameters, and the buffer the
  // device answers from, in any tick.
  predicate DeviceApp(p: Party, q: Party) {
    && q.who == p.who && q.targetAddr == p.targetAddr && q.win == p.win && q.ctl == p.ctl
    && SameSizes(p.mem, q.mem) && q.mem.cmdBuf == p.mem.cmdBuf
  }

  predicate Idle(p: Party) { p.ctl.exchange == Rx && p.ctl.rx == RxSof && !p.ctl.busy }

  // The master as it is armed for a request.
  predicate Armed(p: Party) {
    && p.ctl.exchange == Tx && p.ctl.tx == TxSof && p.ctl.busy && !p.ctl.resultReady
    && (p.ctl.flag == CMD_REQ || p.ctl.flag == DATA_REQ)
    && p.targetAddr < 32 && CalcNBlocks(p) <= MAX_BLOCKS
  }

  // The master's algorithms: while an exchange is in flight they may only rewrite the contents of
  // the command arrays; otherwise they may do anything, including arming an exchange.
  predicate MasterApp(p: Party, q: Party) {
    && q.who == p.who && SameSizes(p.mem, q.mem)
    && (if p.ctl.busy
        then q.targetAddr == p.targetAddr && q.win == p.win && q.ctl == p.ctl
             && q.mem.prmBuf == p.mem.prmBuf && q.mem.prm == p.mem.prm
        else Idle(q) || Armed(q))
  }

  predicate App(s: Sys, m: Sys) {
    && |s.parties| >= 1 && |m.parties| == |s.parties| && m.visible == s.visible
    && MasterApp(s.parties[0], m.parties[0])
    && forall i | 1 <= i < |s.parties| :: DeviceApp(s.parties[i], m.parties[i])
  }

  // --- the configuration -------------------------------------------------------------------

  // A device sends and receives whole arrays, of at most 31 blocks.
  predicate PlainDevice(p: Party) {
    && p.who.role == Device && p.win == WholeWindows(p.mem)
    && CmdFrameBlocks(p) <= MAX_BLOCKS && PrmFrameBlocks(p) <= MAX_BLOCKS
  }

  // One master, devices with distinct addresses that answer to the master.
  ghost predicate Configured(s: Sys) {
    && |s.parties| >= 1 && s.parties[0].who.role == Master
    && (forall i | 0 <= i < |s.parties| :: s.parties[i].who.selfAddr < 32)
    && (forall i | 1 <= i < |s.parties| ::
          s.parties[i].targetAddr == s.parties[0].who.selfAddr && PlainDevice(s.parties[i]))
    && (forall i, j | 0 <= i < j < |s.parties| :: s.parties[i].who.selfAddr != s.parties[j].who.selfAddr)
  }

  predicate AtRest(p: Party) { p.ctl.exchange == Rx && p.ctl.rx == RxSof }

  // --- phases ------------------------------------------------------------------------------

  datatype Phase =
    | Quiet
      // the master has written k bytes of a request frame to dst
    | Request(k: nat, n: nat, dst: nat, flag: nat, sent: seq<byte>)
      // the whole request has been read by everyone and device d is about to answer
    | Turnaround(d: nat, flag: nat)
      // device d has written k bytes of its response frame
    | Response(d: nat, k: nat, n: nat, flag: nat, sent: seq<byte>)
      // nobody has the address of the request; the master has waited w ticks
    | Waiting(w: nat, dst: nat)

  // The byte visible after k bytes of a frame have been written.
  function Carried(k: nat, n: nat, w: word, sent: seq<byte>): Option<byte>
    requires 1 <= k <= FrameLength(n) && |sent| == PayloadCount(k, n)
  {
    Some(FrameByte(k - 1, n, w, sent))
  }

  // Listener p is exactly one byte behind a sender that has written k bytes.
  predicate OneBehind(p: Party, k: nat, n: nat, dst: nat, flag: nat, w: word, sent: seq<byte>)
    requires 1 <= k <= FrameLength(n) && |sent| == PayloadCount(k, n)
  {
    && RxAt(p, k - 1, n, dst, flag, w)
    && Collected(p, dst, flag, sent[..PayloadCount(k - 1, n)])
  }

  ghost predicate InRequest(s: Sys, k: nat, n: nat, dst: nat, flag: nat, sent: seq<byte>)
    requires Configured(s)
  {
    var m := Cs(s);
    && 1 <= k <= FrameLength(n) && |sent| == PayloadCount(k, n) && Carriable(dst, flag, n)
    && (flag == CMD_REQ || flag == DATA_REQ) && m.ctl.busy && !m.ctl.resultReady
    && (if k < FrameLength(n) then TxAt(m, k, n, dst, flag) else Finished(m, dst, flag, n))
    && (k >= 3 ==> HeaderFor(m.ctl.header, dst, flag, n))
    && s.visible == Carried(k, n, m.ctl.header, sent)
    && forall i | 1 <= i < |s.parties| :: OneBehind(s.parties[i], k, n, dst, flag, m.ctl.header, sent)
  }

  ghost predicate InTurnaround(s: Sys, d: nat, flag: nat)
    requires Configured(s)
  {
    var m := Cs(s);
    && 1 <= d < |s.parties| && s.visible == None && (flag == CMD_RESP || flag == DATA_RESP)
    && m.ctl.busy && !m.ctl.resultReady && AtRest(m) && m.ctl.waitClock == 1
    && s.parties[d].ctl.exchange == Tx && s.parties[d].ctl.tx == TxSof && s.parties[d].ctl.flag == flag
    && forall i | 1 <= i < |s.parties| && i != d :: AtRest(s.parties[i])
  }

  ghost predicate InResponse(s: Sys, d: nat, k: nat, n: nat, flag: nat, sent: seq<byte>)
    requires Configured(s)
  {
    var m, dst := Cs(s), Cs(s).who.selfAddr;
    && 1 <= d < |s.parties| && 1 <= k <= FrameLength(n) && |sent| == PayloadCount(k, n) && n <= MAX_BLOCKS
    && (flag == CMD_RESP || flag == DATA_RESP) && m.ctl.busy && !m.ctl.resultReady && m.ctl.waitClock <= 2
    && (if k < FrameLength(n) then TxAt(s.parties[d], k, n, dst, flag) else Finished(s.parties[d], dst, flag, n))
    && (k >= 3 ==> HeaderFor(s.parties[d].ctl.header, dst, flag, n))
    && s.visible == Carried(k, n, s.parties[d].ctl.header, sent)
    && forall i | 0 <= i < |s.parties| && i != d ::
         OneBehind(s.parties[i], k, n, dst, flag, s.parties[d].ctl.header, sent)
  }

  ghost predicate InWaiting(s: Sys, w: nat, dst: nat)
    requires Configured(s)
  {
    && w <= RESPONSE_TIMEOUT && s.visible == None && AtRest(Cs(s)) && Cs(s).ctl.busy
    && Cs(s).ctl.waitClock == w && !Cs(s).ctl.resultReady
    && forall i | 1 <= i < |s.parties| :: AtRest(s.parties[i]) && s.parties[i].who.selfAddr != dst
  }

  ghost predicate InPhase(s: Sys, ph: Phase) {
    && Configured(s)
    && match ph
       case Quiet => s.visible == None && Idle(Cs(s)) && forall i | 1 <= i < |s.parties| :: AtRest(s.parties[i])
       case Request(k, n, dst, flag, sent) => InRequest(s, k, n, dst, flag, sent)
       case Turnaround(d, flag) => InTurnaround(s, d, flag)
       case Response(d, k, n, flag, sent) => InResponse(s, d, k, n, flag, sent)
       case Waiting(w, dst) => InWaiting(s, w, dst)
  }

  // The device with this address, or 0 if there is none.
  function FindDevice(parties: seq<Party>, dst: nat, n: nat): (d: nat)
    requires n <= |parties|
    ensures d == 0 || (1 <= d < n && parties[d].who.selfAddr == dst)
    ensures d == 0 ==> forall i | 1 <= i < n :: parties[i].who.selfAddr != dst
  {
    if n <= 1 then 0
    else if parties[n - 1].who.selfAddr == dst then n - 1
    else FindDevice(parties, dst, n - 1)
  }

  function Sent(p: Party, k: nat, n: nat, sent: seq<byte>): seq<byte> {
    if 3 <= k < 3 + 2 * n then sent + [PayloadByte(p, k - 3)] else sent
  }

  // The phase after the tick in which the software had brought the joint state to m.
  function NextPhase(ph: Phase, m: Sys): Phase
    requires |m.parties| >= 1
    requires ph.Turnaround? || ph.Response? ==> ph.d < |m.parties|
  {
    var p := Cs(m);
    match ph
    case Quiet => if p.ctl.exchange == Tx then Request(1, CalcNBlocks(p), p.targetAddr, p.ctl.flag, []) else Quiet
    case Request(k, n, dst, flag, sent) =>
      if k < FrameLength(n) then Request(k + 1, n, dst, flag, Sent(p, k, n, sent))
      else
        var d := FindDevice(m.parties, dst, |m.parties|);
        if d == 0 then Waiting(1, dst) else Turnaround(d, Answer(flag))
    case Turnaround(d, flag) => Response(d, 1, CalcNBlocks(m.parties[d]), flag, [])
    case Response(d, k, n, flag, sent) =>
      if k < FrameLength(n) then Response(d, k + 1, n, flag, Sent(m.parties[d], k, n, sent)) else Quiet
    case Waiting(w, dst) => if w < RESPONSE_TIMEOUT then Waiting(w + 1, dst) else Quiet
  }

  // --- the software keeps the phase --------------------------------------------------------

  lemma AppKeepsConfiguration(s: Sys, m: Sys)
    requires Configured(s) && App(s, m)
    ensures Configured(m)
  {
    forall i | 1 <= i < |m.parties| ensures PlainDevice(m.parties[i]) {
      assert DeviceApp(s.parties[i], m.parties[i]);
    }
  }

  lemma AppKeepsListener(p: Party, q: Party, k: nat, n: nat, dst: nat, flag: nat, w: word, sent: seq<byte>)
    requires 1 <= k <= FrameLength(n) && |sent| == PayloadCount(k, n) && OneBehind(p, k, n, dst, flag, w, sent)
    requires (DeviceApp(p, q) && (flag != DATA_RESP || dst != p.who.selfAddr))
          || (p.ctl.busy && MasterApp(p, q) && (flag != CMD_REQ || dst != p.who.selfAddr))
    ensures OneBehind(q, k, n, dst, flag, w, sent)
  {
    hide FrameBlocks;
    assert CmdFrameBlocks(p) == CmdFrameBlocks(q) && PrmFrameBlocks(p) == PrmFrameBlocks(q);
  }

  lemma AppKeepsPhase(s: Sys, m: Sys, ph: Phase)
    requires InPhase(s, ph) && App(s, m) && !ph.Quiet?
    ensures InPhase(m, ph)
  {
    hide TxAt, OneBehind, Finished;
    AppKeepsConfiguration(s, m);
    match ph {
      case Request(k, n, dst, flag, sent) =>
        SenderUntouched(s.parties[0], m.parties[0], k, n, dst, flag);
        forall i | 1 <= i < |m.parties| ensures OneBehind(m.parties[i], k, n, dst, flag, Cs(m).ctl.header, sent) {
          assert OneBehind(s.parties[i], k, n, dst, flag, Cs(s).ctl.header, sent);
          AppKeepsListener(s.parties[i], m.parties[i], k, n, dst, flag, Cs(s).ctl.header, sent);
        }
      case Response(d, k, n, flag, sent) =>
        var dst := Cs(s).who.selfAddr;
        SenderUntouched(s.parties[d], m.parties[d], k, n, dst, flag);
        forall i | 0 <= i < |m.parties| && i != d
          ensures OneBehind(m.parties[i], k, n, dst, flag, m.parties[d].ctl.header, sent)
        {
          AppKeepsListener(s.parties[i], m.parties[i], k, n, dst, flag, s.parties[d].ctl.header, sent);
        }
      case _ =>
    }
  }

  lemma SenderUntouched(p: Party, q: Party, k: nat, n: nat, dst: nat, flag: nat)
    requires DeviceApp(p, q) || (p.ctl.busy && MasterApp(p, q))
    ensures TxAt(p, k, n, dst, flag) ==> TxAt(q, k, n, dst, flag)
    ensures Finished(p, dst, flag, n) ==> Finished(q, dst, flag, n)
  {
  }

  // --- the tick moves the phase on ---------------------------------------------------------

  lemma StepKeepsIdentity(p: Party, rows: seq<Row>, t: nat, v: Option<byte>)
    ensures var q := Step(p, rows, t, v).party;
      q.who == p.who && q.targetAddr == p.targetAddr && SameSizes(p.mem, q.mem)
      && (q.win == p.win || q.win == WholeWindows(p.mem))
  {
    hide H.Parse, H.Make, Overlay, CopyBlocks, WriteByte, FrameBlocks, H.WriteHeaderByte, ClampFrame;
  }

  lemma TickKeepsConfiguration(m: Sys, rows: seq<Row>, t: nat)
    requires Configured(m)
    ensures Configured(Tick(m, rows, t))
  {
    hide Step;
    var s := Tick(m, rows, t);
    forall i | 0 <= i < |m.parties| ensures s.parties[i].who == m.parties[i].who && s.parties[i].targetAddr == m.parties[i].targetAddr
                                         && (i >= 1 ==> PlainDevice(s.parties[i])) {
      StepKeepsIdentity(m.parties[i], rows, t, m.visible);
    }
  }

  // The state after a tick in which party j writes v and the others only listen.
  lemma OneWrites(m: Sys, rows: seq<Row>, t: nat, j: nat)
    requires j < |m.parties| && Step(m.parties[j], rows, t, m.visible).write.Some?
    requires forall i | 0 <= i < |m.parties| && i != j :: m.parties[i].ctl.exchange == Rx
    ensures Tick(m, rows, t).visible == Step(m.parties[j], rows, t, m.visible).write
  {
    hide Receive, Transmit;
    SoleWriter(Outs(m, rows, t), |m.parties|, j);
  }

  lemma NobodyWrites(m: Sys, rows: seq<Row>, t: nat)
    requires forall i | 0 <= i < |m.parties| :: m.parties[i].ctl.exchange == Rx
    ensures Tick(m, rows, t).visible == None
  {
    hide Receive, Transmit;
    NoWriter(Outs(m, rows, t), |m.parties|);
  }

  // A listener one byte behind reads the visible byte and stays one byte behind.
  lemma ListenerFollows(p: Party, rows: seq<Row>, t: nat, k: nat, n: nat, dst: nat, flag: nat, w: word,
                        sent: seq<byte>, more: seq<byte>)
    requires 1 <= k < FrameLength(n) && |sent| == PayloadCount(k, n) && Carriable(dst, flag, n)
    requires OneBehind(p, k, n, dst, flag, w, sent) && !TimesOut(p)
    requires k >= 3 ==> HeaderFor(w, dst, flag, n)
    requires |more| == PayloadCount(k + 1, n) && more[..|sent|] == sent
    ensures var q := Step(p, rows, t, Carried(k, n, w, sent)).party;
      && OneBehind(q, k + 1, n, dst, flag, w, more) && SameResult(p, q) && (p.ctl.busy ==> q.ctl.busy)
      && q.ctl.waitClock == 0 && q.mem.cmd == p.mem.cmd && q.mem.prm == p.mem.prm
      && (flag != CMD_REQ || dst != p.who.selfAddr ==> q.mem.cmdBuf == p.mem.cmdBuf)
      && (flag != DATA_RESP || dst != p.who.selfAddr ==> q.mem.prmBuf == p.mem.prmBuf)
  {
    hide Receive, Collected, HeaderFor;
    var got := sent[..PayloadCount(k - 1, n)];
    var b := FrameByte(k - 1, n, w, sent);
    ListenStep(p, rows, k - 1, n, dst, flag, w, b, got);
    assert (if k - 1 < 3 then got else got + [b]) == more[..PayloadCount(k, n)];
  }

  // An idle listener in a tick without SOF.
  lemma RestStep(p: Party, rows: seq<Row>, t: nat, v: Option<byte>)
    requires AtRest(p) && !TimesOut(p) && v != Some(SOF)
    ensures Step(p, rows, t, v) == Out(Waited(p), None)
  {
    hide Receive;
    IdleStep(p, rows, v);
  }

  lemma RestIsStart(p: Party, n: nat, dst: nat, flag: nat, w: word)
    requires AtRest(p)
    ensures OneBehind(p, 1, n, dst, flag, w, [])
  {
    assert Holds(p.mem.cmdBuf, CmdFrameBlocks(p), []) && Holds(p.mem.prmBuf, PrmFrameBlocks(p), []);
  }

  // --- phase by phase ----------------------------------------------------------------------

  lemma FromQuiet(s: Sys, m: Sys, rows: seq<Row>, t: nat)
    requires InPhase(s, Quiet) && App(s, m)
    ensures InPhase(Tick(m, rows, t), NextPhase(Quiet, m))
    ensures Idle(Cs(m)) ==> Tick(m, rows, t).parties == m.parties
  {
    hide Step, Transmit, TxAt, Finished, HeaderFor;
    var r := Tick(m, rows, t);
    AppKeepsConfiguration(s, m);
    TickKeepsConfiguration(m, rows, t);
    forall i | 1 <= i < |m.parties| ensures r.parties[i] == m.parties[i] && AtRest(m.parties[i]) {
      assert DeviceApp(s.parties[i], m.parties[i]);
      RestStep(m.parties[i], rows, t, m.visible);
    }
    if Idle(Cs(m)) {
      RestStep(Cs(m), rows, t, m.visible);
      NobodyWrites(m, rows, t);
    } else {
      var p := Cs(m);
      var n, dst, flag := CalcNBlocks(p), p.targetAddr, p.ctl.flag;
      ArmedIsStart(p);
      SendStep(p, t, 0, n, dst, flag, []);
      TransmitIsStep(p, rows, t, m.visible);
      OneWrites(m, rows, t, 0);
      forall i | 1 <= i < |m.parties| ensures OneBehind(r.parties[i], 1, n, dst, flag, Cs(r).ctl.header, []) {
        RestIsStart(m.parties[i], n, dst, flag, Cs(r).ctl.header);
      }
    }
  }

  lemma ArmedIsStart(p: Party)
    requires p.ctl.exchange == Tx && p.ctl.tx == TxSof
    ensures TxAt(p, 0, CalcNBlocks(p), p.targetAddr, p.ctl.flag)
  {
  }

  lemma TransmitIsStep(p: Party, rows: seq<Row>, t: nat, v: Option<byte>)
    requires p.ctl.exchange == Tx
    ensures Step(p, rows, t, v) == Transmit(p, t)
  {
  }

  lemma SenderTransmits(p: Party, k: nat, n: nat, dst: nat, flag: nat)
    requires TxAt(p, k, n, dst, flag)
    ensures p.ctl.exchange == Tx
  {
  }

  lemma ListenerReceives(p: Party, k: nat, n: nat, dst: nat, flag: nat, w: word, sent: seq<byte>)
    requires 1 <= k <= FrameLength(n) && |sent| == PayloadCount(k, n) && OneBehind(p, k, n, dst, flag, w, sent)
    ensures p.ctl.exchange == Rx
  {
  }

  lemma FromRequestMiddle(m: Sys, rows: seq<Row>, t: nat, k: nat, n: nat, dst: nat, flag: nat, sent: seq<byte>)
    requires Configured(m) && InRequest(m, k, n, dst, flag, sent) && k < FrameLength(n)
    ensures InPhase(Tick(m, rows, t), Request(k + 1, n, dst, flag, Sent(Cs(m), k, n, sent)))
    ensures SameButControl(Cs(m), Cs(Tick(m, rows, t)))
  {
    hide Step, Transmit, TxAt, Finished, HeaderFor, OneBehind;
    var r, p, more := Tick(m, rows, t), Cs(m), Sent(Cs(m), k, n, sent);
    TickKeepsConfiguration(m, rows, t);
    SenderTransmits(p, k, n, dst, flag);
    SendStep(p, t, k, n, dst, flag, sent);
    TransmitIsStep(p, rows, t, m.visible);
    forall i | 1 <= i < |m.parties| ensures m.parties[i].ctl.exchange == Rx {
      ListenerReceives(m.parties[i], k, n, dst, flag, p.ctl.header, sent);
    }
    OneWrites(m, rows, t, 0);
    HeaderAtTwo(p, t, k, n, dst, flag);
    forall i | 1 <= i < |m.parties| ensures OneBehind(r.parties[i], k + 1, n, dst, flag, Cs(r).ctl.header, more) {
      HeaderUnread(m.parties[i], k, n, dst, flag, p.ctl.header, Cs(r).ctl.header, sent);
      ListenerFollows(m.parties[i], rows, t, k, n, dst, flag, Cs(r).ctl.header, sent, more);
    }
  }

  // Writing the first header byte fixes the header; it carries the frame's fields from then on.
  lemma HeaderAtTwo(p: Party, t: nat, k: nat, n: nat, dst: nat, flag: nat)
    requires TxAt(p, k, n, dst, flag) && Carriable(dst, flag, n)
    ensures k >= 2 ==> HeaderFor(p.ctl.header, dst, flag, n)
  {
  }

  // A listener that has read nothing but SOF has not looked at the header yet.
  lemma HeaderUnread(p: Party, k: nat, n: nat, dst: nat, flag: nat, w: word, u: word, sent: seq<byte>)
    requires 1 <= k <= FrameLength(n) && |sent| == PayloadCount(k, n) && OneBehind(p, k, n, dst, flag, w, sent)
    ensures k <= 1 || u == w ==> OneBehind(p, k, n, dst, flag, u, sent) && (k <= 1 ==> Carried(k, n, u, sent) == Carried(k, n, w, sent))
  {
  }

  // A device once it has read the EOF of a request to dst.
  function AfterRequest(p: Party, rows: seq<Row>, dst: nat, flag: nat): Party {
    if p.who.selfAddr != dst then ResetToIdle(p)
    else StartResponse(if flag == CMD_REQ then MergeCommands(p, rows) else p, Answer(flag))
  }

  lemma FromRequestEnd(m: Sys, rows: seq<Row>, t: nat, n: nat, dst: nat, flag: nat, sent: seq<byte>)
    requires Configured(m) && InRequest(m, FrameLength(n), n, dst, flag, sent)
    ensures InPhase(Tick(m, rows, t), NextPhase(Request(FrameLength(n), n, dst, flag, sent), m))
    ensures SameButControl(Cs(m), Cs(Tick(m, rows, t)))
    ensures forall i | 1 <= i < |m.parties| :: Tick(m, rows, t).parties[i] == AfterRequest(m.parties[i], rows, dst, flag)
  {
    hide Step, HeaderFor, MergeCommands;
    var r, w := Tick(m, rows, t), Cs(m).ctl.header;
    TickKeepsConfiguration(m, rows, t);
    RestStep(Cs(m), rows, t, m.visible);
    forall i | 1 <= i < |m.parties|
      ensures m.parties[i].ctl.exchange == Rx && r.parties[i] == AfterRequest(m.parties[i], rows, dst, flag)
    {
      assert OneBehind(m.parties[i], FrameLength(n), n, dst, flag, w, sent);
      ReceiveIsStep(m.parties[i], rows, t, m.visible);
      if m.parties[i].who.selfAddr != dst {
        EofElsewhere(m.parties[i], rows, n, dst, flag, w);
      } else {
        EofOfRequest(m.parties[i], rows, n, dst, flag, w);
      }
    }
    NobodyWrites(m, rows, t);
  }

  lemma ReceiveIsStep(p: Party, rows: seq<Row>, t: nat, v: Option<byte>)
    requires p.ctl.exchange == Rx
    ensures Step(p, rows, t, v) == Out(Receive(p, rows, v), None)
  {
  }

  lemma FromTurnaround(m: Sys, rows: seq<Row>, t: nat, d: nat, flag: nat)
    requires Configured(m) && InTurnaround(m, d, flag)
    ensures InPhase(Tick(m, rows, t), Response(d, 1, CalcNBlocks(m.parties[d]), flag, []))
    ensures SameButControl(Cs(m), Cs(Tick(m, rows, t)))
  {
    hide Step, Transmit, TxAt, Finished, HeaderFor;
    var r, p := Tick(m, rows, t), m.parties[d];
    var n := CalcNBlocks(p);
    TickKeepsConfiguration(m, rows, t);
    ArmedIsStart(p);
    SendStep(p, t, 0, n, p.targetAddr, flag, []);
    TransmitIsStep(p, rows, t, m.visible);
    OneWrites(m, rows, t, d);
    RestStep(Cs(m), rows, t, m.visible);
    assert PlainDevice(p) && n <= MAX_BLOCKS;
    forall i | 0 <= i < |m.parties| && i != d ensures OneBehind(r.parties[i], 1, n, p.targetAddr, flag, r.parties[d].ctl.header, [])
    {
      RestStep(m.parties[i], rows, t, m.visible);
      RestIsStart(r.parties[i], n, p.targetAddr, flag, r.parties[d].ctl.header);
    }
  }

  lemma FromResponseMiddle(m: Sys, rows: seq<Row>, t: nat, d: nat, k: nat, n: nat, flag: nat, sent: seq<byte>)
    requires Configured(m) && InResponse(m, d, k, n, flag, sent) && k < FrameLength(n)
    ensures InPhase(Tick(m, rows, t), Response(d, k + 1, n, flag, Sent(m.parties[d], k, n, sent)))
    ensures SameWindows(Cs(m), Cs(Tick(m, rows, t)))
  {
    hide Step, Transmit, TxAt, Finished, HeaderFor, OneBehind;
    var r, p, more, dst := Tick(m, rows, t), m.parties[d], Sent(m.parties[d], k, n, sent), Cs(m).who.selfAddr;
    TickKeepsConfiguration(m, rows, t);
    SenderTransmits(p, k, n, dst, flag);
    SendStep(p, t, k, n, dst, flag, sent);
    TransmitIsStep(p, rows, t, m.visible);
    forall i | 0 <= i < |m.parties| && i != d ensures m.parties[i].ctl.exchange == Rx {
      ListenerReceives(m.parties[i], k, n, dst, flag, p.ctl.header, sent);
    }
    OneWrites(m, rows, t, d);
    HeaderAtTwo(p, t, k, n, dst, flag);
    forall i | 0 <= i < |m.parties| && i != d
      ensures OneBehind(r.parties[i], k + 1, n, dst, flag, r.parties[d].ctl.header, more)
    {
      HeaderUnread(m.parties[i], k, n, dst, flag, p.ctl.header, r.parties[d].ctl.header, sent);
      ListenerFollows(m.parties[i], rows, t, k, n, dst, flag, r.parties[d].ctl.header, sent, more);
    }
    HeaderUnread(Cs(m), k, n, dst, flag, p.ctl.header, r.parties[d].ctl.header, sent);
    ListenerFollows(Cs(m), rows, t, k, n, dst, flag, r.parties[d].ctl.header, sent, more);
    StepKeepsIdentity(Cs(m), rows, t, m.visible);
  }

  // The master's command arrays and windows are as they were.
  predicate SameWindows(p: Party, q: Party) {
    q.mem.cmdBuf == p.mem.cmdBuf && q.mem.cmd == p.mem.cmd && q.mem.prm == p.mem.prm
  }

  lemma FromResponseEnd(m: Sys, rows: seq<Row>, t: nat, d: nat, n: nat, flag: nat, sent: seq<byte>)
    requires Configured(m) && InResponse(m, d, FrameLength(n), n, flag, sent)
    ensures InPhase(Tick(m, rows, t), Quiet)
    ensures Cs(Tick(m, rows, t))
         == FinishFrame(if flag == DATA_RESP then CommitParams(Waited(Cs(m))) else Waited(Cs(m)))
  {
    hide Step, HeaderFor, CommitParams;
    var r, w, dst := Tick(m, rows, t), m.parties[d].ctl.header, Cs(m).who.selfAddr;
    TickKeepsConfiguration(m, rows, t);
    RestStep(m.parties[d], rows, t, m.visible);
    assert OneBehind(Cs(m), FrameLength(n), n, dst, flag, w, sent);
    ReceiveIsStep(Cs(m), rows, t, m.visible);
    EofOfResponse(Cs(m), rows, n, dst, flag, w);
    forall i | 1 <= i < |m.parties| && i != d ensures m.parties[i].ctl.exchange == Rx && AtRest(r.parties[i]) {
      assert OneBehind(m.parties[i], FrameLength(n), n, dst, flag, w, sent);
      ReceiveIsStep(m.parties[i], rows, t, m.visible);
      EofElsewhere(m.parties[i], rows, n, dst, flag, w);
    }
    NobodyWrites(m, rows, t);
  }

  lemma FromWaiting(m: Sys, rows: seq<Row>, t: nat, w: nat, dst: nat)
    requires Configured(m) && InWaiting(m, w, dst)
    ensures InPhase(Tick(m, rows, t), NextPhase(Waiting(w, dst), m))
    ensures w == RESPONSE_TIMEOUT ==> Cs(Tick(m, rows, t)) == ResetToIdle(Waited(Cs(m)).(ctl := MarkResult(Waited(Cs(m)).ctl, Timeout)))
    ensures w < RESPONSE_TIMEOUT ==> SameButControl(Cs(m), Cs(Tick(m, rows, t)))
  {
    hide Step, FrameBlocks, ClampFrame;
    var r := Tick(m, rows, t);
    TickKeepsConfiguration(m, rows, t);
    ReceiveIsStep(Cs(m), rows, t, m.visible);
    if w < RESPONSE_TIMEOUT { RestStep(Cs(m), rows, t, m.visible); }
    forall i | 1 <= i < |m.parties| ensures r.parties[i] == m.parties[i] {
      RestStep(m.parties[i], rows, t, m.visible);
    }
    NobodyWrites(m, rows, t);
  }

  // The invariant: a tick takes a joint state in a phase to one in the next phase.
  lemma PhaseStep(s: Sys, m: Sys, ph: Phase, rows: seq<Row>, t: nat)
    requires InPhase(s, ph) && App(s, m)
    ensures ph.Turnaround? || ph.Response? ==> ph.d < |m.parties|
    ensures InPhase(Tick(m, rows, t), NextPhase(ph, m))
  {
    hide Tick, InRequest, InTurnaround, InResponse, InWaiting, Sent, CalcNBlocks;
    if ph.Quiet? {
      FromQuiet(s, m, rows, t);
    } else {
      AppKeepsPhase(s, m, ph);
      match ph {
        case Request(k, n, dst, flag, sent) =>
          RequestBounds(m, k, n, dst, flag, sent);
          if k < FrameLength(n) { FromRequestMiddle(m, rows, t, k, n, dst, flag, sent); }
          else { FromRequestEnd(m, rows, t, n, dst, flag, sent); }
        case Turnaround(d, flag) =>
          TurnaroundBounds(m, d, flag);
          FromTurnaround(m, rows, t, d, flag);
        case Response(d, k, n, flag, sent) =>
          ResponseBounds(m, d, k, n, flag, sent);
          if k < FrameLength(n) { FromResponseMiddle(m, rows, t, d, k, n, flag, sent); }
          else { FromResponseEnd(m, rows, t, d, n, flag, sent); }
        case Waiting(w, dst) => FromWaiting(m, rows, t, w, dst);
      }
    }
  }

  lemma RequestBounds(m: Sys, k: nat, n: nat, dst: nat, flag: nat, sent: seq<byte>)
    requires Configured(m) && InRequest(m, k, n, dst, flag, sent)
    ensures 1 <= k <= FrameLength(n) && n <= MAX_BLOCKS
  {
  }

  lemma TurnaroundBounds(m: Sys, d: nat, flag: nat)
    requires Configured(m) && InTurnaround(m, d, flag)
    ensures 1 <= d < |m.parties|
  {
  }

  lemma ResponseBounds(m: Sys, d: nat, k: nat, n: nat, flag: nat, sent: seq<byte>)
    requires Configured(m) && InResponse(m, d, k, n, flag, sent)
    ensures 1 <= d < |m.parties| && 1 <= k <= FrameLength(n) && n <= MAX_BLOCKS
  {
  }
}
