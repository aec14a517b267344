// What one party does whatever bytes arrive: it commits only whole frames, and a busy master ends.
module ArbitraryStreams {
  import opened Wire
  import opened MsgBlock
  import opened CommTable
  import opened BusExchange
  import H = MsgHeader

  // --- commit discipline -------------------------------------------------------------------

  // The step consumes the correct EOF of a frame addressed to this party.
  predicate AtAddressedEof(p: Party, visible: Option<byte>) {
    && p.ctl.exchange == Rx && p.ctl.rx == RxEof && p.ctl.adrFlag && visible == Some(EOF)
    && !TimesOut(p)
  }

  predicate InPrmWindow(p: Party, b: nat) {
    p.win.prmOffset <= b < p.win.prmOffset + PrmFrameBlocks(p)
  }

  // One step changes a working array only at such an EOF, the parameters only inside the current
  // window, and the staging buffers only with payload of an addressed frame.
  lemma CommitDiscipline(p: Party, rows: seq<Row>, tick: nat, v: Option<byte>)
    ensures var q := Step(p, rows, tick, v).party;
      && |q.mem.cmd| == |p.mem.cmd| && |q.mem.prm| == |p.mem.prm| && |q.mem.cmdBuf| == |p.mem.cmdBuf| && |q.mem.prmBuf| == |p.mem.prmBuf|
      && q.mem.cmd == (if AtAddressedEof(p, v) && p.ctl.flag == CMD_REQ then MergeCommands(p, rows).mem.cmd else p.mem.cmd)
      && q.mem.prm == (if AtAddressedEof(p, v) && p.ctl.flag == DATA_RESP then CommitParams(p).mem.prm else p.mem.prm)
      && (forall b: nat | b < |p.mem.prm| && !InPrmWindow(p, b) :: q.mem.prm[b] == p.mem.prm[b])
      && (q.mem.cmdBuf != p.mem.cmdBuf ==> p.ctl.exchange == Rx && p.ctl.rx == RxData && p.ctl.adrFlag && p.ctl.flag == CMD_REQ)
      && (q.mem.prmBuf != p.mem.prmBuf ==> p.ctl.exchange == Rx && p.ctl.rx == RxData && p.ctl.adrFlag && p.ctl.flag == DATA_RESP)
  {
    hide CopyBlocks, Overlay, WriteByte, FrameBlocks, InPrmWindow;
    CommitInWindow(p);
    if p.ctl.exchange == Rx {
      ReceiveWrites(p, rows, v);
    } else {
      TransmitWrites(p, tick);
    }
  }

  lemma CommitInWindow(p: Party)
    ensures forall b: nat | b < |p.mem.prm| && !InPrmWindow(p, b) :: CommitParams(p).mem.prm[b] == p.mem.prm[b]
  {
  }

  lemma TransmitWrites(p: Party, tick: nat)
    ensures var q := Transmit(p, tick).party;
      q.mem.cmd == p.mem.cmd && q.mem.prm == p.mem.prm && q.mem.cmdBuf == p.mem.cmdBuf && q.mem.prmBuf == p.mem.prmBuf
  {
    hide H.Make, FrameBlocks;
  }

  lemma ReceiveWrites(p: Party, rows: seq<Row>, v: Option<byte>)
    requires p.ctl.exchange == Rx
    ensures var q := Receive(p, rows, v);
      && q.mem.cmd == (if AtAddressedEof(p, v) && p.ctl.flag == CMD_REQ then MergeCommands(p, rows).mem.cmd else p.mem.cmd)
      && q.mem.prm == (if AtAddressedEof(p, v) && p.ctl.flag == DATA_RESP then CommitParams(p).mem.prm else p.mem.prm)
      && |q.mem.cmdBuf| == |p.mem.cmdBuf| && |q.mem.prmBuf| == |p.mem.prmBuf|
      && (q.mem.cmdBuf != p.mem.cmdBuf ==> p.ctl.rx == RxData && p.ctl.adrFlag && p.ctl.flag == CMD_REQ)
      && (q.mem.prmBuf != p.mem.prmBuf ==> p.ctl.rx == RxData && p.ctl.adrFlag && p.ctl.flag == DATA_RESP)
  {
    hide CopyBlocks, Overlay, WriteByte, FrameBlocks, H.Parse, H.WriteHeaderByte;
  }

  // Over a whole run of arbitrary bytes, a parameter block changes only if some step commits a
  // response frame whose window holds it.
  lemma {:induction false} ParamsChangeOnlyInWindows(
    p: Party, rows: seq<Row>, t: nat, bytes: nat -> Option<byte>, n: nat, b: nat)
    requires b < |p.mem.prm|
    requires forall k: nat | k < n ::
      var q := Run(p, rows, t, bytes, k); AtAddressedEof(q, bytes(t + k)) && q.ctl.flag == DATA_RESP ==> !InPrmWindow(q, b)
    ensures |Run(p, rows, t, bytes, n).mem.prm| == |p.mem.prm| && Run(p, rows, t, bytes, n).mem.prm[b] == p.mem.prm[b]
    decreases n
  {
    hide Step, AtAddressedEof, InPrmWindow;
    if n > 0 {
      ParamsChangeOnlyInWindows(p, rows, t, bytes, n - 1, b);
      var q := Run(p, rows, t, bytes, n - 1);
      CommitDiscipline(q, rows, t + n - 1, bytes(t + n - 1));
      assert bytes(t + (n - 1)) == bytes(t + n - 1);
    }
  }

  // --- only whole frames are committed -----------------------------------------------------

  // The bytes seen on the bus in the first n ticks from t.
  function Heard(t: nat, bytes: nat -> Option<byte>, n: nat): (s: seq<byte>) {
    if n == 0 then []
    else
      var before := Heard(t, bytes, n - 1);
      match bytes(t + n - 1)
      case None => before
      case Some(v) => before + [v]
  }

  // The header word carried by the two bytes at i.
  function HeaderAt(s: seq<byte>, i: nat): word
    requires i + 2 <= |s|
  {
    var low: int, high: int := s[i], s[i + 1];
    low + 256 * high
  }

  // s ends with the first 3 + done bytes of a frame; the party has parsed its header and, if the
  // frame is addressed to it, holds the payload so far.
  predicate MidFrame(p: Party, s: seq<byte>, done: nat) {
    && |s| >= 3 + done
    && var start := |s| - done - 3;
    && s[start] == SOF
    && p.ctl.header == HeaderAt(s, start + 1)
    && (p.ctl.adrFlag ==>
      && H.Parse(p.ctl.header).Some?
      && var h := H.Parse(p.ctl.header).value;
      && h.addr == p.who.selfAddr && h.flag == p.ctl.flag && h.nblocks == p.ctl.nBlocks
      && (p.ctl.flag == CMD_REQ ==> Holds(p.mem.cmdBuf, CmdFrameBlocks(p), s[start + 3..]))
      && (p.ctl.flag == DATA_RESP ==> Holds(p.mem.prmBuf, PrmFrameBlocks(p), s[start + 3..])))
  }

  predicate Tracks(p: Party, s: seq<byte>) {
    p.ctl.exchange == Rx ==>
      match p.ctl.rx
      case RxSof => true
      case RxHeader =>
        (p.ctl.subClock == 0 && |s| >= 1 && s[|s| - 1] == SOF)
        || (p.ctl.subClock == 1 && |s| >= 2 && s[|s| - 2] == SOF && p.ctl.header % 256 == s[|s| - 1])
      case RxData => p.ctl.subClock < p.ctl.nBlocks * 2 && MidFrame(p, s, p.ctl.subClock)
      case RxEof => MidFrame(p, s, p.ctl.nBlocks * 2)
  }

  lemma DataTracks(p: Party, s: seq<byte>, v: byte)
    requires p.ctl.exchange == Rx && p.ctl.rx == RxData && Tracks(p, s)
    ensures Tracks(ReceiveData(p, Some(v)), s + [v])
  {
    hide H.Parse, FrameBlocks;
    var q := ReceiveData(p, Some(v));
    var start := |s| - p.ctl.subClock - 3;
    assert (s + [v])[start + 3..] == s[start + 3..] + [v];
    if p.ctl.adrFlag && p.ctl.flag == CMD_REQ { HoldsMore(p.mem.cmdBuf, CmdFrameBlocks(p), s[start + 3..], v); }
    if p.ctl.adrFlag && p.ctl.flag == DATA_RESP { HoldsMore(p.mem.prmBuf, PrmFrameBlocks(p), s[start + 3..], v); }
    assert MidFrame(q, s + [v], p.ctl.subClock + 1);
  }

  lemma HeaderTracks(p: Party, s: seq<byte>, v: byte)
    requires p.ctl.exchange == Rx && p.ctl.rx == RxHeader && Tracks(p, s)
    ensures Tracks(p.(ctl := ReceiveHeader(p.ctl, p.who.selfAddr, Some(v))), s + [v])
  {
    hide H.Parse;
    if p.ctl.subClock == 1 {
      var q := p.(ctl := ReceiveHeader(p.ctl, p.who.selfAddr, Some(v)));
      var low := s[|s| - 1];
      assert p.ctl.header % 256 == low;
      assert q.ctl.header == low + 256 * v;
      assert (s + [v])[|s| + 1..] == [];
      assert MidFrame(q, s + [v], 0);
    } else {
      H.LowByteWritten(p.ctl.header, v);
    }
  }

  lemma PhaseTracks(p: Party, rows: seq<Row>, v: Option<byte>, s: seq<byte>)
    requires p.ctl.exchange == Rx && Tracks(p, s)
    ensures Tracks(ReceivePhase(p, rows, v), if v == None then s else s + [v.value])
  {
    hide MidFrame, ReceiveData, ReceiveHeader;
    match p.ctl.rx {
      case RxSof =>
      case RxHeader => if v.Some? { HeaderTracks(p, s, v.value); } else { NoByteNoChange(p, rows); }
      case RxData => if v.Some? { DataTracks(p, s, v.value); } else { NoByteNoChange(p, rows); }
      case RxEof =>
    }
  }

  lemma NoByteNoChange(p: Party, rows: seq<Row>)
    ensures ReceivePhase(p, rows, None) == p
  {
  }

  lemma StepTracks(p: Party, rows: seq<Row>, tick: nat, v: Option<byte>, s: seq<byte>)
    requires Tracks(p, s)
    ensures Tracks(Step(p, rows, tick, v).party, if v == None then s else s + [v.value])
  {
    hide ReceivePhase;
    if p.ctl.exchange == Rx {
      assert Tracks(Waited(p), s);
      PhaseTracks(Waited(p), rows, v, s);
    }
  }

  lemma {:induction false} RunTracks(p: Party, rows: seq<Row>, t: nat, bytes: nat -> Option<byte>, n: nat)
    requires p.ctl.exchange == Rx && p.ctl.rx == RxSof
    ensures Tracks(Run(p, rows, t, bytes, n), Heard(t, bytes, n))
    decreases n
  {
    if n > 0 {
      RunTracks(p, rows, t, bytes, n - 1);
      StepTracks(Run(p, rows, t, bytes, n - 1), rows, t + n - 1, bytes(t + n - 1), Heard(t, bytes, n - 1));
    }
  }

  // s is a whole frame for this address: SOF, a header that parses, as many blocks as it says, EOF.
  predicate WholeFrame(s: seq<byte>, addr: nat, flag: nat) {
    && |s| >= 4 && s[0] == SOF && s[|s| - 1] == EOF
    && var h := H.Parse(HeaderAt(s, 1));
    && h.Some? && h.value.addr == addr && h.value.flag == flag && |s| == 4 + 2 * h.value.nblocks
  }

  // A party at the EOF of a frame for its address, having kept track of s, has heard that whole frame.
  lemma FrameAtEof(q: Party, s: seq<byte>) returns (frame: seq<byte>)
    requires Tracks(q, s) && AtAddressedEof(q, Some(EOF))
    ensures var all := s + [EOF]; |frame| == 4 + 2 * q.ctl.nBlocks <= |all| && frame == all[|all| - |frame|..]
    ensures WholeFrame(frame, q.who.selfAddr, q.ctl.flag)
    ensures q.ctl.flag == CMD_REQ ==> Holds(q.mem.cmdBuf, CmdFrameBlocks(q), frame[3..|frame| - 1])
    ensures q.ctl.flag == DATA_RESP ==> Holds(q.mem.prmBuf, PrmFrameBlocks(q), frame[3..|frame| - 1])
  {
    hide H.Parse;
    var start := |s| - q.ctl.nBlocks * 2 - 3;
    frame := (s + [EOF])[start..];
    assert HeaderAt(frame, 1) == HeaderAt(s, start + 1);
    assert frame[3..|frame| - 1] == s[start + 3..];
  }

  // Over any byte stream a party that starts idle commits only at the end of a whole frame for its
  // address, and what it then merges or copies is the payload of that frame.
  lemma OnlyWholeFramesCommit(p: Party, rows: seq<Row>, t: nat, bytes: nat -> Option<byte>, n: nat)
    returns (frame: seq<byte>)
    requires p.ctl.exchange == Rx && p.ctl.rx == RxSof
    requires AtAddressedEof(Run(p, rows, t, bytes, n), bytes(t + n))
    ensures var q := Run(p, rows, t, bytes, n);
      && |frame| == 4 + 2 * q.ctl.nBlocks <= |Heard(t, bytes, n + 1)|
      && frame == Heard(t, bytes, n + 1)[|Heard(t, bytes, n + 1)| - |frame|..]
      && WholeFrame(frame, q.who.selfAddr, q.ctl.flag)
      && (q.ctl.flag == CMD_REQ ==> Holds(q.mem.cmdBuf, CmdFrameBlocks(q), frame[3..|frame| - 1]))
      && (q.ctl.flag == DATA_RESP ==> Holds(q.mem.prmBuf, PrmFrameBlocks(q), frame[3..|frame| - 1]))
  {
    RunTracks(p, rows, t, bytes, n);
    assert t + (n + 1) - 1 == t + n;
    frame := FrameAtEof(Run(p, rows, t, bytes, n), Heard(t, bytes, n));
    hide Run, Tracks, Step, WholeFrame;
  }

  // --- a busy master ends ------------------------------------------------------------------

  // States the handlers themselves produce.
  predicate Sane(p: Party) {
    p.ctl.exchange != Bypass && (p.ctl.exchange == Tx && p.ctl.tx == TxHeader ==> p.ctl.subClock <= 1)
  }

  predicate Requests(p: Party) { p.ctl.flag == CMD_REQ || p.ctl.flag == DATA_REQ }

  // Ticks a response of this party can take.
  function ResponseTicks(p: Party): nat { 4 + 2 * (PrmFrameBlocks(p) % 256) }

  const TICKS_PER_BYTE: nat := RESPONSE_TIMEOUT + 1

  // The longest frame: SOF, two header bytes, 31 blocks, EOF.
  const FRAME_BYTES: nat := 66

  // Bytes this receiver can still consume before its frame ends.
  function BytesLeft(p: Party): nat {
    match p.ctl.rx
    case RxSof => FRAME_BYTES
    case RxHeader => if p.ctl.subClock == 0 then FRAME_BYTES - 1 else FRAME_BYTES - 2
    case RxData => (if p.ctl.subClock + 1 < p.ctl.nBlocks * 2 then p.ctl.nBlocks * 2 - p.ctl.subClock else 1) + 1
    case RxEof => 1
  }

  function Patience(p: Party): nat {
    if p.ctl.waitClock < RESPONSE_TIMEOUT then RESPONSE_TIMEOUT - p.ctl.waitClock else 0
  }

  // Bytes this sender has still to write.
  function SendLeft(p: Party): nat {
    match p.ctl.tx
    case TxSof => 4 + 2 * CalcNBlocks(p)
    case TxHeader => if p.ctl.subClock == 0 then 3 + 2 * CalcNBlocks(p) else 2 + 2 * p.ctl.nBlocks
    case TxData => (if p.ctl.subClock + 1 < p.ctl.nBlocks * 2 then p.ctl.nBlocks * 2 - p.ctl.subClock else 1) + 1
    case TxEof => 1
  }

  // An upper bound on the ticks a busy master stays busy.
  function Rank(p: Party): nat {
    if p.ctl.exchange == Rx then TICKS_PER_BYTE * BytesLeft(p) + Patience(p) + ResponseTicks(p)
    else SendLeft(p) + (if Requests(p) then TICKS_PER_BYTE * FRAME_BYTES + RESPONSE_TIMEOUT + ResponseTicks(p) else 0)
  }

  // The two ways a busy master goes idle without a result: the EOF of a frame for someone else,
  // and the EOF it writes itself after answering a request.
  predicate EndsSilently(p: Party, v: Option<byte>) {
    || (p.ctl.exchange == Rx && p.ctl.rx == RxEof && v == Some(EOF) && !p.ctl.adrFlag && p.ctl.waitClock + 1 <= RESPONSE_TIMEOUT)
    || (p.ctl.exchange == Tx && p.ctl.tx == TxEof && !Requests(p))
  }

  // The step from p to q spends a tick of the rank, unless it ends the exchange.
  predicate StepsDown(p: Party, q: Party) {
    && Sane(q) && q.who == p.who
    && (q.ctl.busy ==> Rank(q) < Rank(p) && q.ctl.resultReady == p.ctl.resultReady && q.ctl.lastResult == p.ctl.lastResult)
  }

  lemma HeaderRank(p: Party, rows: seq<Row>, v: Option<byte>)
    requires Waits(p) && p.ctl.exchange == Rx && p.ctl.rx == RxHeader && !TimesOut(p)
    ensures StepsDown(p, Receive(p, rows, v))
  {
    hide H.Parse, FrameBlocks, H.WriteHeaderByte;
    if v.Some? { ParsedBlocks(H.WriteHeaderByte(p.ctl.header, 1, v.value)); }
  }

  lemma DataRank(p: Party, rows: seq<Row>, v: Option<byte>)
    requires Waits(p) && p.ctl.exchange == Rx && p.ctl.rx == RxData && !TimesOut(p)
    ensures StepsDown(p, Receive(p, rows, v))
  {
    hide WriteByte;
  }

  lemma EofRank(p: Party, rows: seq<Row>, v: Option<byte>)
    requires Waits(p) && p.ctl.exchange == Rx && p.ctl.rx == RxEof && !TimesOut(p)
    ensures StepsDown(p, Receive(p, rows, v))
  {
    hide CopyBlocks, Overlay;
  }

  lemma ReceiveRank(p: Party, rows: seq<Row>, v: Option<byte>)
    requires Waits(p) && p.ctl.exchange == Rx
    ensures StepsDown(p, Receive(p, rows, v))
  {
    if TimesOut(p) {
    } else if p.ctl.rx == RxHeader {
      HeaderRank(p, rows, v);
    } else if p.ctl.rx == RxData {
      DataRank(p, rows, v);
    } else if p.ctl.rx == RxEof {
      EofRank(p, rows, v);
    }
  }

  lemma ParsedBlocks(w: word)
    ensures H.Parse(w).Some? ==> H.Parse(w).value.nblocks <= 31
  {
  }

  lemma TransmitRank(p: Party, tick: nat)
    requires Waits(p) && p.ctl.exchange == Tx && Sane(p)
    ensures StepsDown(p, Transmit(p, tick).party)
  {
    hide H.Make;
  }

  lemma EndingStep(p: Party, rows: seq<Row>, tick: nat, v: Option<byte>)
    requires Waits(p) && Sane(p) && !Step(p, rows, tick, v).party.ctl.busy
    ensures var q := Step(p, rows, tick, v).party;
      if EndsSilently(p, v) then q.ctl.resultReady == p.ctl.resultReady && q.ctl.lastResult == p.ctl.lastResult
      else q.ctl.resultReady && q.ctl.lastResult != NoResult
  {
    hide H.Parse, H.Make, CopyBlocks, Overlay, FrameBlocks, H.WriteHeaderByte;
  }

  // Whatever bytes arrive, a busy master stops being busy within its rank, and it does so without a
  // result exactly when its last step is one of the two silent ends.
  lemma {:induction false} BusyMasterEnds(p: Party, rows: seq<Row>, t: nat, bytes: nat -> Option<byte>, m: nat)
    returns (n: nat)
    requires var q := Run(p, rows, t, bytes, m); Waits(q) && Sane(q) && !q.ctl.resultReady
    ensures m < n <= m + Rank(Run(p, rows, t, bytes, m))
    ensures !Run(p, rows, t, bytes, n).ctl.busy
    ensures forall k | m <= k < n :: Run(p, rows, t, bytes, k).ctl.busy
    ensures Run(p, rows, t, bytes, n).ctl.resultReady
       <==> !EndsSilently(Run(p, rows, t, bytes, n - 1), bytes(t + n - 1))
    decreases Rank(Run(p, rows, t, bytes, m))
  {
    hide Step, Rank, EndsSilently;
    var q, v := Run(p, rows, t, bytes, m), bytes(t + m);
    var r := Step(q, rows, t + m, v).party;
    assert t + (m + 1) - 1 == t + m;
    assert Run(p, rows, t, bytes, m + 1) == r;
    BusyStep(q, rows, t + m, v);
    if r.ctl.busy {
      n := BusyMasterEnds(p, rows, t, bytes, m + 1);
    } else {
      n := m + 1;
      EndingStep(q, rows, t + m, v);
    }
  }

  lemma BusyStep(p: Party, rows: seq<Row>, tick: nat, v: Option<byte>)
    requires Waits(p) && Sane(p)
    ensures Rank(p) >= 1 && StepsDown(p, Step(p, rows, tick, v).party)
  {
    if p.ctl.exchange == Rx { ReceiveRank(p, rows, v); } else { TransmitRank(p, tick); }
  }

  // The bound is linear in the block counts: 868 ticks when no frame is longer than 31 blocks.
  lemma RankIsLinear(p: Party, blocks: nat)
    requires Sane(p) && CmdFrameBlocks(p) <= blocks && PrmFrameBlocks(p) <= blocks
    requires p.ctl.nBlocks <= (if p.ctl.exchange == Rx then 31 else blocks)
    requires blocks >= 31
    ensures Rank(p) <= 4 * blocks + 744
    ensures blocks == 31 ==> Rank(p) <= 868
  {
  }
}
