// The frame-level exchange machine of one party, as a function of its state and of the visible byte.
module BusExchange {
  import opened Wire
  import opened MsgBlock
  import opened CommTable
  import H = MsgHeader

  const SOF: byte := 0xAA
  const EOF: byte := 0x55

  const CMD_REQ: nat := 0
  const CMD_RESP: nat := 1
  const DATA_REQ: nat := 2
  const DATA_RESP: nat := 3

  const RESPONSE_TIMEOUT: nat := 10

  datatype Role = Device | Master
  datatype ExchangeFlag = Rx | Tx | Bypass
  datatype RxFlag = RxSof | RxHeader | RxData | RxEof
  datatype TxFlag = TxSof | TxHeader | TxData | TxEof
  datatype Result = NoResult | Success | Timeout | InvalidEof

  datatype Identity = Identity(role: Role, systemId: nat, selfAddr: nat)

  // The working arrays and their staging buffers; block counts are the lengths.
  datatype Memory = Memory(cmdBuf: seq<word>, prmBuf: seq<word>, cmd: seq<word>, prm: seq<word>)

  // The parts of the working arrays that a frame carries.
  datatype Windows = Windows(cmdOffset: nat, cmdBlocks: nat, prmOffset: nat, prmBlocks: nat)

  datatype Control = Control(
    exchange: ExchangeFlag, rx: RxFlag, tx: TxFlag,
    header: word, adrFlag: bool, nBlocks: nat, flag: nat,
    subClock: nat, waitClock: nat, busy: bool,
    resultReady: bool, lastResult: Result)

  // bus_state_t with the buffers it points to.
  datatype Party = Party(who: Identity, targetAddr: nat, mem: Memory, win: Windows, ctl: Control)

  // What one step leaves: the new state and the byte written to the bus, if any.
  datatype Out = Out(party: Party, write: Option<byte>)

  // --- frame windows -----------------------------------------------------------------------

  function ClampFrame(requested: nat, bufBlocks: nat): nat {
    if bufBlocks == 0 then requested else Min(requested, bufBlocks)
  }

  function FrameBlocks(frame: nat, blocks: nat, bufBlocks: nat): nat {
    ClampFrame(if frame == 0 then blocks else frame, bufBlocks)
  }

  function CmdFrameBlocks(p: Party): nat { FrameBlocks(p.win.cmdBlocks, |p.mem.cmd|, |p.mem.cmdBuf|) }

  function PrmFrameBlocks(p: Party): nat { FrameBlocks(p.win.prmBlocks, |p.mem.prm|, |p.mem.prmBuf|) }

  function WholeWindows(mem: Memory): Windows {
    Windows(0, ClampFrame(|mem.cmd|, |mem.cmdBuf|), 0, ClampFrame(|mem.prm|, |mem.prmBuf|))
  }

  function ResetFrameLayout(p: Party): Party { p.(win := WholeWindows(p.mem)) }

  predicate FrameFits(offset: nat, count: nat, blocks: nat, bufBlocks: nat) {
    offset + count <= blocks && count <= bufBlocks
  }

  function SetCmdFrame(p: Party, offset: nat, count: nat): Party {
    if FrameFits(offset, count, |p.mem.cmd|, |p.mem.cmdBuf|)
    then p.(win := p.win.(cmdOffset := offset, cmdBlocks := count)) else p
  }

  function SetPrmFrame(p: Party, offset: nat, count: nat): Party {
    if FrameFits(offset, count, |p.mem.prm|, |p.mem.prmBuf|)
    then p.(win := p.win.(prmOffset := offset, prmBlocks := count)) else p
  }

  // The block count a frame of this party announces, narrowed to eight bits.
  function CalcNBlocks(p: Party): nat {
    if p.ctl.flag == CMD_REQ then CmdFrameBlocks(p) % 256
    else if p.ctl.flag == DATA_RESP then PrmFrameBlocks(p) % 256
    else 0
  }

  // --- results -----------------------------------------------------------------------------

  function MarkResult(c: Control, r: Result): Control { c.(lastResult := r, resultReady := true) }

  function ClearResult(c: Control): Control { c.(lastResult := NoResult, resultReady := false) }

  function IdleControl(c: Control): Control {
    c.(exchange := Rx, rx := RxSof, tx := TxSof, adrFlag := false, nBlocks := 0, flag := CMD_REQ,
       subClock := 0, waitClock := 0, busy := false)
  }

  function ResetToIdle(p: Party): Party { ResetFrameLayout(p.(ctl := IdleControl(p.ctl))) }

  // --- receiving ---------------------------------------------------------------------------

  function ReceiveSof(c: Control, role: Role, visible: Option<byte>): Control {
    if visible == Some(SOF)
    then c.(rx := RxHeader, subClock := 0, waitClock := 0, busy := if role == Device then true else c.busy)
    else c
  }

  function ParseHeader(c: Control, selfAddr: nat): Control {
    match H.Parse(c.header)
    case None => c.(adrFlag := false, nBlocks := 0)
    case Some(h) => c.(adrFlag := h.addr == selfAddr, flag := h.flag, nBlocks := h.nblocks)
  }

  function ReceiveHeader(c: Control, selfAddr: nat, visible: Option<byte>): Control {
    if visible == None then c
    else if c.subClock == 0 then
      c.(header := H.WriteHeaderByte(c.header, 0, visible.value), subClock := 1, waitClock := 0)
    else if c.subClock == 1 then
      var q := ParseHeader(c.(header := H.WriteHeaderByte(c.header, 1, visible.value), waitClock := 0), selfAddr);
      q.(rx := if q.nBlocks > 0 then RxData else RxEof, subClock := 0)
    else c
  }

  function StorePayload(p: Party, v: byte): Memory {
    var c := p.ctl;
    if !c.adrFlag then p.mem
    else if c.flag == CMD_REQ && c.subClock < CmdFrameBlocks(p) * 2 then
      p.mem.(cmdBuf := WriteByte(p.mem.cmdBuf, c.subClock, v))
    else if c.flag == DATA_RESP && c.subClock < PrmFrameBlocks(p) * 2 then
      p.mem.(prmBuf := WriteByte(p.mem.prmBuf, c.subClock, v))
    else p.mem
  }

  function ReceiveData(p: Party, visible: Option<byte>): Party {
    if visible == None then p
    else
      var n := p.ctl.subClock + 1;
      p.(mem := StorePayload(p, visible.value),
         ctl := p.ctl.(waitClock := 0, subClock := n, rx := if n >= p.ctl.nBlocks * 2 then RxEof else p.ctl.rx))
  }

  function MergeCommands(p: Party, rows: seq<Row>): Party {
    if p.who.systemId == SYS_NONE then p
    else p.(mem := p.mem.(cmd := Overlay(rows, |rows|, p.who.systemId, false, p.mem.cmdBuf, p.mem.cmd)))
  }

  function StartResponse(p: Party, flag: nat): Party {
    p.(ctl := p.ctl.(flag := flag, tx := TxSof, exchange := Tx, subClock := 0))
  }

  function CommitParams(p: Party): Party {
    p.(mem := p.mem.(prm := CopyBlocks(p.mem.prm, p.win.prmOffset, p.mem.prmBuf, 0, PrmFrameBlocks(p))))
  }

  function FinishFrame(p: Party): Party {
    ResetToIdle(if p.who.role == Master then p.(ctl := MarkResult(p.ctl, Success)) else p)
  }

  function ReceiveEof(p: Party, rows: seq<Row>, visible: Option<byte>): Party {
    if visible == None then p
    else if visible.value != EOF then ResetToIdle(p.(ctl := MarkResult(p.ctl, InvalidEof)))
    else if !p.ctl.adrFlag then ResetToIdle(p)
    else if p.ctl.flag == CMD_REQ then StartResponse(MergeCommands(p, rows), CMD_RESP)
    else if p.ctl.flag == DATA_REQ then StartResponse(p, DATA_RESP)
    else FinishFrame(if p.ctl.flag == DATA_RESP then CommitParams(p) else p)
  }

  function ReceivePhase(p: Party, rows: seq<Row>, visible: Option<byte>): Party {
    match p.ctl.rx
    case RxSof => p.(ctl := ReceiveSof(p.ctl, p.who.role, visible))
    case RxHeader => p.(ctl := ReceiveHeader(p.ctl, p.who.selfAddr, visible))
    case RxData => ReceiveData(p, visible)
    case RxEof => ReceiveEof(p, rows, visible)
  }

  predicate Waits(p: Party) { p.who.role == Master && p.ctl.busy }

  // A busy master counts the ticks it has waited for the next byte.
  function Waited(p: Party): Party {
    if Waits(p) then p.(ctl := p.ctl.(waitClock := p.ctl.waitClock + 1)) else p
  }

  predicate TimesOut(p: Party) { Waits(p) && p.ctl.waitClock + 1 > RESPONSE_TIMEOUT }

  function Receive(p: Party, rows: seq<Row>, visible: Option<byte>): Party {
    var q := Waited(p);
    if TimesOut(p) then ResetToIdle(q.(ctl := MarkResult(q.ctl, Timeout))) else ReceivePhase(q, rows, visible)
  }

  // --- transmitting ------------------------------------------------------------------------

  function TransmitSof(c: Control, role: Role): Control {
    c.(tx := TxHeader, subClock := 0, waitClock := 0, busy := if role == Master then true else c.busy)
  }

  function GenHeader(p: Party, tick: nat): Control {
    var n := CalcNBlocks(p);
    p.ctl.(nBlocks := n, header := H.Make(p.targetAddr, p.ctl.flag, tick % 256, n), subClock := 1, waitClock := 0)
  }

  function TransmitHeader(p: Party, tick: nat): Out {
    if p.ctl.subClock == 0 then
      var c := GenHeader(p, tick);
      Out(p.(ctl := c), Some(c.header % 256))
    else if p.ctl.subClock == 1 then
      Out(p.(ctl := p.ctl.(tx := if p.ctl.nBlocks > 0 then TxData else TxEof, subClock := 0, waitClock := 0)),
          Some(p.ctl.header / 256))
    else Out(p, None)
  }

  function ByteOrZero(blocks: seq<word>, i: nat): byte {
    match ReadByte(blocks, i)
    case Some(v) => v
    case None => 0
  }

  function PayloadByte(p: Party, i: nat): byte {
    if p.ctl.flag == CMD_REQ && i < CmdFrameBlocks(p) * 2 then ByteOrZero(p.mem.cmdBuf, i)
    else if p.ctl.flag == DATA_RESP && i < PrmFrameBlocks(p) * 2 then ByteOrZero(p.mem.prmBuf, i)
    else 0
  }

  function TransmitData(c: Control): Control {
    var n := c.subClock + 1;
    c.(subClock := n, waitClock := 0, tx := if n >= c.nBlocks * 2 then TxEof else c.tx)
  }

  function TransmitEof(c: Control, role: Role): Control {
    var q := c.(rx := RxSof, exchange := Rx, subClock := 0, waitClock := 0, tx := TxSof);
    if role == Device then q.(busy := false, flag := CMD_REQ)
    else if c.flag == CMD_REQ then q.(flag := CMD_RESP)
    else if c.flag == DATA_REQ then q.(flag := DATA_RESP)
    else q.(busy := false, flag := CMD_REQ)
  }

  function Transmit(p: Party, tick: nat): Out {
    match p.ctl.tx
    case TxSof => Out(p.(ctl := TransmitSof(p.ctl, p.who.role)), Some(SOF))
    case TxHeader => TransmitHeader(p, tick)
    case TxData => Out(p.(ctl := TransmitData(p.ctl)), Some(PayloadByte(p, p.ctl.subClock)))
    case TxEof => Out(p.(ctl := TransmitEof(p.ctl, p.who.role)), Some(EOF))
  }

  // One tick of the exchange machine.
  function Step(p: Party, rows: seq<Row>, tick: nat, visible: Option<byte>): Out {
    match p.ctl.exchange
    case Rx => Out(Receive(p, rows, visible), None)
    case Tx => Transmit(p, tick)
    case Bypass => Out(p, None)
  }

  // A run of the machine over an arbitrary byte stream, from tick t on.
  function Run(p: Party, rows: seq<Row>, t: nat, bytes: nat -> Option<byte>, n: nat): Party {
    if n == 0 then p
    else
      var q := Run(p, rows, t, bytes, n - 1);
      Step(q, rows, t + n - 1, bytes(t + n - 1)).party
  }

  // --- collected payload -------------------------------------------------------------------

  // The first cap blocks of the buffer hold the payload, byte for byte.
  predicate Holds(buf: seq<word>, cap: nat, payload: seq<byte>) {
    forall j: nat | j < |payload| && j < cap * 2 && j / 2 < |buf| :: ReadByte(buf, j) == Some(payload[j])
  }

  lemma HoldsMore(buf: seq<word>, cap: nat, payload: seq<byte>, v: byte)
    requires Holds(buf, cap, payload)
    ensures Holds(if |payload| < cap * 2 then WriteByte(buf, |payload|, v) else buf, cap, payload + [v])
  {
    var after := if |payload| < cap * 2 then WriteByte(buf, |payload|, v) else buf;
    forall j: nat | j < |payload| + 1 && j < cap * 2 && j / 2 < |buf|
      ensures ReadByte(after, j) == Some((payload + [v])[j])
    {
      ReadOfWriteByte(buf, |payload|, v, j);
    }
  }
}
