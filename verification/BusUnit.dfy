// bus_state_t as an object: the handlers of the exchange machine updating it in place.
module BusUnits {
  import opened Wire
  import opened MsgBlock
  import opened CommTable
  import opened BusExchange
  import opened MockBus
  import H = MsgHeader

  class BusUnit {
    const role: Role
    const systemId: nat
    const selfAddr: nat
    const rows: seq<Row>
    const bus: Bus
    const msgCmdBuf: array<word>
    const msgPrmBuf: array<word>
    const msgCmd: array<word>
    const msgPrm: array<word>
    var targetAddr: nat
    var msgHeader: word
    var cmdFrameOffset: nat
    var cmdFrameBlocks: nat
    var prmFrameOffset: nat
    var prmFrameBlocks: nat
    var exchangeFlag: ExchangeFlag
    var rxFlag: RxFlag
    var txFlag: TxFlag
    var msgAdrFlag: bool
    var msgNBlocks: nat
    var msgFlag: nat
    var exchangeSubClock: nat
    var exchangeWaitClock: nat
    var exchangeBusy: bool
    var resultReady: bool
    var lastResult: Result
    var writerTick: nat

    predicate Valid() {
      && msgCmdBuf != msgPrmBuf && msgCmdBuf != msgCmd && msgCmdBuf != msgPrm
      && msgPrmBuf != msgCmd && msgPrmBuf != msgPrm && msgCmd != msgPrm
    }

    function Ctl(): Control
      reads this
    {
      Control(exchangeFlag, rxFlag, txFlag, msgHeader, msgAdrFlag, msgNBlocks, msgFlag,
              exchangeSubClock, exchangeWaitClock, exchangeBusy, resultReady, lastResult)
    }

    function Win(): Windows
      reads this
    {
      Windows(cmdFrameOffset, cmdFrameBlocks, prmFrameOffset, prmFrameBlocks)
    }

    function Mem(): Memory
      reads this, msgCmdBuf, msgPrmBuf, msgCmd, msgPrm
    {
      Memory(msgCmdBuf[..], msgPrmBuf[..], msgCmd[..], msgPrm[..])
    }

    // The state as a value.
    function View(): Party
      reads this, msgCmdBuf, msgPrmBuf, msgCmd, msgPrm
    {
      Party(Identity(role, systemId, selfAddr), targetAddr, Mem(), Win(), Ctl())
    }

    constructor (role: Role, systemId: nat, selfAddr: nat, targetAddr: nat, rows: seq<Row>, bus: Bus,
                 cmdBuf: array<word>, prmBuf: array<word>, cmd: array<word>, prm: array<word>)
      requires cmdBuf != prmBuf && cmdBuf != cmd && cmdBuf != prm && prmBuf != cmd && prmBuf != prm && cmd != prm
      ensures Valid()
      ensures View() == Party(Identity(role, systemId, selfAddr), targetAddr,
        Memory(cmdBuf[..], prmBuf[..], cmd[..], prm[..]), WholeWindows(View().mem),
        Control(Rx, RxSof, TxSof, 0, false, 0, CMD_REQ, 0, 0, false, false, NoResult))
    {
      this.role, this.systemId, this.selfAddr, this.targetAddr := role, systemId, selfAddr, targetAddr;
      this.rows, this.bus := rows, bus;
      msgCmdBuf, msgPrmBuf, msgCmd, msgPrm := cmdBuf, prmBuf, cmd, prm;
      msgHeader := 0;
      cmdFrameOffset, cmdFrameBlocks := 0, ClampFrame(cmd.Length, cmdBuf.Length);
      prmFrameOffset, prmFrameBlocks := 0, ClampFrame(prm.Length, prmBuf.Length);
      exchangeFlag, rxFlag, txFlag := Rx, RxSof, TxSof;
      msgAdrFlag, msgNBlocks, msgFlag := false, 0, CMD_REQ;
      exchangeSubClock, exchangeWaitClock, exchangeBusy := 0, 0, false;
      resultReady, lastResult, writerTick := false, NoResult, 0;
    }

    method ResetFrameLayout()
      modifies this
      ensures writerTick == old(writerTick)
      ensures View() == BusExchange.ResetFrameLayout(old(View()))
    {
      cmdFrameOffset := 0;
      cmdFrameBlocks := ClampFrame(msgCmd.Length, msgCmdBuf.Length);
      prmFrameOffset := 0;
      prmFrameBlocks := ClampFrame(msgPrm.Length, msgPrmBuf.Length);
    }

    method SetCmdFrame(offset: nat, count: nat) returns (ok: bool)
      modifies this
      ensures writerTick == old(writerTick)
      ensures ok == FrameFits(offset, count, msgCmd.Length, msgCmdBuf.Length)
      ensures View() == BusExchange.SetCmdFrame(old(View()), offset, count)
    {
      if offset > msgCmd.Length || count > msgCmd.Length || offset + count > msgCmd.Length || count > msgCmdBuf.Length {
        return false;
      }
      cmdFrameOffset, cmdFrameBlocks := offset, count;
      return true;
    }

    method SetPrmFrame(offset: nat, count: nat) returns (ok: bool)
      modifies this
      ensures writerTick == old(writerTick)
      ensures ok == FrameFits(offset, count, msgPrm.Length, msgPrmBuf.Length)
      ensures View() == BusExchange.SetPrmFrame(old(View()), offset, count)
    {
      if offset > msgPrm.Length || count > msgPrm.Length || offset + count > msgPrm.Length || count > msgPrmBuf.Length {
        return false;
      }
      prmFrameOffset, prmFrameBlocks := offset, count;
      return true;
    }

    method ClearResult()
      modifies this
      ensures writerTick == old(writerTick)
      ensures View() == old(View()).(ctl := BusExchange.ClearResult(old(View()).ctl))
    {
      resultReady, lastResult := false, NoResult;
    }

    // The result of the last exchange, at most once.
    method TakeResult() returns (r: Option<Result>)
      modifies this
      ensures writerTick == old(writerTick)
      ensures r == if old(resultReady) then Some(old(lastResult)) else None
      ensures View() == if old(resultReady) then old(View()).(ctl := BusExchange.ClearResult(old(View()).ctl)) else old(View())
    {
      if !resultReady { return None; }
      r := Some(lastResult);
      resultReady, lastResult := false, NoResult;
    }

    method MarkResult(r: Result)
      modifies this
      ensures writerTick == old(writerTick)
      ensures View() == old(View()).(ctl := BusExchange.MarkResult(old(View()).ctl, r))
    {
      lastResult := r;
      resultReady := true;
    }

    // Back to waiting for a frame, with both clocks at zero.
    method ListenForSof()
      modifies this
      ensures writerTick == old(writerTick)
      ensures View() == old(View()).(ctl := old(Ctl()).(exchange := Rx, rx := RxSof, tx := TxSof,
        subClock := 0, waitClock := 0))
    {
      exchangeFlag := Rx;
      rxFlag := RxSof;
      txFlag := TxSof;
      exchangeSubClock := 0;
      exchangeWaitClock := 0;
    }

    method ForgetFrame()
      modifies this
      ensures writerTick == old(writerTick)
      ensures View() == old(View()).(ctl := old(Ctl()).(adrFlag := false, nBlocks := 0, flag := CMD_REQ, busy := false))
    {
      msgAdrFlag := false;
      msgNBlocks := 0;
      msgFlag := CMD_REQ;
      exchangeBusy := false;
    }

    method ResetToIdle()
      modifies this
      ensures writerTick == old(writerTick)
      ensures View() == BusExchange.ResetToIdle(old(View()))
    {
      ListenForSof();
      ForgetFrame();
      ResetFrameLayout();
    }

    method ParseStdHeader()
      modifies this
      ensures writerTick == old(writerTick)
      ensures View() == old(View()).(ctl := ParseHeader(old(View()).ctl, selfAddr))
    {
      var parsed := H.Parse(msgHeader);
      if parsed == None {
        msgAdrFlag := false;
        msgNBlocks := 0;
        return;
      }
      msgAdrFlag := parsed.value.addr == selfAddr;
      msgFlag := parsed.value.flag;
      msgNBlocks := parsed.value.nblocks;
    }

    method GenStdHeader()
      modifies this
      ensures writerTick == old(writerTick)
      ensures var n := CalcNBlocks(old(View())); View() == old(View()).(ctl := old(View()).ctl.(nBlocks := n,
        header := H.Make(targetAddr, msgFlag, writerTick % 256, n)))
    {
      msgNBlocks := CalcNBlocks(View());
      msgHeader := H.Make(targetAddr, msgFlag, writerTick % 256, msgNBlocks);
    }

    // --- receiving -------------------------------------------------------------------------

    method IrxSof()
      modifies this
      ensures writerTick == old(writerTick)
      ensures View() == old(View()).(ctl := ReceiveSof(old(Ctl()), role, ReadBus(bus.View(), writerTick)))
    {
      var value := bus.Read(writerTick);
      if value == Some(SOF) {
        rxFlag := RxHeader;
        exchangeSubClock := 0;
        exchangeWaitClock := 0;
        if role == Device { exchangeBusy := true; }
      }
    }

    method IrxHeader()
      modifies this
      ensures writerTick == old(writerTick)
      ensures View() == old(View()).(ctl := ReceiveHeader(old(Ctl()), selfAddr, ReadBus(bus.View(), writerTick)))
    {
      var value := bus.Read(writerTick);
      if exchangeSubClock == 0 {
        if value.Some? {
          msgHeader := H.WriteHeaderByte(msgHeader, 0, value.value);
          exchangeSubClock := 1;
          exchangeWaitClock := 0;
        }
        return;
      }
      if exchangeSubClock == 1 {
        if value == None { return; }
        msgHeader := H.WriteHeaderByte(msgHeader, 1, value.value);
        exchangeWaitClock := 0;
        ParseStdHeader();
        rxFlag := if msgNBlocks > 0 then RxData else RxEof;
        exchangeSubClock := 0;
      }
    }

    method IrxData()
      requires Valid()
      modifies this, msgCmdBuf, msgPrmBuf
      ensures writerTick == old(writerTick)
      ensures View() == ReceiveData(old(View()), ReadBus(bus.View(), writerTick))
    {
      var readAllowed := msgAdrFlag && (msgFlag == CMD_REQ || msgFlag == DATA_RESP);
      var value := bus.Read(writerTick);
      if value == None { return; }
      exchangeWaitClock := 0;
      if readAllowed {
        var index := exchangeSubClock;
        if msgFlag == CMD_REQ {
          if index < FrameBlocks(cmdFrameBlocks, msgCmd.Length, msgCmdBuf.Length) * 2 {
            WriteByteInPlace(msgCmdBuf, index, value.value);
          }
        } else if index < FrameBlocks(prmFrameBlocks, msgPrm.Length, msgPrmBuf.Length) * 2 {
          WriteByteInPlace(msgPrmBuf, index, value.value);
        }
      }
      exchangeSubClock := exchangeSubClock + 1;
      if exchangeSubClock >= msgNBlocks * 2 { rxFlag := RxEof; }
    }

    method IrxEof()
      requires Valid()
      modifies this, msgCmd, msgPrm
      ensures writerTick == old(writerTick)
      ensures View() == ReceiveEof(old(View()), rows, ReadBus(bus.View(), writerTick))
    {
      var value := bus.Read(writerTick);
      if value == None { return; }
      if value.value != EOF {
        MarkResult(InvalidEof);
        ResetToIdle();
        return;
      }
      if !msgAdrFlag {
        ResetToIdle();
        return;
      }
      if msgFlag == CMD_REQ {
        if systemId != SYS_NONE {
          OverlayInPlace(rows, systemId, false, msgCmdBuf, msgCmd);
        }
        msgFlag, txFlag, exchangeFlag, exchangeSubClock := CMD_RESP, TxSof, Tx, 0;
        return;
      }
      if msgFlag == DATA_REQ {
        msgFlag, txFlag, exchangeFlag, exchangeSubClock := DATA_RESP, TxSof, Tx, 0;
        return;
      }
      if msgFlag == DATA_RESP {
        CopyBlocksInPlace(msgPrm, prmFrameOffset, msgPrmBuf, 0,
                          FrameBlocks(prmFrameBlocks, msgPrm.Length, msgPrmBuf.Length));
      }
      if role == Master { MarkResult(Success); }
      ResetToIdle();
    }

    method RxExchange()
      requires Valid()
      modifies this, msgCmdBuf, msgPrmBuf, msgCmd, msgPrm
      ensures writerTick == old(writerTick)
      ensures View() == Receive(old(View()), rows, ReadBus(bus.View(), writerTick))
    {
      hide ReceiveSof, ReceiveHeader, ReceiveData, ReceiveEof;
      if role == Master && exchangeBusy {
        exchangeWaitClock := exchangeWaitClock + 1;
        if exchangeWaitClock > RESPONSE_TIMEOUT {
          MarkResult(Timeout);
          ResetToIdle();
          return;
        }
      }
      match rxFlag {
        case RxSof => IrxSof();
        case RxHeader => IrxHeader();
        case RxData => IrxData();
        case RxEof => IrxEof();
      }
    }

    // --- transmitting ----------------------------------------------------------------------

    method ItxSof()
      modifies this, bus
      ensures writerTick == old(writerTick)
      ensures View() == old(View()).(ctl := TransmitSof(old(Ctl()), role))
      ensures bus.View() == WriteBus(old(bus.View()), writerTick, SOF)
    {
      bus.Write(writerTick, SOF);
      txFlag := TxHeader;
      exchangeSubClock := 0;
      exchangeWaitClock := 0;
      if role == Master { exchangeBusy := true; }
    }

    // What a transmitting step leaves on the bus.
    ghost predicate Wrote(before: BusState, v: Option<byte>)
      reads this, bus
    {
      bus.View() == if v.Some? then WriteBus(before, writerTick, v.value) else before
    }

    method ItxHeader()
      modifies this, bus
      ensures writerTick == old(writerTick)
      ensures View() == TransmitHeader(old(View()), writerTick).party
      ensures Wrote(old(bus.View()), TransmitHeader(old(View()), writerTick).write)
    {
      hide H.Make;
      if exchangeSubClock == 0 {
        GenStdHeader();
        bus.Write(writerTick, msgHeader % 256);
        exchangeSubClock := 1;
        exchangeWaitClock := 0;
        return;
      }
      if exchangeSubClock == 1 {
        bus.Write(writerTick, msgHeader / 256);
        txFlag := if msgNBlocks > 0 then TxData else TxEof;
        exchangeSubClock := 0;
        exchangeWaitClock := 0;
      }
    }

    method ItxData()
      modifies this, bus
      ensures writerTick == old(writerTick)
      ensures View() == old(View()).(ctl := TransmitData(old(Ctl())))
      ensures bus.View() == WriteBus(old(bus.View()), writerTick, PayloadByte(old(View()), old(exchangeSubClock)))
    {
      var index := exchangeSubClock;
      var value: byte := 0;
      if msgFlag == CMD_REQ {
        if index < FrameBlocks(cmdFrameBlocks, msgCmd.Length, msgCmdBuf.Length) * 2 {
          value := ByteOrZero(msgCmdBuf[..], index);
        }
      } else if msgFlag == DATA_RESP {
        if index < FrameBlocks(prmFrameBlocks, msgPrm.Length, msgPrmBuf.Length) * 2 {
          value := ByteOrZero(msgPrmBuf[..], index);
        }
      }
      bus.Write(writerTick, value);
      exchangeSubClock := exchangeSubClock + 1;
      exchangeWaitClock := 0;
      if exchangeSubClock >= msgNBlocks * 2 { txFlag := TxEof; }
    }

    method ItxEof()
      modifies this, bus
      ensures writerTick == old(writerTick)
      ensures View() == old(View()).(ctl := TransmitEof(old(Ctl()), role))
      ensures bus.View() == WriteBus(old(bus.View()), writerTick, EOF)
    {
      bus.Write(writerTick, EOF);
      EndTransmission();
    }

    method EndTransmission()
      modifies this
      ensures writerTick == old(writerTick)
      ensures View() == old(View()).(ctl := TransmitEof(old(Ctl()), role))
    {
      ListenForSof();
      if role == Device {
        exchangeBusy := false;
        msgFlag := CMD_REQ;
        return;
      }
      if msgFlag == CMD_REQ {
        msgFlag := CMD_RESP;
      } else if msgFlag == DATA_REQ {
        msgFlag := DATA_RESP;
      } else {
        exchangeBusy := false;
        msgFlag := CMD_REQ;
      }
    }

    method TxExchange()
      modifies this, bus
      ensures writerTick == old(writerTick)
      ensures View() == Transmit(old(View()), writerTick).party
      ensures Wrote(old(bus.View()), Transmit(old(View()), writerTick).write)
    {
      hide TransmitHeader, TransmitData, TransmitEof, TransmitSof, PayloadByte;
      match txFlag {
        case TxSof => ItxSof();
        case TxHeader => ItxHeader();
        case TxData => ItxData();
        case TxEof => ItxEof();
      }
    }

    // One tick of the exchange: the new state and the byte written are those of the step function.
    method Exchange()
      requires Valid()
      modifies this, msgCmdBuf, msgPrmBuf, msgCmd, msgPrm, bus
      ensures Valid() && writerTick == old(writerTick)
      ensures var visible := ReadBus(old(bus.View()), writerTick);
        && View() == Step(old(View()), rows, writerTick, visible).party
        && Wrote(old(bus.View()), Step(old(View()), rows, writerTick, visible).write)
    {
      hide Receive, Transmit;
      match exchangeFlag {
        case Rx => RxExchange();
        case Tx => TxExchange();
        case Bypass =>
      }
    }
  }
}
