// How CS arms an exchange: command windows, frame windows and the bus state it hands to the machine.
module CsExchange {
  import opened Wire
  import opened MsgBlock
  import opened CommTable
  import opened BusExchange
  import opened Lockstep
  import opened ClosedSystem
  import opened Scheduler
  import opened CommandWindows
  import P = Params
  import C = Codec

  // The command area after an active task has written its own command into it, if it has one.
  function OwnCommand(m: Memory, t: P.Tables, task: Task, root: real): (own: seq<word>)
    ensures |own| == |m.cmd|
  {
    if task.staged || task.commandId == 0 then m.cmd
    else P.SetValue(P.Context(P.CsSide, SYS_CS, m.prm, m.cmd), t, task.commandId,
                    if task.hasValue then task.value else 1.0, root).0.cmd
  }

  // That command as a row of the command table and the pattern written for it, if it is accepted.
  function OwnWrite(m: Memory, t: P.Tables, task: Task, root: real): Option<Own> {
    if task.staged || task.commandId == 0 || !t.IsComm(task.commandId) then None
    else
      var x := if task.hasValue then task.value else 1.0;
      var row := t.CommRow(task.commandId);
      if row.CsField().Fits(|m.cmd|) && C.Accepts(row, x)
      then Some(Own(task.commandId - |t.params|, P.Pattern(row, x, root))) else None
  }

  // Writing the task's own command is writing that row of the command area.
  lemma OwnCommandIsWritten(m: Memory, t: P.Tables, task: Task, root: real)
    requires !task.staged && t.IsComm(task.commandId) ==>
      C.RootOk(t.CommRow(task.commandId), if task.hasValue then task.value else 1.0, root)
    ensures OwnCommand(m, t, task, root) == Written(t.comms, m.cmd, OwnWrite(m, t, task, root))
  {
    hide C.PrepareRaw, C.Accepts, WriteValue, C.EncodeToBits, C.RootOk;
    if !task.staged && task.commandId != 0 && t.IsComm(task.commandId) {
      var x, row := if task.hasValue then task.value else 1.0, t.CommRow(task.commandId);
      if row.CsField().Fits(|m.cmd|) {
        C.CodeIffAccepted(row, x, root);
      }
    }
  }

  function ArmControl(c: Control, flag: nat): Control {
    ClearResult(c.(exchange := Tx, tx := TxSof, rx := RxSof, flag := flag, adrFlag := false, nBlocks := 0,
                   subClock := 0, waitClock := 0, busy := true))
  }

  function FlagOf(kind: TaskKind): nat { if kind == CommandTask then CMD_REQ else DATA_REQ }

  // Frame windows first cover everything and are then narrowed to the node's.
  function FramesFor(p: Party, n: Node): Party {
    SetPrmFrame(SetCmdFrame(ResetFrameLayout(p), n.comBase, n.comBlocks), n.parBase, n.parBlocks)
  }

  // The master as armed for a task with node n; own is the command area the staged values are taken from.
  function ArmParty(p: Party, pending: seq<seq<word>>, rows: seq<Row>, n: Node, slot: nat, kind: TaskKind,
                    own: seq<word>): Party {
    var w := ArmWindows(Wires(p.mem.cmd, p.mem.cmdBuf, pending), rows, n, slot, own);
    var q := FramesFor(p, n);
    q.(targetAddr := n.busAddr, ctl := ArmControl(p.ctl, FlagOf(kind)),
       mem := if kind == CommandTask then q.mem.(cmd := w.cmd, cmdBuf := w.buf) else q.mem)
  }

  // The node's windows fit the CS arrays and a frame.
  predicate NodeServed(p: Party, n: Node) {
    && n.busAddr < 32
    && 1 <= n.comBlocks <= MAX_BLOCKS && n.comBase + n.comBlocks <= |p.mem.cmd| && n.comBlocks <= |p.mem.cmdBuf|
    && 1 <= n.parBlocks <= MAX_BLOCKS && n.parBase + n.parBlocks <= |p.mem.prm| && n.parBlocks <= |p.mem.prmBuf|
  }

  lemma FramesAre(p: Party, n: Node)
    requires NodeServed(p, n)
    ensures FramesFor(p, n) == p.(win := Windows(n.comBase, n.comBlocks, n.parBase, n.parBlocks))
  {
  }

  // The blocks of a frame over a whole area.
  function WholeBlocks(area: seq<word>, buf: seq<word>): nat {
    if |buf| == 0 || |area| < |buf| then |area| else |buf|
  }

  // A window that does not fit its area or its buffer is refused, and the frame covers the whole area.
  lemma FramesFit(p: Party, n: Node)
    ensures var w, m := FramesFor(p, n).win, p.mem;
      && FramesFor(p, n) == p.(win := w)
      && (if n.comBase + n.comBlocks <= |m.cmd| && n.comBlocks <= |m.cmdBuf|
          then w.cmdOffset == n.comBase && w.cmdBlocks == n.comBlocks
          else w.cmdOffset == 0 && w.cmdBlocks == WholeBlocks(m.cmd, m.cmdBuf))
      && (if n.parBase + n.parBlocks <= |m.prm| && n.parBlocks <= |m.prmBuf|
          then w.prmOffset == n.parBase && w.prmBlocks == n.parBlocks
          else w.prmOffset == 0 && w.prmBlocks == WholeBlocks(m.prm, m.prmBuf))
  {
  }

  lemma ArmKeepsSizes(w: Wires, rows: seq<Row>, n: Node, slot: nat, own: seq<word>)
    requires |own| == |w.cmd|
    ensures |ArmWindows(w, rows, n, slot, own).cmd| == |w.cmd| && |ArmWindows(w, rows, n, slot, own).buf| == |w.buf|
    ensures ArmWindows(w, rows, n, slot, own).pending == w.pending
  {
  }

  // Arming an idle master starts a request for exactly the node's blocks.
  lemma ArmedForNode(p: Party, pending: seq<seq<word>>, rows: seq<Row>, n: Node, slot: nat, kind: TaskKind, own: seq<word>)
    requires NodeServed(p, n) && !p.ctl.busy && |own| == |p.mem.cmd|
    ensures var q := ArmParty(p, pending, rows, n, slot, kind, own);
      && Armed(q) && MasterApp(p, q) && q.targetAddr == n.busAddr && q.ctl.flag == FlagOf(kind)
      && CmdFrameBlocks(q) == n.comBlocks && PrmFrameBlocks(q) == n.parBlocks
      && CalcNBlocks(q) == (if kind == CommandTask then n.comBlocks else 0)
      && q.win.prmOffset == n.parBase && !q.ctl.resultReady && q.ctl.lastResult == NoResult
  {
    FramesAre(p, n);
    ArmKeepsSizes(Wires(p.mem.cmd, p.mem.cmdBuf, pending), rows, n, slot, own);
    hide ArmWindows, FramesFor;
  }

  // The frame windows depend on the sizes of the arrays only.
  lemma FramesIgnoreContents(p: Party, m: Memory, n: Node)
    requires SameSizes(p.mem, m)
    ensures SetPrmFrame(SetCmdFrame(ResetFrameLayout(p).(mem := m), n.comBase, n.comBlocks), n.parBase, n.parBlocks)
      == FramesFor(p, n).(mem := m)
    ensures FramesFor(p, n) == p.(win := FramesFor(p, n).win)
  {
  }
}
