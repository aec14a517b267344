// The CS side as the program runs it: taking results, scheduling and arming exchanges in place.
module CsUnits {
  import opened Wire
  import opened CommTable
  import opened BusExchange
  import opened BusUnits
  import opened Scheduler
  import opened SchedulerInvariant
  import opened TaskTables
  import opened CommandWindows
  import opened CommandStores
  import opened CsExchange
  import P = Params
  import C = Codec
  import F = FlightEvents

  class CsUnit {
    const unit: BusUnit
    const table: TaskTable
    const store: CommandStore
    const nodes: seq<Node>
    const tables: P.Tables

    ghost predicate Valid()
      reads table
    {
      && unit.Valid() && table.Valid() && store.Valid()
      && store.cmd == unit.msgCmd && store.buf == unit.msgCmdBuf
      && |nodes| == |store.pending| == NODE_COUNT
      && (forall i :: 0 <= i < |nodes| ==> nodes[i].comBlocks <= store.buf.Length)
      && (forall i :: 0 <= i < |store.pending| ==> store.pending[i] != unit.msgPrm && store.pending[i] != unit.msgPrmBuf)
    }

    constructor (unit: BusUnit, table: TaskTable, store: CommandStore, nodes: seq<Node>, tables: P.Tables)
      requires unit.Valid() && table.Valid() && store.Valid() && store.cmd == unit.msgCmd && store.buf == unit.msgCmdBuf
      requires |nodes| == |store.pending| == NODE_COUNT
      requires forall i :: 0 <= i < |nodes| ==> nodes[i].comBlocks <= store.buf.Length
      requires forall i :: 0 <= i < |store.pending| ==> store.pending[i] != unit.msgPrm && store.pending[i] != unit.msgPrmBuf
      ensures Valid() && this.unit == unit && this.table == table && this.store == store
    {
      this.unit, this.table, this.store, this.nodes, this.tables := unit, table, store, nodes, tables;
    }

    // --- taking a result -------------------------------------------------------------------

    ghost function ResultNow(): Option<Result>
      reads unit
    {
      if unit.resultReady then Some(unit.lastResult) else None
    }

    static function OutcomeOf(task: Task, r: Result): Outcome {
      if !task.enabled then Cancelled else if r == Success then Delivered else Failed
    }

    // The windows once a task's exchange has ended with r.
    function Settled(w: Wires, task: Task, r: Result): Wires {
      if task.kind == CommandTask && task.node.Some? && task.node.value < |nodes|
         && (task.node.value < |w.pending| ==> nodes[task.node.value].comBlocks <= |w.pending[task.node.value]|)
      then FinishWindows(w, nodes[task.node.value], task.node.value, OutcomeOf(task, r)) else w
    }

    // Window by window: only an exchange that has not succeeded and whose task is still enabled is to be
    // repeated. A data exchange changes no command window.
    predicate SettledAs(w: Wires, v: Wires, task: Task, r: Result) {
      if task.kind == DataTask then v == w
      else task.node.Some? && task.node.value < |nodes|
           && Closed(w, v, nodes[task.node.value], task.node.value, task.enabled && r != Success)
    }

    // The task's exchange has ended: for the windows that is the end of the command in flight.
    lemma EndIsEvent(c: Config, w: Wires, s: Sched, r: Result)
      requires ConfigOk(c) && Shaped(c, w) && c.nodes == nodes && F.FlightOf(s).InFlight? && F.FlightOf(s).node < |nodes|
      ensures Settled(w, s.tasks[s.active.value], r) == NextWires(c, w, F.FlightOf(s), CommandWindows.Finish(r == Success))
    {
      FitsAll(c, F.FlightOf(s).node);
      hide FinishWindows;
    }

    // Bus and windows once the result r of s's active task has been taken: the result is cleared, the
    // frames are whole again, the windows are settled, and nothing else has changed.
    ghost predicate TookResult(p: Party, w: Wires, s: Sched, r: Result)
      reads unit, unit.msgCmd, unit.msgCmdBuf, unit.msgPrm, unit.msgPrmBuf, store.cmd, store.buf, store.pending
    {
      && s.active.Some? && s.active.value < |s.tasks|
      && store.View() == Settled(w, s.tasks[s.active.value], r)
      && SettledAs(w, store.View(), s.tasks[s.active.value], r) && !unit.resultReady && unit.lastResult == NoResult
      && unit.View() == p.(ctl := BusExchange.ClearResult(p.ctl), win := WholeWindows(p.mem),
                           mem := p.mem.(cmd := store.cmd[..], cmdBuf := store.buf[..]))
    }

    method SettleWindows(task: Task, r: Result)
      requires Valid() && task.node.Some? && task.node.value < NODE_COUNT
      modifies store.cmd, store.buf, store.pending
      ensures store.View() == Settled(old(store.View()), task, r)
      ensures SettledAs(old(store.View()), store.View(), task, r)
    {
      hide FinishWindows, Closed;
      if task.kind == CommandTask {
        store.Finish(nodes[task.node.value], task.node.value, OutcomeOf(task, r));
        FinishCloses(old(store.View()), nodes[task.node.value], task.node.value, OutcomeOf(task, r));
      }
    }

    // Takes the result of the active task's exchange, settles its command windows and frees its slot.
    method FinalizeActive() returns (c: Option<Completion>)
      requires Valid() && Inv(table.View())
      modifies unit, store.cmd, store.buf, store.pending, table`normal, table`priority, table`active, table.tasks
      ensures Valid() && (table.View(), c) == Finalize(old(table.View()), old(ResultNow()))
      ensures c == None ==> unit.View() == old(unit.View()) && store.View() == old(store.View())
      ensures c.Some? ==> TookResult(old(unit.View()), old(store.View()), old(table.View()), c.value.result)
    {
      hide Settled, SettledAs, QueueTaskSlot, ClearSlot, PopNext;
      if table.active == None { return None; }
      var slot := table.active.value;
      assert SlotOk(table.View(), slot);
      var task := table.tasks[slot];
      if !task.armed { return None; }
      var r := unit.TakeResult();
      if r == None { return None; }
      unit.ResetFrameLayout();
      SettleWindows(task, r.value);
      c := table.FinalizeActiveTask(r);
    }

    // The tick's control step: does nothing while the bus is busy.
    method ExchangeControlTick()
      requires Valid() && Inv(table.View())
      modifies unit, store.cmd, store.buf, store.pending, table, table.tasks
      ensures Valid()
      ensures table.View() == if old(unit.exchangeBusy) then old(table.View()) else ExchangeControl(old(table.View()), old(ResultNow()))
      ensures var c := Finalize(old(table.View()), old(ResultNow())).1;
        if old(unit.exchangeBusy) || c == None
        then unit.View() == old(unit.View()) && store.View() == old(store.View())
        else TookResult(old(unit.View()), old(store.View()), old(table.View()), c.value.result)
    {
      if unit.exchangeBusy { return; }
      hide Inv, PopNext, FinishWindows, Finalize, Activate, Settled, SettledAs;
      var c := FinalizeActive();
      if c.Some? {
        table.completions := table.completions + [c.value];
        return;
      }
      if table.active.Some? { return; }
      var slot := table.PopNextTaskSlot();
      if slot.Some? {
        table.ActivateTask(slot.value);
      }
    }

    // Cancels every task of a target and empties its windows, and with them the front of the buffer.
    method CancelAll(target: Target)
      requires Valid()
      modifies store.cmd, store.buf, store.pending, table`normal, table`priority, table.tasks
      ensures Valid() && table.View() == Apply(old(table.View()), CancelTarget(target))
      ensures store.View() == WindowsCancelled(old(store.View()), target)
      ensures NodeOf(target) == None ==> store.View() == old(store.View())
      ensures NodeOf(target).Some? ==> Closed(old(store.View()), store.View(), nodes[NodeOf(target).value], NodeOf(target).value, false)
    {
      hide RemoveTasksForNode, CancelWindows, Closed;
      var node := NodeOf(target);
      if node == None { return; }
      CancelCloses(store.View(), nodes[node.value], node.value);
      table.RemoveNodeTasks(node.value);
      store.CancelNode(nodes[node.value], node.value);
    }

    function WindowsCancelled(w: Wires, target: Target): Wires {
      match NodeOf(target)
      case None => w
      case Some(n) =>
        if n < |nodes| && (n < |w.pending| ==> nodes[n].comBlocks <= |w.pending[n]|)
        then CancelWindows(w, nodes[n], n) else w
    }

    // --- arming ----------------------------------------------------------------------------

    // Which task the bus would be armed for.
    ghost function ToArm(): Option<Task>
      reads table, table.tasks
    {
      if table.active.Some? && table.active.value < table.tasks.Length && CanArm(table.tasks[table.active.value])
      then Some(table.tasks[table.active.value]) else None
    }

    function ArmedUnit(p: Party, pending: seq<seq<word>>, task: Task, root: real): Party {
      if task.node.Some? && task.node.value < |nodes|
      then ArmParty(p, pending, tables.comms, nodes[task.node.value], task.node.value, task.kind, OwnCommand(p.mem, tables, task, root))
      else p
    }

    // The square root is right for the command the task writes.
    ghost predicate RootFits(task: Task, root: real) {
      var x := if task.hasValue then task.value else 1.0;
      tables.IsParam(task.commandId) || tables.IsComm(task.commandId) ==> C.RootOk(tables.RowAt(task.commandId), x, root)
    }

    // Writes the task's own command, if it has one, into the command area.
    method WriteOwnCommand(task: Task, root: real)
      requires Valid() && RootFits(task, root)
      modifies store.cmd
      ensures store.View() == old(store.View()).(cmd := OwnCommand(old(unit.Mem()), tables, task, root))
    {
      hide P.SetValue;
      if !task.staged && task.commandId != 0 {
        var _ := P.SetValueInPlace(P.CsSide, SYS_CS, unit.msgPrm, unit.msgCmd, tables, task.commandId,
                                   if task.hasValue then task.value else 1.0, root);
      }
      assert store.PendingView() == old(store.PendingView());
    }

    method NarrowFrames(n: Node)
      requires Valid()
      modifies unit
      ensures unit.View() == SetPrmFrame(SetCmdFrame(old(unit.View()), n.comBase, n.comBlocks), n.parBase, n.parBlocks)
    {
      hide SetCmdFrame, SetPrmFrame;
      var _ := unit.SetCmdFrame(n.comBase, n.comBlocks);
      var _ := unit.SetPrmFrame(n.parBase, n.parBlocks);
    }

    // Loads what is pending and what is staged for the node into the buffer, and consumes the staging.
    method PrepareCommandExchange(task: Task, n: Node, slot: nat, root: real)
      requires Valid() && slot < |nodes| && nodes[slot] == n && RootFits(task, root)
      modifies store.cmd, store.buf
      ensures store.View() == ArmWindows(old(store.View()), tables.comms, n, slot, OwnCommand(old(unit.Mem()), tables, task, root))
    {
      hide ClearMsgWindow, MergeStaged, LoadPending, ClearBuffer, P.SetValue;
      store.ClearCommandBufferWindow(n);
      store.LoadPendingWindow(n, slot);
      assert unit.msgCmd[..] == old(unit.msgCmd[..]);
      WriteOwnCommand(task, root);
      store.MergeWindowToBuffer(tables.comms, n);
      store.ClearCommandMsgWindow(n);
    }

    // Sets the bus state for a request to the node.
    method StartRequest(n: Node, flag: nat)
      requires Valid()
      modifies unit
      ensures unit.targetAddr == n.busAddr && unit.Ctl() == ArmControl(old(unit.Ctl()), flag) && unit.Win() == old(unit.Win())
    {
      unit.msgFlag := flag;
      unit.targetAddr := n.busAddr;
      unit.exchangeFlag, unit.txFlag, unit.rxFlag := Tx, TxSof, RxSof;
      unit.msgAdrFlag, unit.msgNBlocks := false, 0;
      unit.exchangeSubClock, unit.exchangeWaitClock := 0, 0;
      unit.exchangeBusy := true;
      unit.ClearResult();
    }

    // Arms the exchange of the active task, unless it is armed already or there is none.
    method ArmActiveExchange(root: real)
      requires Valid() && Inv(table.View()) && (ToArm().Some? ==> RootFits(ToArm().value, root))
      modifies unit, store.cmd, store.buf, table.tasks
      ensures Valid() && table.View() == MarkArmed(old(table.View()))
      ensures unit.View() == if old(ToArm()).Some?
                             then ArmedUnit(old(unit.View()), old(store.PendingView()), old(ToArm()).value, root)
                             else old(unit.View())
    {
      hide OwnCommand, ArmControl, SetPrmFrame, SetCmdFrame, BusExchange.ResetFrameLayout, RootFits, FramesFor, ArmWindows;
      if table.active == None { return; }
      var slot := table.active.value;
      if slot >= table.tasks.Length { return; }
      assert SlotOk(table.View(), slot);
      var task := table.tasks[slot];
      if !task.used || !task.active || task.armed || task.node == None { return; }
      var n := nodes[task.node.value];
      unit.ResetFrameLayout();
      if task.kind == CommandTask {
        PrepareCommandExchange(task, n, task.node.value, root);
        ArmKeepsSizes(old(store.View()), tables.comms, n, task.node.value, OwnCommand(old(unit.Mem()), tables, task, root));
      }
      ghost var framed := unit.View();
      assert framed == BusExchange.ResetFrameLayout(old(unit.View())).(mem := unit.Mem());
      FramesIgnoreContents(old(unit.View()), unit.Mem(), n);
      NarrowFrames(n);
      StartRequest(n, FlagOf(task.kind));
      table.tasks[slot] := task.(armed := true);
    }
  }
}
