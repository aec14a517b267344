// The command windows as the program keeps them: the command area, the transport buffer and one pending
// array per node, changed in place.
module CommandStores {
  import opened Wire
  import opened MsgBlock
  import opened CommTable
  import opened CommandWindows

  class CommandStore {
    const cmd: array<word>
    const buf: array<word>
    const pending: seq<array<word>>

    ghost predicate Valid() {
      && cmd != buf
      && (forall i :: 0 <= i < |pending| ==> pending[i] != cmd && pending[i] != buf && pending[i].Length == buf.Length)
      && (forall i, j :: 0 <= i < j < |pending| ==> pending[i] != pending[j])
    }

    ghost function PendingView(): (p: seq<seq<word>>)
      reads pending
      ensures |p| == |pending| && forall i :: 0 <= i < |p| ==> p[i] == pending[i][..]
    {
      seq(|pending|, i requires 0 <= i < |pending| reads pending => pending[i][..])
    }

    ghost function View(): Wires
      reads cmd, buf, pending
    {
      Wires(cmd[..], buf[..], PendingView())
    }

    constructor (cmd: array<word>, buf: array<word>, pending: seq<array<word>>)
      requires cmd != buf
      requires forall i :: 0 <= i < |pending| ==> pending[i] != cmd && pending[i] != buf && pending[i].Length == buf.Length
      requires forall i, j :: 0 <= i < j < |pending| ==> pending[i] != pending[j]
      ensures Valid() && this.cmd == cmd && this.buf == buf && this.pending == pending
    {
      this.cmd, this.buf, this.pending := cmd, buf, pending;
    }

    method ClearCommandMsgWindow(n: Node)
      requires Valid()
      modifies cmd
      ensures View() == ClearMsgWindow(old(View()), n)
    {
      if WindowFits(n.comBase, n.comBlocks, cmd.Length) {
        ClearBlocksInPlace(cmd, n.comBase, n.comBlocks);
      }
      assert PendingView() == old(PendingView());
    }

    method ClearCommandBufferWindow(n: Node)
      requires Valid()
      modifies buf
      ensures View() == ClearBuffer(old(View()), n)
    {
      if WindowFits(0, n.comBlocks, buf.Length) {
        ClearBlocksInPlace(buf, 0, n.comBlocks);
      }
      assert PendingView() == old(PendingView());
    }

    method ClearPendingWindow(n: Node, slot: nat)
      requires Valid() && n.comBlocks <= buf.Length
      modifies if slot < |pending| then {pending[slot]} else {}
      ensures View() == ClearPending(old(View()), n, slot)
    {
      if slot >= |pending| { return; }
      ClearBlocksInPlace(pending[slot], 0, n.comBlocks);
      assert PendingView() == old(PendingView())[slot := pending[slot][..]];
    }

    method LoadPendingWindow(n: Node, slot: nat)
      requires Valid()
      modifies buf
      ensures View() == LoadPending(old(View()), n, slot)
    {
      if slot >= |pending| || !WindowFits(0, n.comBlocks, buf.Length) { return; }
      CopyBlocksInPlace(buf, 0, pending[slot], 0, n.comBlocks);
      assert PendingView() == old(PendingView());
    }

    method SavePendingWindow(n: Node, slot: nat)
      requires Valid()
      modifies if slot < |pending| then {pending[slot]} else {}
      ensures View() == SavePending(old(View()), n, slot)
    {
      if slot >= |pending| || !WindowFits(0, n.comBlocks, buf.Length) { return; }
      CopyBlocksInPlace(pending[slot], 0, buf, 0, n.comBlocks);
      assert PendingView() == old(PendingView())[slot := pending[slot][..]];
    }

    method MergeWindowToBuffer(rows: seq<Row>, n: Node)
      requires Valid()
      modifies buf
      ensures View() == MergeStaged(old(View()), rows, n)
    {
      OverlayInPlace(rows, n.systemId, true, cmd, buf);
      assert PendingView() == old(PendingView());
    }

    // Finalising a command exchange.
    method Finish(n: Node, slot: nat, o: Outcome)
      requires Valid() && n.comBlocks <= buf.Length && slot < |pending|
      modifies cmd, buf, pending[slot]
      ensures View() == FinishWindows(old(View()), n, slot, o)
    {
      hide ClearBlocks, CopyBlocks, PendingView;
      ClearCommandMsgWindow(n);
      if o == Failed {
        SavePendingWindow(n, slot);
      } else {
        ClearCommandBufferWindow(n);
        ClearPendingWindow(n, slot);
      }
    }

    // Cancelling everything for a node.
    method CancelNode(n: Node, slot: nat)
      requires Valid() && n.comBlocks <= buf.Length && slot < |pending|
      modifies cmd, buf, pending[slot]
      ensures View() == CancelWindows(old(View()), n, slot)
    {
      hide ClearBlocks, CopyBlocks, PendingView;
      ClearPendingWindow(n, slot);
      ClearCommandBufferWindow(n);
      ClearCommandMsgWindow(n);
    }
  }
}
