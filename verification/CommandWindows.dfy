// Command windows in CS: what is staged for a node, what is sent to it, and what is kept after a failure.
module CommandWindows {
  import opened Wire
  import opened Bits
  import opened MsgBlock
  import opened CommTable

  // A node's bus address, its window in the CS command area and its window in the CS parameter area;
  // the window sizes are the sizes of the device's own areas.
  datatype Node = Node(busAddr: nat, systemId: nat, comBase: nat, comBlocks: nat, parBase: nat, parBlocks: nat)

  // The CS command area, the one transport buffer, and per node the commands not yet delivered.
  datatype Wires = Wires(cmd: seq<word>, buf: seq<word>, pending: seq<seq<word>>)

  predicate WindowFits(offset: nat, blocks: nat, capacity: nat) {
    offset <= capacity && blocks <= capacity - offset
  }

  function Zeros(n: nat): seq<word> { seq(n, _ => 0) }

  // --- window operations -------------------------------------------------------------------

  function ClearMsgWindow(w: Wires, n: Node): Wires {
    if WindowFits(n.comBase, n.comBlocks, |w.cmd|) then w.(cmd := ClearBlocks(w.cmd, n.comBase, n.comBlocks)) else w
  }

  function ClearBuffer(w: Wires, n: Node): Wires {
    if WindowFits(0, n.comBlocks, |w.buf|) then w.(buf := ClearBlocks(w.buf, 0, n.comBlocks)) else w
  }

  function ClearPending(w: Wires, n: Node, slot: nat): Wires
    requires slot < |w.pending| ==> n.comBlocks <= |w.pending[slot]|
  {
    if slot >= |w.pending| then w
    else w.(pending := w.pending[slot := ClearBlocks(w.pending[slot], 0, n.comBlocks)])
  }

  function LoadPending(w: Wires, n: Node, slot: nat): Wires {
    if slot >= |w.pending| || !WindowFits(0, n.comBlocks, |w.buf|) then w
    else w.(buf := CopyBlocks(w.buf, 0, w.pending[slot], 0, n.comBlocks))
  }

  function SavePending(w: Wires, n: Node, slot: nat): Wires {
    if slot >= |w.pending| || !WindowFits(0, n.comBlocks, |w.buf|) then w
    else w.(pending := w.pending[slot := CopyBlocks(w.pending[slot], 0, w.buf, 0, n.comBlocks)])
  }

  function MergeStaged(w: Wires, rows: seq<Row>, n: Node): Wires {
    w.(buf := Overlay(rows, |rows|, n.systemId, true, w.cmd, w.buf))
  }

  // The windows part of arming a command exchange; own is the command written by the task itself.
  function ArmWindows(w: Wires, rows: seq<Row>, n: Node, slot: nat, own: seq<word>): Wires {
    var loaded := LoadPending(ClearBuffer(w, n), n, slot);
    ClearMsgWindow(MergeStaged(loaded.(cmd := own), rows, n), n)
  }

  datatype Outcome = Delivered | Failed | Cancelled

  // The windows part of finalising a command exchange.
  function FinishWindows(w: Wires, n: Node, slot: nat, o: Outcome): Wires
    requires slot < |w.pending| ==> n.comBlocks <= |w.pending[slot]|
  {
    var cleared := ClearMsgWindow(w, n);
    if o == Failed then SavePending(cleared, n, slot) else ClearPending(ClearBuffer(cleared, n), n, slot)
  }

  // The windows part of cancelling everything for a node.
  function CancelWindows(w: Wires, n: Node, slot: nat): Wires
    requires slot < |w.pending| ==> n.comBlocks <= |w.pending[slot]|
  {
    ClearMsgWindow(ClearBuffer(ClearPending(w, n, slot), n), n)
  }

  // What an ended exchange leaves of a node's windows: if it is to be repeated, the front of the buffer stands
  // and is what is pending for the node; if not, both are empty. The node's window of the command area is
  // empty either way, and everything else stands.
  predicate Closed(w: Wires, r: Wires, n: Node, slot: nat, repeat: bool) {
    var front := if repeat && n.comBlocks <= |w.buf| then w.buf[..n.comBlocks] else Zeros(n.comBlocks);
    && slot < |w.pending| == |r.pending| && n.comBlocks <= |w.buf| == |w.pending[slot]|
    && r.pending[slot] == front + w.pending[slot][n.comBlocks..]
    && r.buf == front + w.buf[n.comBlocks..]
    && (forall i | 0 <= i < |w.pending| && i != slot :: r.pending[i] == w.pending[i])
    && r.cmd == if WindowFits(n.comBase, n.comBlocks, |w.cmd|)
                then w.cmd[..n.comBase] + Zeros(n.comBlocks) + w.cmd[n.comBase + n.comBlocks..] else w.cmd
  }

  // Only a failure is repeated.
  lemma FinishCloses(w: Wires, n: Node, slot: nat, o: Outcome)
    requires slot < |w.pending| && n.comBlocks <= |w.buf| == |w.pending[slot]|
    ensures Closed(w, FinishWindows(w, n, slot, o), n, slot, o == Failed)
  {
    assert w.buf == w.buf[..n.comBlocks] + w.buf[n.comBlocks..];
  }

  lemma CancelCloses(w: Wires, n: Node, slot: nat)
    requires slot < |w.pending| && n.comBlocks <= |w.buf| == |w.pending[slot]|
    ensures Closed(w, CancelWindows(w, n, slot), n, slot, false)
  {
  }

  // --- runs --------------------------------------------------------------------------------

  // The command a task itself writes when it is armed: a row of the table and the raw value.
  datatype Own = Own(row: nat, raw: nat)

  // The command area once a task has written its own command into it, if it has one.
  function Written(rows: seq<Row>, cmd: seq<word>, own: Option<Own>): (r: seq<word>)
    ensures |r| == |cmd|
  {
    if own == None || own.value.row >= |rows| then cmd
    else
      var f := rows[own.value.row].CsField();
      match WriteValue(cmd, f.block, f.offset, f.width, own.value.raw)
      case Some(w) => w
      case None => cmd
  }

  // Stage: the operator writes the command area in any way. Arm: a command exchange with a node starts
  // and takes what the area then holds. Doom: the task in flight is cancelled. Finish: its exchange ends.
  // Cancel: everything for a node is cancelled.
  datatype Event = Stage(cmd: seq<word>) | Arm(node: nat, own: Option<Own>) | Doom | Finish(success: bool) | Cancel(node: nat)

  datatype Flight = Grounded | InFlight(node: nat, doomed: bool)

  datatype Config = Config(rows: seq<Row>, nodes: seq<Node>, cmdBlocks: nat, bufBlocks: nat)

  // The node's window in CS has the layout of the device's own area.
  ghost predicate FieldsInWindow(rows: seq<Row>, n: Node) {
    forall i: nat | i < |rows| && rows[i].sysId == n.systemId :: rows[i].csBlock == n.comBase + rows[i].block
  }

  predicate NodesApart(n: Node, m: Node) {
    n.comBase + n.comBlocks <= m.comBase || m.comBase + m.comBlocks <= n.comBase
  }

  // What the generated layout gives: windows fit, and a system's fields are disjoint inside its window.
  ghost predicate NodeFits(c: Config, k: nat)
    requires k < |c.nodes|
  {
    var n := c.nodes[k];
    && n.comBase + n.comBlocks <= c.cmdBlocks && n.comBlocks <= c.bufBlocks
    && DisjointRows(c.rows, n.systemId, n.comBlocks)
    && SourcesFit(c.rows, n.systemId, true, c.cmdBlocks) && FieldsInWindow(c.rows, n)
  }

  // Also, the windows of different nodes do not meet.
  ghost predicate ConfigOk(c: Config) {
    && (forall k :: 0 <= k < |c.nodes| ==> NodeFits(c, k))
    && (forall k, l :: 0 <= k < |c.nodes| && 0 <= l < |c.nodes| && k != l ==> NodesApart(c.nodes[k], c.nodes[l]))
  }

  ghost predicate Shaped(c: Config, w: Wires) {
    && |w.cmd| == c.cmdBlocks && |w.buf| == c.bufBlocks && |w.pending| == |c.nodes|
    && forall k :: 0 <= k < |w.pending| ==> |w.pending[k]| == c.bufBlocks
  }

  // A task's own command belongs to the task's node.
  predicate EventFits(c: Config, e: Event) {
    match e
    case Stage(cmd) => |cmd| == c.cmdBlocks
    case Arm(n, own) =>
      n < |c.nodes| && (own.Some? ==> own.value.row < |c.rows| && c.rows[own.value.row].sysId == c.nodes[n].systemId)
    case Cancel(n) => n < |c.nodes|
    case _ => true
  }

  // Commands go one at a time: arming only when nothing is in flight, finishing only what is.
  predicate Enabled(f: Flight, e: Event) {
    match e
    case Arm(_, _) => f == Grounded
    case Doom => f.InFlight?
    case Finish(_) => f.InFlight?
    case _ => true
  }

  function OutcomeOf(f: Flight, success: bool): Outcome
    requires f.InFlight?
  {
    if f.doomed then Cancelled else if success then Delivered else Failed
  }

  function NextFlight(f: Flight, e: Event): Flight {
    match e
    case Stage(_) => f
    case Arm(n, _) => InFlight(n, false)
    case Doom => if f.InFlight? then InFlight(f.node, true) else f
    case Finish(_) => Grounded
    case Cancel(n) => if f.InFlight? && f.node == n then InFlight(n, true) else f
  }

  ghost predicate FlightOk(c: Config, f: Flight) { f.InFlight? ==> f.node < |c.nodes| }

  lemma FitsAll(c: Config, k: nat)
    requires ConfigOk(c) && k < |c.nodes|
    ensures NodeFits(c, k)
  {
  }

  function NextWires(c: Config, w: Wires, f: Flight, e: Event): (r: Wires)
    requires ConfigOk(c) && Shaped(c, w) && FlightOk(c, f) && EventFits(c, e) && Enabled(f, e)
    ensures Shaped(c, r)
  {
    match e
    case Stage(cmd) => w.(cmd := cmd)
    case Arm(n, own) => FitsAll(c, n); ArmWindows(w, c.rows, c.nodes[n], n, Written(c.rows, w.cmd, own))
    case Doom => w
    case Finish(success) => FitsAll(c, f.node); FinishWindows(w, c.nodes[f.node], f.node, OutcomeOf(f, success))
    case Cancel(n) => FitsAll(c, n); CancelWindows(w, c.nodes[n], n)
  }

  // What is in flight after the first k events.
  function FlightAt(evs: seq<Event>, k: nat): Flight
    requires k <= |evs|
  {
    if k == 0 then Grounded else NextFlight(FlightAt(evs, k - 1), evs[k - 1])
  }

  predicate EventOk(c: Config, evs: seq<Event>, k: nat) {
    k < |evs| ==> EventFits(c, evs[k]) && Enabled(FlightAt(evs, k), evs[k])
  }

  ghost predicate Run(c: Config, evs: seq<Event>) {
    ConfigOk(c) && forall k :: 0 <= k < |evs| ==> EventOk(c, evs, k)
  }

  lemma {:induction false} FlightStaysOk(c: Config, evs: seq<Event>, k: nat)
    requires Run(c, evs) && k <= |evs|
    ensures FlightOk(c, FlightAt(evs, k))
  {
    if k > 0 {
      FlightStaysOk(c, evs, k - 1);
      assert EventOk(c, evs, k - 1);
    }
  }

  function Empty(c: Config): Wires {
    Wires(Zeros(c.cmdBlocks), Zeros(c.bufBlocks), seq(|c.nodes|, _ => Zeros(c.bufBlocks)))
  }

  // The windows after the first k events from reset.
  function WiresAt(c: Config, evs: seq<Event>, k: nat): (w: Wires)
    requires Run(c, evs) && k <= |evs|
    ensures Shaped(c, w)
  {
    if k == 0 then Empty(c)
    else
      FlightStaysOk(c, evs, k - 1);
      assert EventOk(c, evs, k - 1);
      NextWires(c, WiresAt(c, evs, k - 1), FlightAt(evs, k - 1), evs[k - 1])
  }

  // --- the reference: latest nonzero wins --------------------------------------------------

  ghost predicate FieldOf(c: Config, n: nat, i: nat) {
    n < |c.nodes| && i < |c.rows| && c.rows[i].sysId == c.nodes[n].systemId
  }

  ghost function DeviceField(c: Config, n: nat, i: nat): (f: Field)
    requires ConfigOk(c) && FieldOf(c, n, i)
    ensures f.Fits(c.bufBlocks) && f.block < c.nodes[n].comBlocks
  {
    FieldFits(c, n, i);
    c.rows[i].DeviceField()
  }

  // The raw value of field i in a command area.
  function Seen(c: Config, cmd: seq<word>, i: nat): nat
    requires i < |c.rows|
  {
    if c.rows[i].CsField().Fits(|cmd|) then Get(cmd, c.rows[i].CsField()) else 0
  }

  // The command area that arming takes the values from.
  function AreaAt(c: Config, evs: seq<Event>, k: nat): seq<word>
    requires Run(c, evs) && k < |evs| && evs[k].Arm?
  {
    Written(c.rows, WiresAt(c, evs, k).cmd, evs[k].own)
  }

  // Scanning back from event k: the most recent nonzero value of field i seen when arming for node n,
  // since that node's last delivered or cancelled command exchange; 0 if there is none.
  function Latest(c: Config, evs: seq<Event>, k: nat, n: nat, i: nat): nat
    requires Run(c, evs) && k <= |evs| && i < |c.rows|
    decreases k
  {
    if k == 0 then 0
    else
      var before := Latest(c, evs, k - 1, n, i);
      match evs[k - 1]
      case Arm(m, _) =>
        var seen := Seen(c, AreaAt(c, evs, k - 1), i);
        if m == n && seen != 0 then seen else before
      case Finish(success) =>
        var f := FlightAt(evs, k - 1);
        if f.InFlight? && f.node == n && (f.doomed || success) then 0 else before
      case Cancel(m) => if m == n then 0 else before
      case _ => before
  }

  // Where the undelivered value of a node's fields lives.
  function Holder(w: Wires, f: Flight, n: nat): seq<word>
    requires n < |w.pending|
  {
    if f == InFlight(n, false) then w.buf else w.pending[n]
  }

  // The holder's field i is the reference value, unless the exchange in flight is doomed anyway.
  ghost predicate HoldsLatest(c: Config, evs: seq<Event>, k: nat, n: nat, i: nat)
    requires Run(c, evs) && k <= |evs| && FieldOf(c, n, i)
  {
    var w, f := WiresAt(c, evs, k), FlightAt(evs, k);
    f != InFlight(n, true) ==> Get(Holder(w, f, n), DeviceField(c, n, i)) == Latest(c, evs, k, n, i)
  }

  lemma FieldFits(c: Config, n: nat, i: nat)
    requires ConfigOk(c) && FieldOf(c, n, i)
    ensures c.rows[i].DeviceField().Fits(c.bufBlocks)
    ensures c.rows[i].block < c.nodes[n].comBlocks
    ensures c.rows[i].CsField().Fits(c.cmdBlocks)
  {
    assert NodeFits(c, n);
  }

  // --- one field through each window operation ---------------------------------------------

  lemma ZeroField(w: seq<word>, f: Field)
    requires f.Fits(|w|) && w[f.block] == 0
    ensures Get(w, f) == 0
  {
    ExtractZero(f.offset, f.width);
  }

  lemma {:induction false} ExtractZero(offset: nat, width: nat)
    ensures Extract(0, offset, width) == 0
    decreases width
  {
    if width > 0 { ExtractZero(offset + 1, width - 1); BitOfZero(offset); }
  }

  lemma ClearedField(w: seq<word>, n: nat, f: Field)
    requires n <= |w| && f.Fits(|w|)
    ensures Get(ClearBlocks(w, 0, n), f) == if f.block < n then 0 else Get(w, f)
  {
    if f.block < n { ZeroField(ClearBlocks(w, 0, n), f); }
  }

  lemma CopiedField(dst: seq<word>, src: seq<word>, n: nat, f: Field)
    requires |dst| == |src| && n <= |src| && f.Fits(|dst|) && f.block < n
    ensures Get(CopyBlocks(dst, 0, src, 0, n), f) == Get(src, f)
  {
    CopyBlocksAt(dst, 0, src, 0, n, f.block);
  }

  // Disjointness inside the window is disjointness inside any larger buffer.
  lemma WiderDisjoint(rows: seq<Row>, sys: nat, n: nat, m: nat)
    requires DisjointRows(rows, sys, n) && n <= m
    ensures DisjointRows(rows, sys, m)
  {
  }

  // Arming sends, field by field, the newly staged value if there is one and else the pending one.
  lemma ArmField(c: Config, w: Wires, n: nat, own: seq<word>, i: nat)
    requires ConfigOk(c) && Shaped(c, w) && FieldOf(c, n, i) && |own| == c.cmdBlocks
    ensures Get(ArmWindows(w, c.rows, c.nodes[n], n, own).buf, DeviceField(c, n, i))
      == if Seen(c, own, i) != 0 then Seen(c, own, i) else Get(w.pending[n], DeviceField(c, n, i))
  {
    assert NodeFits(c, n);
    FieldFits(c, n, i);
    var node, f := c.nodes[n], DeviceField(c, n, i);
    var cleared := ClearBuffer(w, node);
    var loaded := LoadPending(cleared, node, n);
    CopiedField(cleared.buf, w.pending[n], node.comBlocks, f);
    WiderDisjoint(c.rows, node.systemId, node.comBlocks, c.bufBlocks);
    OverlayField(c.rows, |c.rows|, node.systemId, true, own, loaded.buf, i);
    hide Overlay, ClearBlocks, CopyBlocks, Get, DisjointRows, SourcesFit;
  }

  // A failure keeps what was sent; a delivery or a cancellation leaves nothing. Other nodes keep theirs.
  lemma FinishField(c: Config, w: Wires, m: nat, o: Outcome, n: nat, i: nat)
    requires ConfigOk(c) && Shaped(c, w) && FieldOf(c, n, i) && m < |c.nodes| && NodeFits(c, m)
    ensures Get(FinishWindows(w, c.nodes[m], m, o).pending[n], DeviceField(c, n, i))
      == if m != n then Get(w.pending[n], DeviceField(c, n, i))
         else if o == Failed then Get(w.buf, DeviceField(c, n, i)) else 0
  {
    if m == n {
      var f := DeviceField(c, n, i);
      CopiedField(w.pending[n], w.buf, c.nodes[n].comBlocks, f);
      ClearedField(w.pending[n], c.nodes[n].comBlocks, f);
      hide ClearBlocks, CopyBlocks, Get, DisjointRows, SourcesFit;
    }
  }

  // Cancelling empties the node's own pending fields, and the front of the shared buffer whoever uses it.
  lemma CancelField(c: Config, w: Wires, m: nat, n: nat, i: nat)
    requires ConfigOk(c) && Shaped(c, w) && FieldOf(c, n, i) && m < |c.nodes| && NodeFits(c, m)
    ensures var r, f := CancelWindows(w, c.nodes[m], m), DeviceField(c, n, i);
      && Get(r.pending[n], f) == (if m == n then 0 else Get(w.pending[n], f))
      && Get(r.buf, f) == (if f.block < c.nodes[m].comBlocks then 0 else Get(w.buf, f))
  {
    var f := DeviceField(c, n, i);
    ClearedField(w.pending[n], c.nodes[m].comBlocks, f);
    ClearedField(w.buf, c.nodes[m].comBlocks, f);
    hide ClearBlocks, Get, DisjointRows, SourcesFit;
  }

  // --- the refinement ----------------------------------------------------------------------

  // The one event that can hurt field i of node n: cancelling another node while n's exchange is in
  // flight. It is harmless if the field lies behind the other node's window or holds no command.
  ghost predicate Harmless(c: Config, evs: seq<Event>, k: nat, n: nat, i: nat)
    requires Run(c, evs) && k <= |evs| && FieldOf(c, n, i)
  {
    k < |evs| && evs[k].Cancel? && evs[k].node < |c.nodes| && evs[k].node != n && FlightAt(evs, k) == InFlight(n, false)
    ==> c.rows[i].block >= c.nodes[evs[k].node].comBlocks || Latest(c, evs, k, n, i) == 0
  }

  lemma HoldsAtReset(c: Config, evs: seq<Event>, n: nat, i: nat)
    requires Run(c, evs) && FieldOf(c, n, i)
    ensures HoldsLatest(c, evs, 0, n, i)
  {
    ZeroField(Empty(c).pending[n], DeviceField(c, n, i));
  }

  // Every event carries the invariant on, except a cancellation that is not harmless, which breaks it.
  lemma StepHolds(c: Config, evs: seq<Event>, k: nat, n: nat, i: nat)
    requires Run(c, evs) && k < |evs| && FieldOf(c, n, i) && HoldsLatest(c, evs, k, n, i)
    ensures HoldsLatest(c, evs, k + 1, n, i) <==> Harmless(c, evs, k, n, i)
  {
    assert EventOk(c, evs, k);
    FlightStaysOk(c, evs, k);
    var w, f, e := WiresAt(c, evs, k), FlightAt(evs, k), evs[k];
    match e
    case Stage(cmd) =>
    case Arm(m, own) =>
      FitsAll(c, m);
      if m == n { ArmField(c, w, n, Written(c.rows, w.cmd, own), i); }
    case Doom =>
    case Finish(success) =>
      FitsAll(c, f.node);
      FinishField(c, w, f.node, OutcomeOf(f, success), n, i);
    case Cancel(m) =>
      FitsAll(c, m);
      CancelField(c, w, m, n, i);
  }

  // Up to any point of any run, every field is held at its reference value exactly if every
  // cancellation so far was harmless to it.
  lemma {:induction false} PendingRefinesLatest(c: Config, evs: seq<Event>, k: nat, n: nat, i: nat)
    requires Run(c, evs) && k <= |evs| && FieldOf(c, n, i)
    ensures (forall j :: 0 <= j <= k ==> HoldsLatest(c, evs, j, n, i)) <==> (forall j :: 0 <= j < k ==> Harmless(c, evs, j, n, i))
  {
    HoldsAtReset(c, evs, n, i);
    hide HoldsLatest, Harmless;
    if k > 0 {
      PendingRefinesLatest(c, evs, k - 1, n, i);
      if HoldsLatest(c, evs, k - 1, n, i) {
        StepHolds(c, evs, k - 1, n, i);
      }
    }
  }

  // What a command exchange sends: each field is the latest nonzero value staged for the node at an
  // arming point since its last delivered or cancelled exchange, whatever happened to other nodes.
  lemma SentIsLatest(c: Config, evs: seq<Event>, k: nat, n: nat, i: nat)
    requires Run(c, evs) && k < |evs| && FieldOf(c, n, i) && evs[k].Arm? && evs[k].node == n
    requires forall j :: 0 <= j < k ==> Harmless(c, evs, j, n, i)
    ensures Get(WiresAt(c, evs, k + 1).buf, DeviceField(c, n, i)) == Latest(c, evs, k + 1, n, i)
  {
    PendingRefinesLatest(c, evs, k, n, i);
    StepHolds(c, evs, k, n, i);
  }

  // --- longer runs -------------------------------------------------------------------------

  lemma {:induction false} FlightAtPrefix(evs: seq<Event>, more: seq<Event>, k: nat)
    requires k <= |evs|
    ensures FlightAt(evs + more, k) == FlightAt(evs, k)
  {
    if k > 0 { FlightAtPrefix(evs, more, k - 1); }
  }

  lemma {:induction false} WiresAtPrefix(c: Config, evs: seq<Event>, more: seq<Event>, k: nat)
    requires Run(c, evs + more) && Run(c, evs) && k <= |evs|
    ensures WiresAt(c, evs + more, k) == WiresAt(c, evs, k)
  {
    hide NextWires, ConfigOk, Shaped, EventFits, Enabled;
    if k > 0 {
      WiresAtPrefix(c, evs, more, k - 1);
      FlightAtPrefix(evs, more, k - 1);
      FlightStaysOk(c, evs, k - 1);
      assert EventOk(c, evs, k - 1);
    }
  }
}
