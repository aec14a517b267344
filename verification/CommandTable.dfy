// The command table and the nodes of the repository as an instance of the abstract configuration.
module CommandTable {
  import opened CommTable
  import opened Scheduler
  import opened CommandWindows
  import opened PssTable

  const SYS_TCS: nat := 3
  const SYS_TMS: nat := 4
  const SYS_MNS: nat := 5
  const SYS_LS: nat := 6

  // First block of a system's window in the command area of CS, and the number of its blocks.
  function BaseOf(sys: nat): nat {
    if sys == SYS_PSS then 0 else if sys == SYS_TCS then 8 else if sys == SYS_TMS then 11 else if sys == SYS_MNS then 14 else 15
  }

  function BlocksOf(sys: nat): nat {
    if sys == SYS_PSS then PSS_COMM_BLOCKS else if sys == SYS_TCS || sys == SYS_TMS then 3 else 1
  }

  function CommRow(sys: nat, ty: WireType, c: real, offset: nat, block: nat, alg: Alg): Row {
    Row(sys, ty, false, 0.0, 1.0, c, offset, block, BaseOf(sys) + block, alg)
  }

  function Switch(sys: nat, offset: nat): Row { CommRow(sys, TypeD, 0.0, offset, 0, AlgAN) }

  // The first n bits of block 0 of a system.
  function SwitchesOf(sys: nat, n: nat): (s: seq<Row>)
    ensures |s| == n && forall i: nat | i < n :: s[i] == Switch(sys, i)
  {
    seq(n, i requires 0 <= i < n => Switch(sys, i))
  }

  // What follows the switches of each system.
  const TCS_REST: seq<Row> := [CommRow(SYS_TCS, TypeAP, 0.0, 0, 1, AlgAN), CommRow(SYS_TCS, TypeA, 0.0, 0, 2, AlgAN)]

  const TMS_REST: seq<Row> := [
    CommRow(SYS_TMS, TypeA, 0.0, 8, 0, AlgAN), CommRow(SYS_TMS, TypeA, 10.0, 0, 1, AlgAC), CommRow(SYS_TMS, TypeA, 10.0, 8, 1, AlgAC),
    CommRow(SYS_TMS, TypeA, 10.0, 0, 2, AlgAC), CommRow(SYS_TMS, TypeA, 10.0, 8, 2, AlgAC)]

  const MNS_REST: seq<Row> := [CommRow(SYS_MNS, TypeA, 0.0, 8, 0, AlgAN)]

  const LS_REST: seq<Row> := [CommRow(SYS_LS, TypeA, 0.0, 8, 0, AlgAN)]

  function TcsCommands(): seq<Row> { SwitchesOf(SYS_TCS, 11) + TCS_REST }

  function TmsCommands(): seq<Row> { SwitchesOf(SYS_TMS, 3) + TMS_REST }

  function MnsCommands(): seq<Row> { SwitchesOf(SYS_MNS, 3) + MNS_REST }

  function LsCommands(): seq<Row> { SwitchesOf(SYS_LS, 3) + LS_REST }

  function Commands(): seq<Row> { PssCommands() + (TcsCommands() + (TmsCommands() + (MnsCommands() + LsCommands()))) }

  // --- sections of the table ---------------------------------------------------------------

  // Bits of a row from the start of the CS area.
  function CsStart(r: Row): nat { 16 * r.csBlock + r.offset }

  predicate CsBefore(r: Row, q: Row) { CsStart(r) + r.Width() <= CsStart(q) }

  predicate Ascending(rows: seq<Row>) { forall i: nat, j: nat | i < j < |rows| :: CsBefore(rows[i], rows[j]) }

  // The row lies in its system's window, at its own block.
  predicate Placed(r: Row) {
    SYS_PSS <= r.sysId <= SYS_LS && r.csBlock == BaseOf(r.sysId) + r.block && r.DeviceField().Fits(BlocksOf(r.sysId))
  }

  predicate AllPlaced(rows: seq<Row>) { forall i: nat | i < |rows| :: Placed(rows[i]) }

  predicate From(rows: seq<Row>, bit: nat) { forall i: nat | i < |rows| :: bit <= CsStart(rows[i]) }

  predicate Until(rows: seq<Row>, bit: nat) { forall i: nat | i < |rows| :: CsStart(rows[i]) + rows[i].Width() <= bit }

  lemma Join(a: seq<Row>, b: seq<Row>, bit: nat)
    requires Ascending(a) && Ascending(b) && AllPlaced(a) && AllPlaced(b) && Until(a, bit) && From(b, bit)
    ensures Ascending(a + b) && AllPlaced(a + b)
    ensures forall low: nat | low <= bit && From(a, low) :: From(a + b, low)
  {
    var all := a + b;
    forall i: nat, j: nat | i < j < |all| ensures CsBefore(all[i], all[j]) {
      if i < |a| && j >= |a| { assert all[j] == b[j - |a|]; }
    }
  }

  lemma PssSwitches()
    ensures Ascending(Switches()) && AllPlaced(Switches()) && Until(Switches(), 16) && From(Switches(), 0)
  {
    hide Switches;
  }

  lemma LimitsOfPss()
    ensures forall i: nat | i < |LIMITS| :: LIMITS[i].sysId == SYS_PSS && LIMITS[i].csBlock == LIMITS[i].block
  {
  }

  lemma PssLimits()
    ensures Ascending(LIMITS) && AllPlaced(LIMITS) && Until(LIMITS, 128) && From(LIMITS, 16)
  {
    LimitsInOrder();
    LimitsOfPss();
    var rows := LIMITS;
    Aligned(rows);
  }

  // Rows in order in the device are in order in a window that starts the CS area.
  lemma Aligned(rows: seq<Row>)
    requires InOrder(rows)
    requires forall i: nat | i < |rows| ::
      rows[i].sysId == SYS_PSS && rows[i].csBlock == rows[i].block && 16 <= Start(rows[i]) && rows[i].DeviceField().Fits(PSS_COMM_BLOCKS)
    ensures Ascending(rows) && AllPlaced(rows) && Until(rows, 128) && From(rows, 16)
  {
  }

  lemma PssSection()
    ensures Ascending(PssCommands()) && AllPlaced(PssCommands()) && Until(PssCommands(), 128) && From(PssCommands(), 0)
  {
    PssSwitches();
    PssLimits();
    JoinUntil(Switches(), LIMITS, 16, 128);
    hide Ascending, AllPlaced, Until, From, Switches;
    Join(Switches(), LIMITS, 16);
  }

  lemma JoinUntil(a: seq<Row>, b: seq<Row>, middle: nat, bit: nat)
    requires Until(a, middle) && middle <= bit && Until(b, bit)
    ensures Until(a + b, bit)
  {
  }

  // The switches of a system are in order and in place, and so are they with what follows them.
  lemma SwitchSection(sys: nat, n: nat)
    requires SYS_TCS <= sys <= SYS_LS && n <= 16
    ensures var s, low := SwitchesOf(sys, n), 16 * BaseOf(sys);
      Ascending(s) && AllPlaced(s) && Until(s, low + n) && From(s, low)
  {
    hide SwitchesOf;
  }

  lemma Section(sys: nat, n: nat, rest: seq<Row>, bit: nat)
    requires SYS_TCS <= sys <= SYS_LS && n <= 16 && Ascending(rest) && AllPlaced(rest)
    requires From(rest, 16 * BaseOf(sys) + n) && Until(rest, bit) && 16 * BaseOf(sys) + n <= bit
    ensures var all := SwitchesOf(sys, n) + rest;
      Ascending(all) && AllPlaced(all) && Until(all, bit) && From(all, 16 * BaseOf(sys))
  {
    hide Ascending, AllPlaced, Until, From, SwitchesOf;
    var low := 16 * BaseOf(sys);
    SwitchSection(sys, n);
    Join(SwitchesOf(sys, n), rest, low + n);
    JoinUntil(SwitchesOf(sys, n), rest, low + n, bit);
  }

  lemma Rests()
    ensures Ascending(TCS_REST) && AllPlaced(TCS_REST) && From(TCS_REST, 139) && Until(TCS_REST, 176)
    ensures Ascending(MNS_REST) && AllPlaced(MNS_REST) && From(MNS_REST, 227) && Until(MNS_REST, 240)
    ensures Ascending(LS_REST) && AllPlaced(LS_REST) && From(LS_REST, 243) && Until(LS_REST, 256)
  {
  }

  lemma TmsRest()
    ensures Ascending(TMS_REST) && AllPlaced(TMS_REST) && From(TMS_REST, 179) && Until(TMS_REST, 224)
  {
  }

  // All fields of the table are in order and in place, so no two of them meet.
  lemma TableInOrder()
    ensures Ascending(Commands()) && AllPlaced(Commands())
  {
    PssSection();
    Rests();
    TmsRest();
    hide Ascending, AllPlaced, Until, From, PssCommands, SwitchesOf;
    Section(SYS_TCS, 11, TCS_REST, 176);
    Section(SYS_TMS, 3, TMS_REST, 224);
    Section(SYS_MNS, 3, MNS_REST, 240);
    Section(SYS_LS, 3, LS_REST, 256);
    hide TcsCommands, TmsCommands, MnsCommands, LsCommands;
    JoinSections(PssCommands(), TcsCommands(), TmsCommands(), MnsCommands(), LsCommands());
  }

  lemma JoinSections(a: seq<Row>, b: seq<Row>, c: seq<Row>, d: seq<Row>, e: seq<Row>)
    requires Ascending(a) && AllPlaced(a) && Until(a, 128) && Ascending(b) && AllPlaced(b) && From(b, 128) && Until(b, 176)
    requires Ascending(c) && AllPlaced(c) && From(c, 176) && Until(c, 224)
    requires Ascending(d) && AllPlaced(d) && From(d, 224) && Until(d, 240) && Ascending(e) && AllPlaced(e) && From(e, 240)
    ensures Ascending(a + (b + (c + (d + e)))) && AllPlaced(a + (b + (c + (d + e))))
  {
    hide Ascending, AllPlaced, Until, From;
    Join(d, e, 240);
    Join(c, d + e, 224);
    Join(b, c + (d + e), 176);
    Join(a, b + (c + (d + e)), 128);
  }

  // --- the configuration -------------------------------------------------------------------

  // Bus address, system, command window and parameter window of each node.
  const NODES: seq<Node> := [
    Node(2, SYS_PSS, 0, PSS_COMM_BLOCKS, 0, PSS_PARAM_BLOCKS), Node(3, SYS_TCS, 8, 3, 15, 3), Node(4, SYS_TMS, 11, 3, 18, 4),
    Node(5, SYS_MNS, 14, 1, 22, 2), Node(6, SYS_LS, 15, 1, 24, 2)]

  function Shipped(): Config { Config(Commands(), NODES, CS_COMM_BLOCKS, CS_COMM_BUF_BLOCKS) }

  lemma InOrderDisjoint(rows: seq<Row>, sys: nat)
    requires Ascending(rows) && AllPlaced(rows)
    ensures DisjointRows(rows, sys, BlocksOf(sys))
  {
    forall i: nat, j: nat | i < j < |rows| && rows[i].sysId == sys && rows[j].sysId == sys
      ensures rows[i].DeviceField().Apart(rows[j].DeviceField())
    {
      assert CsBefore(rows[i], rows[j]) && Placed(rows[i]) && Placed(rows[j]);
    }
  }

  lemma NodeWindow(k: nat)
    requires k < NODE_COUNT
    ensures NODES[k].comBase == BaseOf(NODES[k].systemId) && NODES[k].comBlocks == BlocksOf(NODES[k].systemId)
  {
  }

  // The table and the nodes of the repository meet what the command windows require.
  lemma ShippedConfigOk()
    ensures ConfigOk(Shipped()) && |Shipped().nodes| == NODE_COUNT
  {
    var c := Shipped();
    TableInOrder();
    hide Ascending, Commands;
    forall k | 0 <= k < |c.nodes| ensures NodeFits(c, k) {
      NodeWindow(k);
      InOrderDisjoint(c.rows, c.nodes[k].systemId);
      hide DisjointRows;
    }
  }

  // Where the rows of a node's system start.
  function FirstRow(k: nat): nat { if k == 0 then 0 else if k == 1 then 24 else if k == 2 then 37 else if k == 3 then 45 else 49 }

  lemma FirstOf(k: nat)
    requires k < NODE_COUNT
    ensures FirstRow(k) < |Commands()|
    ensures Commands()[FirstRow(k)] == if k == 0 then PssRow(TypeD, false, 0, 0, AlgAN) else Switch(NODES[k].systemId, 0)
  {
    hide CommRow, Switches, PssCommands, BaseOf, SwitchesOf, PssRow, Switch;
    PssStarts();
    SectionsStart(PssCommands(), TcsCommands(), TmsCommands(), MnsCommands(), LsCommands());
  }

  lemma PssStarts()
    ensures |PssCommands()| == 24 && PssCommands()[0] == PssRow(TypeD, false, 0, 0, AlgAN)
  {
    assert PssCommands()[0] == Switches()[0];
    hide PssRow, Switches;
  }

  lemma SectionsStart(a: seq<Row>, b: seq<Row>, c: seq<Row>, d: seq<Row>, e: seq<Row>)
    requires |a| == 24 && |b| == 13 && |c| == 8 && |d| == 4 && |e| == 4
    ensures var all := a + (b + (c + (d + e)));
      |all| == 53 && all[0] == a[0] && all[24] == b[0] && all[37] == c[0] && all[45] == d[0] && all[49] == e[0]
  {
  }

  // The base of a node's window is the least block its system's commands have in CS.
  lemma BaseIsLeast(k: nat)
    requires k < NODE_COUNT
    ensures forall i: nat | i < |Commands()| && Commands()[i].sysId == NODES[k].systemId :: NODES[k].comBase <= Commands()[i].csBlock
    ensures FirstRow(k) < |Commands()| && Commands()[FirstRow(k)].sysId == NODES[k].systemId
    ensures Commands()[FirstRow(k)].csBlock == NODES[k].comBase
  {
    TableInOrder();
    NodeWindow(k);
    FirstOf(k);
    hide Commands, Ascending;
  }
}
