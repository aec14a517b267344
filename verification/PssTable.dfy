// The PSS rows of the command table, as an instance of the abstract layout.
module PssTable {
  import opened CommTable
  import opened CommandWindows

  const SYS_PSS: nat := 2
  const PSS_COMM_BLOCKS: nat := 8
  const PSS_PARAM_BLOCKS: nat := 15
  const CS_COMM_BLOCKS: nat := 16
  const CS_COMM_BUF_BLOCKS: nat := 8

  function PssRow(ty: WireType, signed: bool, offset: nat, block: nat, alg: Alg): Row {
    Row(SYS_PSS, ty, signed, 0.0, 1.0, 0.0, offset, block, block, alg)
  }

  // Thirteen switches in block 0.
  function Switches(): (s: seq<Row>)
    ensures |s| == 13 && forall i: nat | i < 13 :: s[i] == PssRow(TypeD, false, i, 0, AlgAN)
  {
    seq(13, i requires 0 <= i < 13 => PssRow(TypeD, false, i, 0, AlgAN))
  }

  // Two temperatures of a block each, then nine limits of a byte each.
  const LIMITS: seq<Row> := [
    PssRow(TypeAP, true, 0, 1, AlgAN), PssRow(TypeAP, true, 0, 2, AlgAN),
    PssRow(TypeA, false, 0, 3, AlgABC), PssRow(TypeA, false, 8, 3, AlgABC),
    PssRow(TypeA, false, 0, 4, AlgAN), PssRow(TypeA, false, 8, 4, AlgABC),
    PssRow(TypeA, false, 0, 5, AlgABC), PssRow(TypeA, false, 8, 5, AlgABC),
    PssRow(TypeA, false, 0, 6, AlgABC), PssRow(TypeA, false, 8, 6, AlgABC),
    PssRow(TypeA, false, 0, 7, AlgAN)]

  function PssCommands(): seq<Row> { Switches() + LIMITS }

  // Bits of a row from the start of the system.
  function Start(r: Row): nat { 16 * r.block + r.offset }

  predicate InOrder(rows: seq<Row>) { forall i: nat, j: nat | i < j < |rows| :: Start(rows[i]) + rows[i].Width() <= Start(rows[j]) }

  lemma OrderedApart(rows: seq<Row>, sys: nat, count: nat)
    requires InOrder(rows) && forall i: nat | i < |rows| :: rows[i].DeviceField().Fits(count)
    ensures DisjointRows(rows, sys, count)
  {
  }

  lemma LimitsInOrder()
    ensures InOrder(LIMITS) && forall i: nat | i < |LIMITS| :: 16 <= Start(LIMITS[i]) && LIMITS[i].DeviceField().Fits(PSS_COMM_BLOCKS)
  {
  }

  // The PSS rows meet what the command windows require of a node.
  lemma PssConfigOk(busAddr: nat)
    ensures ConfigOk(Config(PssCommands(), [Node(busAddr, SYS_PSS, 0, PSS_COMM_BLOCKS, 0, PSS_PARAM_BLOCKS)],
                            CS_COMM_BLOCKS, CS_COMM_BUF_BLOCKS))
  {
    LimitsInOrder();
    var rows := PssCommands();
    hide Switches;
    forall i: nat, j: nat | i < j < |rows| ensures Start(rows[i]) + rows[i].Width() <= Start(rows[j]) {
      if i >= 13 { assert rows[i] == LIMITS[i - 13] && rows[j] == LIMITS[j - 13]; }
    }
    OrderedApart(rows, SYS_PSS, PSS_COMM_BLOCKS);
    var c := Config(rows, [Node(busAddr, SYS_PSS, 0, PSS_COMM_BLOCKS, 0, PSS_PARAM_BLOCKS)], CS_COMM_BLOCKS, CS_COMM_BUF_BLOCKS);
    assert NodeFits(c, 0);
  }
}
