// What an accepted and placed table guarantees: the disjointness everything else relies on.
module GeneratedLayout {
  import opened MsgBlock
  import opened CommTable
  import opened Generator
  import opened CommandWindows

  // --- rows and their spans ----------------------------------------------------------------

  lemma {:induction false} LocalsSplit(a: seq<BaseRow>, b: seq<BaseRow>, sys: nat)
    ensures Locals(a + b, sys) == Locals(a, sys) + Locals(b, sys)
    decreases |b|
  {
    if |b| == 0 {
      assert a + b == a && Locals(b, sys) == [];
    } else {
      hide *;
      var front, last := b[..|b| - 1], b[|b| - 1];
      LocalsSplit(a, front, sys);
      Associative(a, front, [last]);
      assert b == front + [last];
      LocalsSnoc(a + front, last, sys);
      LocalsSnoc(front, last, sys);
      Associative(Locals(a, sys), Locals(front, sys), [last]);
    }
  }

  lemma Associative<T>(a: seq<T>, b: seq<T>, c: seq<T>)
    ensures (a + b) + c == a + (b + c)
  {
  }

  // The place of row i among its system's rows.
  function LocalIndex(rows: seq<BaseRow>, i: nat): nat
    requires i < |rows|
  {
    |Locals(rows[..i], rows[i].system)|
  }

  lemma LocalAt(rows: seq<BaseRow>, i: nat)
    requires i < |rows| && !rows[i].placeholder
    ensures LocalIndex(rows, i) < |Locals(rows, rows[i].system)|
    ensures Locals(rows, rows[i].system)[LocalIndex(rows, i)] == rows[i]
  {
    var sys := rows[i].system;
    assert rows == (rows[..i] + [rows[i]]) + rows[i + 1..];
    LocalsSplit(rows[..i] + [rows[i]], rows[i + 1..], sys);
    LocalsSnoc(rows[..i], rows[i], sys);
  }

  lemma LocalIndexMoves(rows: seq<BaseRow>, i: nat, j: nat)
    requires i < j < |rows| && !rows[i].placeholder && rows[i].system == rows[j].system
    ensures LocalIndex(rows, i) < LocalIndex(rows, j)
  {
    LocalAt(rows[..j], i);
    assert rows[..j][..i] == rows[..i];
  }

  // The bits of a row inside its system.
  function RowSpan(rows: seq<BaseRow>, i: nat): Interval
    requires i < |rows|
  {
    Span(rows[i], MinOf(rows, rows[i].system))
  }

  lemma SpanAt(rows: seq<BaseRow>, i: nat)
    requires i < |rows| && !rows[i].placeholder
    ensures var s := SystemLocalBits(rows, rows[i].system).spans;
      LocalIndex(rows, i) < |s| && s[LocalIndex(rows, i)] == RowSpan(rows, i)
  {
    LocalAt(rows, i);
    hide Locals, MinBlock, Span;
  }

  // Accepted by the overlap check, two rows of a system do not share a bit.
  lemma SpansClear(rows: seq<BaseRow>, i: nat, j: nat)
    requires i < |rows| && j < |rows| && i != j && rows[i].system == rows[j].system
    requires !rows[i].placeholder && !rows[j].placeholder && SystemClear(rows, rows[i].system)
    ensures Clear(RowSpan(rows, i), RowSpan(rows, j))
  {
    SpanAt(rows, i);
    SpanAt(rows, j);
    if i < j { LocalIndexMoves(rows, i, j); } else { LocalIndexMoves(rows, j, i); }
    hide SystemLocalBits, RowSpan, LocalIndex;
    var s := SystemLocalBits(rows, rows[i].system).spans;
    var a, b := LocalIndex(rows, i), LocalIndex(rows, j);
    assert a < b ==> Clear(s[a], s[b]);
    assert b < a ==> Clear(s[b], s[a]);
  }

  lemma SpanInside(rows: seq<BaseRow>, i: nat)
    requires i < |rows| && !rows[i].placeholder && ValidRow(rows[i])
    ensures 0 <= RowSpan(rows, i).start < RowSpan(rows, i).end <= SystemSize(rows, rows[i].system)
  {
    LocalAt(rows, i);
    SpanAt(rows, i);
    var ls := Locals(rows, rows[i].system);
    assert rows[i] in ls;
    var s := SystemLocalBits(rows, rows[i].system).spans;
    assert s[LocalIndex(rows, i)] in s;
    assert RowSpan(rows, i).end <= MaxEnd(s);
    CeilEnough(MaxEnd(s));
  }

  lemma CeilEnough(bits: nat)
    ensures bits <= CeilBlocks(bits) * 16
  {
  }

  // --- placement ---------------------------------------------------------------------------

  // A table that passed both checks, and the systems it names.
  ghost predicate Accepted(rows: seq<BaseRow>) {
    AllValid(rows) && forall sys :: SystemClear(rows, sys)
  }

  function BaseMap(rows: seq<BaseRow>, systems: seq<nat>): Bases { CsBases(rows, systems, |systems|) }

  function PlacedRows(rows: seq<BaseRow>, systems: seq<nat>): (out: seq<BaseRow>)
    ensures |out| == |rows|
  {
    AssignAll(rows, BaseMap(rows, systems).base)
  }

  predicate Mapped(systems: seq<nat>, sys: nat) { sys in systems && sys != SYS_NONE && sys != SYS_CS }

  function CsSpan(r: BaseRow): Interval { Interval(r.csOffset, r.csOffset + Size(r)) }

  // The CS bits of a row are its local bits shifted by its system's base.
  lemma CsSpanIsShifted(rows: seq<BaseRow>, systems: seq<nat>, i: nat)
    requires i < |rows| && Mapped(systems, rows[i].system)
    ensures rows[i].system in BaseMap(rows, systems).base
    ensures var b := BaseMap(rows, systems).base[rows[i].system];
      CsSpan(PlacedRows(rows, systems)[i]) == Interval(b + RowSpan(rows, i).start, b + RowSpan(rows, i).end)
  {
    BasesAreOk(rows, systems, |systems|);
    assert systems[..|systems|] == systems;
    hide CsBases, MinOf, LocalBit, BasesOk, SystemSize;
  }

  // After placement the fields of all systems other than NONE and CS are pairwise disjoint and lie
  // inside the total.
  lemma PlacementApart(rows: seq<BaseRow>, systems: seq<nat>, i: nat, j: nat)
    requires Accepted(rows) && i < |rows| && j < |rows| && i != j
    requires !rows[i].placeholder && !rows[j].placeholder
    requires Mapped(systems, rows[i].system) && Mapped(systems, rows[j].system)
    ensures Clear(CsSpan(PlacedRows(rows, systems)[i]), CsSpan(PlacedRows(rows, systems)[j]))
    ensures var v := CsSpan(PlacedRows(rows, systems)[i]); 0 <= v.start < v.end <= BaseMap(rows, systems).total
  {
    hide Generator.SystemSize, RowSpan, CsBases, BaseMap, PlacedRows, CsSpan, SystemClear, Aligned, SystemLocalBits, MinOf;
    BaseMapOk(rows, systems);
    CsSpanIsShifted(rows, systems, i);
    CsSpanIsShifted(rows, systems, j);
    SpanInside(rows, i);
    SpanInside(rows, j);
    var b, s, u := BaseMap(rows, systems), rows[i].system, rows[j].system;
    if s == u {
      SpansClear(rows, i, j);
    } else {
      assert WindowsApart(rows, b, s, u);
    }
    assert WindowInside(rows, b, s);
  }

  lemma BaseMapOk(rows: seq<BaseRow>, systems: seq<nat>)
    ensures BasesOk(rows, BaseMap(rows, systems))
  {
    hide BasesOk, CsBases;
    BasesAreOk(rows, systems, |systems|);
  }

  lemma PlaceInBlock(b: nat, r: BaseRow, min: int, base: map<nat, nat>)
    requires Lookup(base, r.system) == b && Aligned(b) && 0 <= r.offset < 16
    ensures var p := Place(base, r, min); p.csBlock == b / 16 + r.block - min && p.csOffset == 16 * p.csBlock + r.offset
  {
  }

  // Each field keeps its bit offset inside its block, and its CS block is its own block, counted from
  // the least block of its system, after the base block of its system.
  lemma PlacementKeepsBits(rows: seq<BaseRow>, systems: seq<nat>, i: nat)
    requires AllValid(rows) && i < |rows| && !rows[i].placeholder && Mapped(systems, rows[i].system)
    ensures rows[i].system in BaseMap(rows, systems).base
    ensures var r, b := PlacedRows(rows, systems)[i], BaseMap(rows, systems).base[rows[i].system];
      && r.csBlock == b / 16 + rows[i].block - MinOf(rows, rows[i].system)
      && r.csOffset == 16 * r.csBlock + rows[i].offset
      && r == rows[i].(csOffset := r.csOffset, csBlock := r.csBlock)
  {
    BasesAreOk(rows, systems, |systems|);
    assert systems[..|systems|] == systems;
    var b := BaseMap(rows, systems);
    assert WindowInside(rows, b, rows[i].system);
    assert ValidRow(rows[i]);
    hide CsBases, MinOf, BasesOk, SystemSize, Aligned;
    PlaceInBlock(b.base[rows[i].system], rows[i], MinOf(rows, rows[i].system), b.base);
  }

  // Where the CS bits of row i start counting: at its system's base if that has a window, else at 0.
  function BaseOf(rows: seq<BaseRow>, systems: seq<nat>, sys: nat): nat { Lookup(BaseMap(rows, systems).base, sys) }

  function Shifted(v: Interval, base: nat): Interval { Interval(v.start + base, v.end + base) }

  // Every row, with a window or not, is placed at its local bits shifted by that base.
  lemma PlacedAt(rows: seq<BaseRow>, systems: seq<nat>, i: nat)
    requires i < |rows|
    ensures CsSpan(PlacedRows(rows, systems)[i]) == Shifted(RowSpan(rows, i), BaseOf(rows, systems, rows[i].system))
  {
    hide CsBases, MinOf, LocalBit;
  }

  // Rows of NONE and CS, and of systems that are not listed, have no window: they count from 0, where the
  // first window starts too.
  lemma UnmappedStartsAtZero(rows: seq<BaseRow>, systems: seq<nat>, sys: nat)
    ensures !Mapped(systems, sys) ==> BaseOf(rows, systems, sys) == 0
    ensures Mapped(systems, sys) ==> sys in BaseMap(rows, systems).base
  {
    BasesAreOk(rows, systems, |systems|);
    assert systems[..|systems|] == systems;
    hide CsBases, BasesOk;
  }

  // A row i without a window and a row j of another system share no CS bit.
  predicate NoClash(rows: seq<BaseRow>, systems: seq<nat>, i: nat, j: nat)
    requires i < |rows| && j < |rows|
  {
    Clear(RowSpan(rows, i), Shifted(RowSpan(rows, j), BaseOf(rows, systems, rows[j].system)))
  }

  predicate Loose(rows: seq<BaseRow>, systems: seq<nat>, i: nat, j: nat)
    requires i < |rows| && j < |rows|
  {
    && !rows[i].placeholder && !rows[j].placeholder
    && !Mapped(systems, rows[i].system) && rows[i].system != rows[j].system
  }

  // The two placed fields are clear of each other exactly if they do not clash.
  lemma UnmappedClearIff(rows: seq<BaseRow>, systems: seq<nat>, i: nat, j: nat)
    requires i < |rows| && j < |rows| && !Mapped(systems, rows[i].system)
    ensures Clear(CsSpan(PlacedRows(rows, systems)[i]), CsSpan(PlacedRows(rows, systems)[j])) <==> NoClash(rows, systems, i, j)
  {
    PlacedAt(rows, systems, i);
    PlacedAt(rows, systems, j);
    UnmappedStartsAtZero(rows, systems, rows[i].system);
    hide PlacedRows, RowSpan, BaseOf, CsSpan;
  }

  predicate PlacedClear(rows: seq<BaseRow>, systems: seq<nat>, i: nat, j: nat)
    requires i < |rows| && j < |rows|
  {
    Clear(CsSpan(PlacedRows(rows, systems)[i]), CsSpan(PlacedRows(rows, systems)[j]))
  }

  // All fields of the table, those without a window included, are pairwise disjoint in the CS area.
  ghost predicate AllPlacedClear(rows: seq<BaseRow>, systems: seq<nat>) {
    forall i: nat, j: nat | i < |rows| && j < |rows| && i != j && !rows[i].placeholder && !rows[j].placeholder ::
      PlacedClear(rows, systems, i, j)
  }

  ghost predicate NoneClash(rows: seq<BaseRow>, systems: seq<nat>) {
    forall i: nat, j: nat | i < |rows| && j < |rows| && Loose(rows, systems, i, j) :: NoClash(rows, systems, i, j)
  }

  // An accepted table is disjoint as a whole exactly if no row without a window clashes with a row of
  // another system.
  lemma DisjointIffNoneClash(rows: seq<BaseRow>, systems: seq<nat>)
    requires Accepted(rows)
    ensures AllPlacedClear(rows, systems) <==> NoneClash(rows, systems)
  {
    hide PlacedRows, RowSpan, BaseOf, CsSpan, NoClash, Accepted;
    if AllPlacedClear(rows, systems) {
      forall i: nat, j: nat | i < |rows| && j < |rows| && Loose(rows, systems, i, j) ensures NoClash(rows, systems, i, j) {
        assert PlacedClear(rows, systems, i, j);
        UnmappedClearIff(rows, systems, i, j);
      }
    }
    if NoneClash(rows, systems) {
      forall i: nat, j: nat | i < |rows| && j < |rows| && i != j && !rows[i].placeholder && !rows[j].placeholder
        ensures PlacedClear(rows, systems, i, j)
      {
        PairClear(rows, systems, i, j);
      }
    }
  }

  lemma PairClear(rows: seq<BaseRow>, systems: seq<nat>, i: nat, j: nat)
    requires Accepted(rows) && NoneClash(rows, systems)
    requires i < |rows| && j < |rows| && i != j && !rows[i].placeholder && !rows[j].placeholder
    ensures PlacedClear(rows, systems, i, j)
  {
    hide PlacedRows, RowSpan, BaseOf, CsSpan, NoClash;
    if rows[i].system == rows[j].system {
      SpansClear(rows, i, j);
      PlacedAt(rows, systems, i);
      PlacedAt(rows, systems, j);
    } else if !Mapped(systems, rows[i].system) {
      assert Loose(rows, systems, i, j);
      UnmappedClearIff(rows, systems, i, j);
    } else if !Mapped(systems, rows[j].system) {
      assert Loose(rows, systems, j, i);
      UnmappedClearIff(rows, systems, j, i);
    } else {
      PlacementApart(rows, systems, i, j);
    }
  }

  // An accepted table in which a row of CS itself overlaps a row of the first system with a window.
  const CLASHING_ROWS: seq<BaseRow> := [
    BaseRow(SYS_CS, TypeD, false, 0, 0, 0, 0), BaseRow(2, TypeD, false, 0, 0, 0, 0)]

  const CLASHING_SYSTEMS: seq<nat> := [SYS_CS, 2]

  lemma OneLocal(sys: nat)
    ensures Locals(CLASHING_ROWS, sys)
      == if sys == SYS_CS then [CLASHING_ROWS[0]] else if sys == 2 then [CLASHING_ROWS[1]] else []
  {
    var r := CLASHING_ROWS;
    assert r[..1] == [r[0]] && r[..1][..0] == [];
    assert Locals([], sys) == [];
    assert Locals(r[..1], sys) == if sys == SYS_CS then [r[0]] else [];
  }

  lemma ClashingSpans(i: nat)
    requires i < 2
    ensures RowSpan(CLASHING_ROWS, i) == Interval(0, 1)
  {
    OneLocal(CLASHING_ROWS[i].system);
    hide Locals;
  }

  lemma ClashingSystemClear(sys: nat)
    ensures SystemClear(CLASHING_ROWS, sys)
  {
    OneLocal(sys);
    hide Locals, MinBlock, Span;
  }

  lemma ClashingBase()
    ensures BaseOf(CLASHING_ROWS, CLASHING_SYSTEMS, 2) == 0
  {
    var r, s := CLASHING_ROWS, CLASHING_SYSTEMS;
    assert CsBases(r, s, 1) == Bases(map[], 0);
    hide SystemLocalBits;
  }

  lemma AcceptedTableClashes()
    ensures Accepted(CLASHING_ROWS) && !AllPlacedClear(CLASHING_ROWS, CLASHING_SYSTEMS)
    ensures CsSpan(PlacedRows(CLASHING_ROWS, CLASHING_SYSTEMS)[0]) == CsSpan(PlacedRows(CLASHING_ROWS, CLASHING_SYSTEMS)[1])
  {
    var r, s := CLASHING_ROWS, CLASHING_SYSTEMS;
    hide SystemClear, Locals, PlacedRows, RowSpan, BaseOf, CsSpan;
    forall sys ensures SystemClear(r, sys) {
      ClashingSystemClear(sys);
    }
    ClashingSpans(0);
    ClashingSpans(1);
    ClashingBase();
    UnmappedStartsAtZero(r, s, SYS_CS);
    PlacedAt(r, s, 0);
    PlacedAt(r, s, 1);
    assert !PlacedClear(r, s, 0, 1);
  }

  // --- the emitted table -------------------------------------------------------------------

  predicate Emitted(t: Row, r: BaseRow) {
    t.sysId == r.system && t.ty == r.ty && t.offset == r.offset && t.block == r.block && t.csBlock == r.csBlock
  }

  // t is the table emitted for the placed rows; gap-filling placeholders belong to no system.
  ghost predicate EmittedTable(t: seq<Row>, rows: seq<BaseRow>, systems: seq<nat>) {
    && |t| == |rows|
    && (forall i :: 0 <= i < |rows| ==> rows[i].placeholder ==> rows[i].system == SYS_NONE)
    && (forall i :: 0 <= i < |rows| ==> Emitted(t[i], PlacedRows(rows, systems)[i]))
  }

  function SystemBlocks(rows: seq<BaseRow>, sys: nat): nat { SystemLocalBits(rows, sys).blocks }

  lemma DeviceFieldFits(t: seq<Row>, rows: seq<BaseRow>, systems: seq<nat>, i: nat)
    requires Accepted(rows) && EmittedTable(t, rows, systems) && i < |rows|
    requires Mapped(systems, rows[i].system) && MinOf(rows, rows[i].system) == 0
    ensures t[i].DeviceField().Fits(SystemBlocks(rows, rows[i].system))
    ensures RowSpan(rows, i) == Interval(16 * t[i].block + t[i].offset, 16 * t[i].block + t[i].offset + t[i].Width())
  {
    hide SystemLocalBits, MinOf, PlacedRows, BaseMap, SystemClear, Generator.SystemSize;
    assert ValidRow(rows[i]) && Emitted(t[i], PlacedRows(rows, systems)[i]);
    PlacementKeepsBits(rows, systems, i);
    SpanInside(rows, i);
    BlocksOfSize(rows, rows[i].system);
    InsideBlocks(t[i], SystemBlocks(rows, rows[i].system));
  }

  lemma BlocksOfSize(rows: seq<BaseRow>, sys: nat)
    ensures Generator.SystemSize(rows, sys) == 16 * SystemBlocks(rows, sys)
  {
    hide SystemLocalBits;
  }

  lemma InsideBlocks(r: Row, n: nat)
    ensures 16 * r.block + r.offset < 16 * n ==> r.block < n
  {
  }

  lemma ApartFromClear(a: Field, b: Field)
    requires Clear(Interval(16 * a.block + a.offset, 16 * a.block + a.offset + a.width),
                   Interval(16 * b.block + b.offset, 16 * b.block + b.offset + b.width))
    ensures a.Apart(b)
  {
  }

  lemma SourceFieldFits(t: seq<Row>, rows: seq<BaseRow>, systems: seq<nat>, i: nat)
    requires Accepted(rows) && EmittedTable(t, rows, systems) && i < |rows| && Mapped(systems, rows[i].system)
    ensures t[i].CsField().Fits(BaseMap(rows, systems).total / 16)
  {
    assert ValidRow(rows[i]) && Emitted(t[i], PlacedRows(rows, systems)[i]);
    PlacementKeepsBits(rows, systems, i);
    BasesAreOk(rows, systems, |systems|);
    CsSpanIsShifted(rows, systems, i);
    SpanInside(rows, i);
    assert WindowInside(rows, BaseMap(rows, systems), rows[i].system);
    hide SystemLocalBits, MinOf, PlacedRows, BaseMap, RowSpan, SystemSize;
  }

  // An accepted layout gives the disjointness that the merges and the codec rely on.
  lemma LayoutIsSound(t: seq<Row>, rows: seq<BaseRow>, systems: seq<nat>, sys: nat)
    requires Accepted(rows) && EmittedTable(t, rows, systems) && Mapped(systems, sys) && MinOf(rows, sys) == 0
    ensures DisjointRows(t, sys, SystemBlocks(rows, sys))
    ensures SourcesFit(t, sys, true, BaseMap(rows, systems).total / 16)
  {
    hide SystemLocalBits, MinOf, BaseMap, PlacedRows, RowSpan, SystemClear, Accepted;
    forall i: nat | i < |t| ensures t[i].sysId == rows[i].system {
      SystemKept(t, rows, systems, i);
    }
    forall i: nat | i < |t| && t[i].sysId == sys
      ensures t[i].DeviceField().Fits(SystemBlocks(rows, sys)) && t[i].CsField().Fits(BaseMap(rows, systems).total / 16)
    {
      DeviceFieldFits(t, rows, systems, i);
      SourceFieldFits(t, rows, systems, i);
    }
    forall i: nat, j: nat | i < j < |t| && t[i].sysId == sys && t[j].sysId == sys
      ensures t[i].DeviceField().Apart(t[j].DeviceField())
    {
      TableRowsApart(t, rows, systems, i, j);
    }
  }

  lemma SystemKept(t: seq<Row>, rows: seq<BaseRow>, systems: seq<nat>, i: nat)
    requires EmittedTable(t, rows, systems) && i < |t|
    ensures t[i].sysId == rows[i].system
  {
    assert Emitted(t[i], PlacedRows(rows, systems)[i]);
    hide CsBases, MinOf, LocalBit;
  }

  lemma TableRowsApart(t: seq<Row>, rows: seq<BaseRow>, systems: seq<nat>, i: nat, j: nat)
    requires Accepted(rows) && EmittedTable(t, rows, systems) && i < j < |rows|
    requires rows[i].system == rows[j].system && Mapped(systems, rows[i].system) && MinOf(rows, rows[i].system) == 0
    ensures t[i].DeviceField().Apart(t[j].DeviceField())
  {
    SpansClear(rows, i, j);
    DeviceFieldFits(t, rows, systems, i);
    DeviceFieldFits(t, rows, systems, j);
    hide RowSpan, SystemLocalBits, MinOf, PlacedRows;
    ApartFromClear(t[i].DeviceField(), t[j].DeviceField());
  }

  // The node of a system: its window starts at its base block and has its number of blocks.
  predicate NodeOfSystem(n: Node, rows: seq<BaseRow>, systems: seq<nat>) {
    && Mapped(systems, n.systemId) && n.systemId in BaseMap(rows, systems).base
    && n.comBase == BaseMap(rows, systems).base[n.systemId] / 16 && n.comBlocks == SystemBlocks(rows, n.systemId)
  }

  // The configuration emitted for an accepted table: one node per system.
  ghost predicate EmittedConfig(c: Config, rows: seq<BaseRow>, systems: seq<nat>) {
    && Accepted(rows) && EmittedTable(c.rows, rows, systems) && c.cmdBlocks == BaseMap(rows, systems).total / 16
    && (forall k :: 0 <= k < |c.nodes| ==> NodeOfSystem(c.nodes[k], rows, systems) && c.nodes[k].comBlocks <= c.bufBlocks)
    && (forall k, l :: 0 <= k < |c.nodes| && 0 <= l < |c.nodes| && k != l ==> c.nodes[k].systemId != c.nodes[l].systemId)
  }

  // A row's CS block is its place in the node's window exactly if the least block of its system is 0.
  lemma WindowPlace(c: Config, rows: seq<BaseRow>, systems: seq<nat>, n: Node, i: nat)
    requires EmittedConfig(c, rows, systems) && NodeOfSystem(n, rows, systems)
    requires i < |rows| && rows[i].system == n.systemId
    ensures c.rows[i].sysId == n.systemId && c.rows[i].csBlock - c.rows[i].block == n.comBase - MinOf(rows, n.systemId)
  {
    assert ValidRow(rows[i]) && Emitted(c.rows[i], PlacedRows(rows, systems)[i]);
    PlacementKeepsBits(rows, systems, i);
    hide BaseMap, MinOf, PlacedRows;
  }

  lemma NodeFitsIff(c: Config, rows: seq<BaseRow>, systems: seq<nat>, k: nat)
    requires EmittedConfig(c, rows, systems) && k < |c.nodes|
    ensures NodeFits(c, k) <==> MinOf(rows, c.nodes[k].systemId) == 0
  {
    var n := c.nodes[k];
    assert NodeOfSystem(n, rows, systems);
    if MinOf(rows, n.systemId) == 0 {
      LayoutIsSound(c.rows, rows, systems, n.systemId);
      BaseMapOk(rows, systems);
      assert WindowInside(rows, BaseMap(rows, systems), n.systemId);
      forall i: nat | i < |c.rows| && c.rows[i].sysId == n.systemId ensures c.rows[i].csBlock == n.comBase + c.rows[i].block {
        SystemKept(c.rows, rows, systems, i);
        WindowPlace(c, rows, systems, n, i);
      }
      hide DisjointRows, SourcesFit, BasesOk, BaseMap, SystemLocalBits, Accepted, EmittedTable, MinOf;
    } else {
      var i := SomeLocal(rows, n.systemId);
      WindowPlace(c, rows, systems, n, i);
      hide DisjointRows, SourcesFit, BaseMap, Accepted, EmittedTable, MinOf;
    }
  }

  lemma SomeLocal(rows: seq<BaseRow>, sys: nat) returns (i: nat)
    requires MinOf(rows, sys) != 0
    ensures i < |rows| && rows[i].system == sys && !rows[i].placeholder
  {
    var ls := Locals(rows, sys);
    assert ls[0] in ls;
    i :| i < |rows| && rows[i] == ls[0];
  }

  lemma NodesAreApart(c: Config, rows: seq<BaseRow>, systems: seq<nat>, k: nat, l: nat)
    requires EmittedConfig(c, rows, systems) && k < |c.nodes| && l < |c.nodes| && k != l
    ensures NodesApart(c.nodes[k], c.nodes[l])
  {
    var b, s, u := BaseMap(rows, systems), c.nodes[k].systemId, c.nodes[l].systemId;
    BaseMapOk(rows, systems);
    assert NodeOfSystem(c.nodes[k], rows, systems) && NodeOfSystem(c.nodes[l], rows, systems);
    assert WindowsApart(rows, b, s, u) && WindowInside(rows, b, s) && WindowInside(rows, b, u);
    BlocksOfSize(rows, s);
    BlocksOfSize(rows, u);
    hide BaseMap, SystemBlocks, Generator.SystemSize, BasesOk, Accepted, EmittedTable;
  }

  // The emitted configuration meets what the command windows and the merges require exactly if every
  // system's blocks are numbered from 0.
  lemma GeneratedConfigOkIff(c: Config, rows: seq<BaseRow>, systems: seq<nat>)
    requires EmittedConfig(c, rows, systems)
    ensures ConfigOk(c) <==> forall k :: 0 <= k < |c.nodes| ==> MinOf(rows, c.nodes[k].systemId) == 0
  {
    hide NodeFits, MinOf, EmittedConfig, NodesApart;
    forall k | 0 <= k < |c.nodes| ensures NodeFits(c, k) <==> MinOf(rows, c.nodes[k].systemId) == 0 {
      NodeFitsIff(c, rows, systems, k);
    }
    forall k, l | 0 <= k < |c.nodes| && 0 <= l < |c.nodes| && k != l ensures NodesApart(c.nodes[k], c.nodes[l]) {
      NodesAreApart(c, rows, systems, k, l);
    }
  }
}
