// The command and parameter tables, and the merge that copies nonzero command fields between buffers.
module CommTable {
  import opened Wire
  import opened Bits
  import opened MsgBlock

  datatype WireType = TypeNone | TypeD | TypeA | TypeAP
  datatype Alg = AlgNone | AlgAN | AlgAC | AlgABC | AlgAAC | AlgOther

  const SYS_NONE: nat := 0
  const SYS_CS: nat := 1

  // One table row; block is the block number inside the system, csBlock the one inside CS.
  datatype Row = Row(sysId: nat, ty: WireType, signed: bool, a: real, b: real, c: real,
                     offset: nat, block: nat, csBlock: nat, alg: Alg)
  {
    function Width(): nat {
      match ty
      case TypeD => 1
      case TypeA => 8
      case TypeAP => 16
      case TypeNone => 0
    }

    function DeviceField(): Field { Field(block, offset, Width()) }

    function CsField(): Field { Field(csBlock, offset, Width()) }

    function SourceField(fromCs: bool): Field { if fromCs then CsField() else DeviceField() }
  }

  // --- the merge ---------------------------------------------------------------------------

  // One turn of the merge loop: a nonzero source field overwrites the row's field in dst.
  function OverlayRow(row: Row, sys: nat, fromCs: bool, src: seq<word>, dst: seq<word>): (r: seq<word>)
    ensures |r| == |dst|
  {
    if row.sysId != sys || row.Width() == 0 then dst
    else
      var f := row.SourceField(fromCs);
      match ReadValue(src, f.block, f.offset, f.width)
      case None => dst
      case Some(v) =>
        if v == 0 then dst
        else match WriteValue(dst, row.block, row.offset, row.Width(), v)
          case None => dst
          case Some(written) => written
  }

  function Overlay(rows: seq<Row>, n: nat, sys: nat, fromCs: bool, src: seq<word>, dst: seq<word>): (r: seq<word>)
    requires n <= |rows|
    ensures |r| == |dst|
  {
    if n == 0 then dst else OverlayRow(rows[n - 1], sys, fromCs, src, Overlay(rows, n - 1, sys, fromCs, src, dst))
  }

  method OverlayInPlace(rows: seq<Row>, sys: nat, fromCs: bool, src: array<word>, dst: array<word>)
    requires src != dst
    modifies dst
    ensures dst[..] == Overlay(rows, |rows|, sys, fromCs, src[..], old(dst[..]))
  {
    for i := 0 to |rows|
      invariant dst[..] == Overlay(rows, i, sys, fromCs, src[..], old(dst[..]))
      invariant src[..] == old(src[..])
    {
      var row := rows[i];
      if row.sysId == sys && row.Width() != 0 {
        var f := row.SourceField(fromCs);
        var raw := ReadValue(src[..], f.block, f.offset, f.width);
        if raw.Some? && raw.value != 0 {
          var _ := WriteValueInPlace(dst, row.block, row.offset, row.Width(), raw.value);
        }
      }
    }
  }

  // --- what a usable table is --------------------------------------------------------------

  // The fields of one system fit a window of count blocks and do not meet.
  ghost predicate DisjointRows(rows: seq<Row>, sys: nat, count: nat) {
    && (forall i: nat | i < |rows| && rows[i].sysId == sys :: rows[i].DeviceField().Fits(count))
    && (forall i: nat, j: nat | i < j < |rows| && rows[i].sysId == sys && rows[j].sysId == sys ::
          rows[i].DeviceField().Apart(rows[j].DeviceField()))
  }

  ghost predicate SourcesFit(rows: seq<Row>, sys: nat, fromCs: bool, count: nat) {
    forall i: nat | i < |rows| && rows[i].sysId == sys :: rows[i].SourceField(fromCs).Fits(count)
  }

  // The raw value the source holds for row i.
  function SourceValue(rows: seq<Row>, i: nat, fromCs: bool, src: seq<word>): nat
    requires i < |rows| && rows[i].SourceField(fromCs).Fits(|src|)
  {
    Get(src, rows[i].SourceField(fromCs))
  }

  lemma OverlayRowIsPut(row: Row, sys: nat, fromCs: bool, src: seq<word>, dst: seq<word>)
    requires row.SourceField(fromCs).Fits(|src|) && row.DeviceField().Fits(|dst|)
    ensures Get(src, row.SourceField(fromCs)) < Pow2(row.Width())
    ensures OverlayRow(row, sys, fromCs, src, dst)
         == if row.sysId == sys && Get(src, row.SourceField(fromCs)) != 0
            then Put(dst, row.DeviceField(), Get(src, row.SourceField(fromCs))) else dst
  {
    var v := Get(src, row.SourceField(fromCs));
    ReadIsSlice(src, row.SourceField(fromCs));
    GetBound(src, row.SourceField(fromCs));
    WriteIsSplice(dst, row.DeviceField(), v);
    StoredSmall(row.Width(), v);
  }

  // The merge is a fieldwise overlay: a field takes the source value if that is nonzero, else it is kept.
  lemma {:induction false} OverlayField(rows: seq<Row>, n: nat, sys: nat, fromCs: bool,
                                        src: seq<word>, dst: seq<word>, i: nat)
    requires DisjointRows(rows, sys, |dst|) && SourcesFit(rows, sys, fromCs, |src|)
    requires n <= |rows| && i < |rows| && rows[i].sysId == sys
    ensures var v := SourceValue(rows, i, fromCs, src);
      Get(Overlay(rows, n, sys, fromCs, src, dst), rows[i].DeviceField())
      == if i < n && v != 0 then v else Get(dst, rows[i].DeviceField())
    decreases n
  {
    if n > 0 {
      var row, before := rows[n - 1], Overlay(rows, n - 1, sys, fromCs, src, dst);
      OverlayField(rows, n - 1, sys, fromCs, src, dst, i);
      if row.sysId == sys {
        var v := SourceValue(rows, n - 1, fromCs, src);
        OverlayRowIsPut(row, sys, fromCs, src, before);
        GetOfPut(before, row.DeviceField(), v, rows[i].DeviceField());
        assert i < n - 1 ==> rows[i].DeviceField().Apart(row.DeviceField());
        assert n - 1 < i ==> row.DeviceField().Apart(rows[i].DeviceField());
      }
    }
  }

  // Bit i of block b belongs to row k and the source holds a command for it.
  ghost predicate Supplies(rows: seq<Row>, k: nat, sys: nat, fromCs: bool, src: seq<word>, b: nat, i: nat)
    requires k < |rows| && SourcesFit(rows, sys, fromCs, |src|)
  {
    rows[k].sysId == sys && rows[k].DeviceField().Covers(b, i) && SourceValue(rows, k, fromCs, src) != 0
  }

  lemma OverlayRowBit(rows: seq<Row>, k: nat, sys: nat, fromCs: bool, src: seq<word>, dst: seq<word>, b: nat, i: nat)
    requires k < |rows| && b < |dst|
    requires DisjointRows(rows, sys, |dst|) && SourcesFit(rows, sys, fromCs, |src|)
    ensures Bit(OverlayRow(rows[k], sys, fromCs, src, dst)[b], i)
         == if Supplies(rows, k, sys, fromCs, src, b, i)
            then Bit(SourceValue(rows, k, fromCs, src), i - rows[k].offset) else Bit(dst[b], i)
  {
    if rows[k].sysId == sys {
      OverlayRowIsPut(rows[k], sys, fromCs, src, dst);
      BitOfPut(dst, rows[k].DeviceField(), SourceValue(rows, k, fromCs, src), b, i);
    }
  }

  // Bit by bit: the merge takes the bits of supplied fields and nothing else.
  lemma {:induction false} OverlaySupplied(rows: seq<Row>, n: nat, sys: nat, fromCs: bool,
                                           src: seq<word>, dst: seq<word>, b: nat, i: nat, k: nat)
    requires DisjointRows(rows, sys, |dst|) && SourcesFit(rows, sys, fromCs, |src|)
    requires k < n <= |rows| && b < |dst| && Supplies(rows, k, sys, fromCs, src, b, i)
    ensures Bit(Overlay(rows, n, sys, fromCs, src, dst)[b], i)
         == Bit(SourceValue(rows, k, fromCs, src), i - rows[k].offset)
    decreases n
  {
    OverlayRowBit(rows, n - 1, sys, fromCs, src, Overlay(rows, n - 1, sys, fromCs, src, dst), b, i);
    if k < n - 1 {
      OverlaySupplied(rows, n - 1, sys, fromCs, src, dst, b, i, k);
      if rows[n - 1].sysId == sys {
        assert rows[k].DeviceField().Apart(rows[n - 1].DeviceField());
      }
    }
  }

  lemma {:induction false} OverlayUnsupplied(rows: seq<Row>, n: nat, sys: nat, fromCs: bool,
                                             src: seq<word>, dst: seq<word>, b: nat, i: nat)
    requires DisjointRows(rows, sys, |dst|) && SourcesFit(rows, sys, fromCs, |src|)
    requires n <= |rows| && b < |dst|
    requires forall k: nat | k < n :: !Supplies(rows, k, sys, fromCs, src, b, i)
    ensures Bit(Overlay(rows, n, sys, fromCs, src, dst)[b], i) == Bit(dst[b], i)
    decreases n
  {
    if n > 0 {
      OverlayUnsupplied(rows, n - 1, sys, fromCs, src, dst, b, i);
      OverlayRowBit(rows, n - 1, sys, fromCs, src, Overlay(rows, n - 1, sys, fromCs, src, dst), b, i);
    }
  }

  ghost predicate SameRows(rows: seq<Row>, other: seq<Row>, sys: nat) {
    forall r: Row | r.sysId == sys :: r in rows <==> r in other
  }

  lemma OverlayOrderBit(rows: seq<Row>, other: seq<Row>, sys: nat, fromCs: bool, src: seq<word>, dst: seq<word>,
                        b: nat, i: nat)
    requires DisjointRows(rows, sys, |dst|) && SourcesFit(rows, sys, fromCs, |src|)
    requires DisjointRows(other, sys, |dst|) && SourcesFit(other, sys, fromCs, |src|)
    requires SameRows(rows, other, sys) && b < |dst|
    ensures Bit(Overlay(rows, |rows|, sys, fromCs, src, dst)[b], i)
         == Bit(Overlay(other, |other|, sys, fromCs, src, dst)[b], i)
  {
    if k: nat :| k < |rows| && Supplies(rows, k, sys, fromCs, src, b, i) {
      OverlaySupplied(rows, |rows|, sys, fromCs, src, dst, b, i, k);
      var m := RowIn(rows[k], other);
      OverlaySupplied(other, |other|, sys, fromCs, src, dst, b, i, m);
    } else if m: nat :| m < |other| && Supplies(other, m, sys, fromCs, src, b, i) {
      var k := RowIn(other[m], rows);
      assert Supplies(rows, k, sys, fromCs, src, b, i);
    } else {
      OverlayUnsupplied(rows, |rows|, sys, fromCs, src, dst, b, i);
      OverlayUnsupplied(other, |other|, sys, fromCs, src, dst, b, i);
    }
  }

  // The merge depends on which rows the table holds, not on their order or repetition.
  lemma OverlayOrder(rows: seq<Row>, other: seq<Row>, sys: nat, fromCs: bool, src: seq<word>, dst: seq<word>)
    requires DisjointRows(rows, sys, |dst|) && SourcesFit(rows, sys, fromCs, |src|)
    requires DisjointRows(other, sys, |dst|) && SourcesFit(other, sys, fromCs, |src|)
    requires SameRows(rows, other, sys)
    ensures Overlay(rows, |rows|, sys, fromCs, src, dst) == Overlay(other, |other|, sys, fromCs, src, dst)
  {
    var x, y := Overlay(rows, |rows|, sys, fromCs, src, dst), Overlay(other, |other|, sys, fromCs, src, dst);
    forall b: nat, i: nat | b < |x| && i < 16 ensures Bit(x[b], i) == Bit(y[b], i) {
      OverlayOrderBit(rows, other, sys, fromCs, src, dst, b, i);
    }
    SameBlocks(x, y);
  }

  lemma RowIn(r: Row, rows: seq<Row>) returns (k: nat)
    requires r in rows
    ensures k < |rows| && rows[k] == r
  {
    k :| k < |rows| && rows[k] == r;
  }

  // Merging the same source twice is merging it once.
  lemma OverlayIdempotent(rows: seq<Row>, sys: nat, fromCs: bool, src: seq<word>, dst: seq<word>)
    requires DisjointRows(rows, sys, |dst|) && SourcesFit(rows, sys, fromCs, |src|)
    ensures var once := Overlay(rows, |rows|, sys, fromCs, src, dst);
      Overlay(rows, |rows|, sys, fromCs, src, once) == once
  {
    var once := Overlay(rows, |rows|, sys, fromCs, src, dst);
    var twice := Overlay(rows, |rows|, sys, fromCs, src, once);
    forall b: nat, i: nat | b < |twice| && i < 16 ensures Bit(twice[b], i) == Bit(once[b], i) {
      if k: nat :| k < |rows| && Supplies(rows, k, sys, fromCs, src, b, i) {
        OverlaySupplied(rows, |rows|, sys, fromCs, src, dst, b, i, k);
        OverlaySupplied(rows, |rows|, sys, fromCs, src, once, b, i, k);
      } else {
        OverlayUnsupplied(rows, |rows|, sys, fromCs, src, once, b, i);
      }
    }
    SameBlocks(twice, once);
  }

  // Bits outside every field of the system survive the merge.
  lemma OverlayOutside(rows: seq<Row>, sys: nat, fromCs: bool, src: seq<word>, dst: seq<word>, b: nat, i: nat)
    requires DisjointRows(rows, sys, |dst|) && SourcesFit(rows, sys, fromCs, |src|) && b < |dst|
    requires forall k: nat | k < |rows| && rows[k].sysId == sys :: !rows[k].DeviceField().Covers(b, i)
    ensures Bit(Overlay(rows, |rows|, sys, fromCs, src, dst)[b], i) == Bit(dst[b], i)
  {
    OverlayUnsupplied(rows, |rows|, sys, fromCs, src, dst, b, i);
  }
}
