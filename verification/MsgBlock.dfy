// 16-bit message blocks: bit fields, bytes, and copies between block arrays.
module MsgBlock {
  import opened Wire
  import opened Bits

  const BLOCK_BITS := 16

  predicate LayoutSupported(width: nat, offset: int) {
    && 0 <= offset < BLOCK_BITS
    && (width == 1 || (width == 8 && (offset == 0 || offset == 8)) || (width == 16 && offset == 0))
  }

  function ReadValue(blocks: seq<word>, block: nat, offset: nat, width: nat): Option<nat> {
    if width == 0 || block >= |blocks| then None
    else
      var w := blocks[block];
      match width
      case 1 => if offset < 16 then Some(Bit(w, offset)) else None
      case 8 => if offset == 0 then Some(w % 256) else if offset == 8 then Some(w / 256) else None
      case 16 => if offset == 0 then Some(w) else None
      case _ => None
  }

  function WriteBit(w: word, i: nat, on: bool): (r: word)
    requires i < 16
  {
    OneBitInsert(w, i, if on then 1 else 0);
    InsertBound16(w, i, 1, if on then 1 else 0);
    var v := if on then 1 else 0;
    w - Bit(w, i) * Pow2(i) + v * Pow2(i)
  }

  function WriteValue(blocks: seq<word>, block: nat, offset: nat, width: nat, raw: nat): (r: Option<seq<word>>)
    ensures r.Some? ==> |r.value| == |blocks|
  {
    if width == 0 || block >= |blocks| then None
    else
      var w := blocks[block];
      match width
      case 1 => if offset < 16 then Some(blocks[block := WriteBit(w, offset, raw != 0)]) else None
      case 8 =>
        if offset == 0 then Some(blocks[block := w - w % 256 + raw % 256])
        else if offset == 8 then Some(blocks[block := w % 256 + 256 * (raw % 256)])
        else None
      case 16 => if offset == 0 then Some(blocks[block := raw % 0x10000]) else None
      case _ => None
  }

  // The bits of raw that a field of the given width stores.
  function Stored(width: nat, raw: nat): nat {
    if width == 1 then (if raw != 0 then 1 else 0) else if width == 8 then raw % 256 else raw % 0x10000
  }

  // A field is a slice of one block.
  datatype Field = Field(block: nat, offset: nat, width: nat) {
    predicate Fits(count: nat) {
      block < count && LayoutSupported(width, offset)
    }

    predicate Apart(other: Field) {
      block != other.block || offset + width <= other.offset || other.offset + other.width <= offset
    }

    predicate Covers(b: nat, bit: nat) {
      b == block && offset <= bit < offset + width
    }
  }

  function Get(blocks: seq<word>, f: Field): nat
    requires f.Fits(|blocks|)
  {
    Extract(blocks[f.block], f.offset, f.width)
  }

  function Put(blocks: seq<word>, f: Field, v: nat): (r: seq<word>)
    requires f.Fits(|blocks|)
    ensures |r| == |blocks|
  {
    InsertBound16(blocks[f.block], f.offset, f.width, v);
    blocks[f.block := Insert(blocks[f.block], f.offset, f.width, v)]
  }

  lemma InsertBound16(w: word, offset: nat, width: nat, v: nat)
    requires offset + width <= 16
    ensures Insert(w, offset, width, v) < 0x10000
  {
    Pow2Values();
    InsertBound(w, offset, width, v, 16);
  }

  lemma StoredBound(width: nat, raw: nat)
    requires width == 1 || width == 8 || width == 16
    ensures Stored(width, raw) < Pow2(width)
  {
    Pow2Values();
  }

  // Reading by cases is reading the slice, and fails exactly when the field does not fit.
  lemma ReadIsSlice(blocks: seq<word>, f: Field)
    ensures ReadValue(blocks, f.block, f.offset, f.width)
         == if f.Fits(|blocks|) then Some(Get(blocks, f)) else None
  {
    if f.Fits(|blocks|) {
      if f.width == 1 {
        assert Extract(blocks[f.block], f.offset, 1) == Bit(blocks[f.block], f.offset) + 2 * Extract(blocks[f.block], f.offset + 1, 0);
      } else {
        ByteSlices(blocks[f.block], f.offset, f.width);
      }
    }
  }

  // Writing by cases is replacing the slice, and fails exactly when the field does not fit.
  lemma WriteIsSplice(blocks: seq<word>, f: Field, raw: nat)
    ensures WriteValue(blocks, f.block, f.offset, f.width, raw)
         == if f.Fits(|blocks|) then Some(Put(blocks, f, Stored(f.width, raw))) else None
  {
    if f.Fits(|blocks|) {
      var v := Stored(f.width, raw);
      StoredBound(f.width, raw);
      if f.width == 1 {
        OneBitInsert(blocks[f.block], f.offset, v);
      } else {
        ByteInserts(blocks[f.block], f.offset, f.width, v);
      }
    }
  }

  lemma GetBound(blocks: seq<word>, f: Field)
    requires f.Fits(|blocks|)
    ensures Get(blocks, f) < Pow2(f.width) <= 0x10000
  {
    Pow2Values();
    ExtractBound(blocks[f.block], f.offset, f.width);
  }

  lemma StoredSmall(width: nat, raw: nat)
    requires (width == 1 || width == 8 || width == 16) && raw < Pow2(width)
    ensures Stored(width, raw) == raw
  {
    Pow2Values();
  }

  // A written field reads back, and a field apart from it is undisturbed.
  lemma GetOfPut(blocks: seq<word>, f: Field, v: nat, g: Field)
    requires f.Fits(|blocks|) && g.Fits(|blocks|) && v < Pow2(f.width)
    ensures Get(Put(blocks, f, v), f) == v
    ensures f.Apart(g) ==> Get(Put(blocks, f, v), g) == Get(blocks, g)
  {
    ExtractOfInsertSame(blocks[f.block], f.offset, f.width, v);
    if f.Apart(g) && f.block == g.block {
      ExtractOfInsertApart(blocks[f.block], f.offset, f.width, v, g.offset, g.width);
    }
  }

  // Block sequences with the same bits are the same sequence.
  lemma SameBlocks(x: seq<word>, y: seq<word>)
    requires |x| == |y|
    requires forall b: nat, i: nat | b < |x| && i < 16 :: Bit(x[b], i) == Bit(y[b], i)
    ensures x == y
  {
    forall b: nat | b < |x| ensures x[b] == y[b] {
      Pow2Values();
      forall i: nat | i < 16 ensures Bit(x[b], i) == Bit(y[b], i) {}
      SameBits(x[b], y[b], 16);
    }
  }

  lemma BitOfPut(blocks: seq<word>, f: Field, v: nat, b: nat, i: nat)
    requires f.Fits(|blocks|) && b < |blocks|
    ensures Bit(Put(blocks, f, v)[b], i)
         == if f.Covers(b, i) then Bit(v, i - f.offset) else Bit(blocks[b], i)
  {
    BitOfInsert(blocks[f.block], f.offset, f.width, v, i);
  }

  // --- bytes -------------------------------------------------------------------------------

  function ReadByte(blocks: seq<word>, i: nat): Option<byte> {
    if i / 2 >= |blocks| then None
    else Some(if i % 2 == 0 then blocks[i / 2] % 256 else blocks[i / 2] / 256)
  }

  function WriteByte(blocks: seq<word>, i: nat, v: byte): (r: seq<word>)
    ensures |r| == |blocks|
  {
    if i / 2 >= |blocks| then blocks
    else if i % 2 == 0 then blocks[i / 2 := blocks[i / 2] - blocks[i / 2] % 256 + v]
    else blocks[i / 2 := blocks[i / 2] % 256 + 256 * v]
  }

  lemma ReadOfWriteByte(blocks: seq<word>, i: nat, v: byte, j: nat)
    ensures ReadByte(WriteByte(blocks, i, v), j) == if i == j && i / 2 < |blocks| then Some(v) else ReadByte(blocks, j)
  {
    var k := i / 2;
    if k < |blocks| {
      var w := blocks[k];
      var low, high := w % 256, w / 256;
      assert w == low + 256 * high;
      if i % 2 == 0 {
        assert w - low + v == v + 256 * high;
      }
      if i != j && i / 2 == j / 2 {
        assert i % 2 != j % 2;
      }
    }
  }

  // Blocks are determined by their bytes.
  lemma SameBytes(x: seq<word>, y: seq<word>, n: nat)
    requires n <= |x| && n <= |y|
    requires forall j: nat | j < 2 * n :: ReadByte(x, j) == ReadByte(y, j)
    ensures x[..n] == y[..n]
  {
    forall b: nat | b < n ensures x[b] == y[b] {
      assert ReadByte(x, 2 * b) == ReadByte(y, 2 * b);
      assert ReadByte(x, 2 * b + 1) == ReadByte(y, 2 * b + 1);
      assert (2 * b) / 2 == b && (2 * b) % 2 == 0 && (2 * b + 1) / 2 == b && (2 * b + 1) % 2 == 1;
    }
  }

  // --- copies ------------------------------------------------------------------------------

  function CopyCount(dstCount: nat, dstOffset: nat, srcCount: nat, srcOffset: nat, n: nat): nat {
    if n == 0 || dstOffset >= dstCount || srcOffset >= srcCount then 0
    else Min(n, Min(dstCount - dstOffset, srcCount - srcOffset))
  }

  function CopyBlocks(dst: seq<word>, dstOffset: nat, src: seq<word>, srcOffset: nat, n: nat): (r: seq<word>)
    ensures |r| == |dst|
  {
    var count := CopyCount(|dst|, dstOffset, |src|, srcOffset, n);
    if count == 0 then dst
    else dst[..dstOffset] + src[srcOffset..srcOffset + count] + dst[dstOffset + count..]
  }

  function ClearBlocks(blocks: seq<word>, offset: nat, n: nat): (r: seq<word>)
    requires offset + n <= |blocks|
    ensures |r| == |blocks|
  {
    blocks[..offset] + seq(n, _ => 0) + blocks[offset + n..]
  }

  lemma CopyBlocksAt(dst: seq<word>, dstOffset: nat, src: seq<word>, srcOffset: nat, n: nat, i: nat)
    requires i < |dst|
    ensures CopyBlocks(dst, dstOffset, src, srcOffset, n)[i]
         == if dstOffset <= i < dstOffset + CopyCount(|dst|, dstOffset, |src|, srcOffset, n)
            then src[srcOffset + (i - dstOffset)] else dst[i]
  {
  }

  // --- in place ----------------------------------------------------------------------------

  method WriteValueInPlace(blocks: array<word>, block: nat, offset: nat, width: nat, raw: nat) returns (ok: bool)
    modifies blocks
    ensures ok == WriteValue(old(blocks[..]), block, offset, width, raw).Some?
    ensures blocks[..] == if ok then WriteValue(old(blocks[..]), block, offset, width, raw).value else old(blocks[..])
  {
    if width == 0 || block >= blocks.Length {
      return false;
    }
    var w := blocks[block];
    if width == 1 {
      if offset >= 16 { return false; }
      w := WriteBit(w, offset, raw != 0);
    } else if width == 8 {
      if offset == 0 {
        w := w - w % 256 + raw % 256;
      } else if offset == 8 {
        w := w % 256 + 256 * (raw % 256);
      } else {
        return false;
      }
    } else if width == 16 {
      if offset != 0 { return false; }
      w := raw % 0x10000;
    } else {
      return false;
    }
    blocks[block] := w;
    return true;
  }

  method WriteByteInPlace(blocks: array<word>, i: nat, v: byte)
    modifies blocks
    ensures blocks[..] == WriteByte(old(blocks[..]), i, v)
  {
    if i / 2 >= blocks.Length { return; }
    var w := blocks[i / 2];
    if i % 2 == 0 {
      w := w - w % 256 + v;
    } else {
      w := w % 256 + 256 * v;
    }
    blocks[i / 2] := w;
  }

  method CopyBlocksInPlace(dst: array<word>, dstOffset: nat, src: array<word>, srcOffset: nat, n: nat)
    requires dst != src
    modifies dst
    ensures dst[..] == CopyBlocks(old(dst[..]), dstOffset, src[..], srcOffset, n)
  {
    if n == 0 || dstOffset >= dst.Length || srcOffset >= src.Length { return; }
    var count := Min(n, Min(dst.Length - dstOffset, src.Length - srcOffset));
    for i := 0 to count
      invariant forall k | 0 <= k < dst.Length ::
        dst[k] == if dstOffset <= k < dstOffset + i then src[srcOffset + (k - dstOffset)] else old(dst[k])
    {
      dst[dstOffset + i] := src[srcOffset + i];
    }
  }

  method ClearBlocksInPlace(blocks: array<word>, offset: nat, n: nat)
    requires offset + n <= blocks.Length
    modifies blocks
    ensures blocks[..] == ClearBlocks(old(blocks[..]), offset, n)
  {
    for i := 0 to n
      invariant forall k | 0 <= k < blocks.Length ::
        blocks[k] == if offset <= k < offset + i then 0 else old(blocks[k])
    {
      blocks[offset + i] := 0;
    }
  }
}
