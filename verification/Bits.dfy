// Bit slices of a natural number: the arithmetic under every wire field.
module Bits {

  function Pow2(n: nat): (p: nat)
    ensures p >= 1
  {
    if n == 0 then 1 else 2 * Pow2(n - 1)
  }

  // Bit i of w, bit 0 being the least significant.
  function Bit(w: nat, i: nat): (b: nat)
    ensures b < 2
    decreases i, w
  {
    if i == 0 then w % 2 else Bit(w / 2, i - 1)
  }

  // The width bits of w that start at bit offset, as a number.
  function Extract(w: nat, offset: nat, width: nat): nat
    decreases width, w
  {
    if width == 0 then 0 else Bit(w, offset) + 2 * Extract(w, offset + 1, width - 1)
  }

  // w with the width bits at offset replaced by the low width bits of v.
  function Insert(w: nat, offset: nat, width: nat, v: nat): nat
    decreases offset + width, w
  {
    if width == 0 then w
    else if offset > 0 then w % 2 + 2 * Insert(w / 2, offset - 1, width, v)
    else v % 2 + 2 * Insert(w / 2, 0, width - 1, v / 2)
  }

  lemma Pow2Values()
    ensures Pow2(0) == 1 && Pow2(1) == 2 && Pow2(2) == 4 && Pow2(7) == 128 && Pow2(8) == 256
    ensures Pow2(15) == 0x8000 && Pow2(16) == 0x10000
  {
    assert Pow2(3) == 8;
    assert Pow2(5) == 32;
    assert Pow2(11) == 2048;
    assert Pow2(13) == 8192;
  }

  // An insertion writes exactly the bits of its slice.
  lemma {:induction false} BitOfInsert(w: nat, offset: nat, width: nat, v: nat, i: nat)
    ensures Bit(Insert(w, offset, width, v), i)
         == if offset <= i < offset + width then Bit(v, i - offset) else Bit(w, i)
    decreases offset + width
  {
    if width == 0 {
    } else if offset > 0 {
      var rest := Insert(w / 2, offset - 1, width, v);
      assert (w % 2 + 2 * rest) / 2 == rest;
      if i > 0 { BitOfInsert(w / 2, offset - 1, width, v, i - 1); }
    } else {
      var rest := Insert(w / 2, 0, width - 1, v / 2);
      assert (v % 2 + 2 * rest) / 2 == rest;
      if i > 0 { BitOfInsert(w / 2, 0, width - 1, v / 2, i - 1); }
    }
  }

  lemma {:induction false} BitOfExtract(w: nat, offset: nat, width: nat, i: nat)
    ensures Bit(Extract(w, offset, width), i) == if i < width then Bit(w, offset + i) else 0
    decreases width
  {
    if width == 0 {
      BitOfZero(i);
    } else {
      var rest := Extract(w, offset + 1, width - 1);
      assert (Bit(w, offset) + 2 * rest) / 2 == rest;
      if i > 0 { BitOfExtract(w, offset + 1, width - 1, i - 1); }
    }
  }

  lemma {:induction false} BitOfZero(i: nat)
    ensures Bit(0, i) == 0
  {
    if i > 0 { BitOfZero(i - 1); }
  }

  lemma {:induction false} ExtractBound(w: nat, offset: nat, width: nat)
    ensures Extract(w, offset, width) < Pow2(width)
    decreases width
  {
    if width > 0 { ExtractBound(w, offset + 1, width - 1); }
  }

  lemma {:induction false} InsertBound(w: nat, offset: nat, width: nat, v: nat, n: nat)
    requires w < Pow2(n) && offset + width <= n
    ensures Insert(w, offset, width, v) < Pow2(n)
    decreases offset + width
  {
    if width == 0 {
    } else if offset > 0 {
      InsertBound(w / 2, offset - 1, width, v, n - 1);
    } else {
      InsertBound(w / 2, 0, width - 1, v / 2, n - 1);
    }
  }

  // Numbers below 2^n with the same n low bits are equal.
  lemma {:induction false} SameBits(u: nat, v: nat, n: nat)
    requires u < Pow2(n) && v < Pow2(n)
    requires forall i: nat | i < n :: Bit(u, i) == Bit(v, i)
    ensures u == v
    decreases n
  {
    if n > 0 {
      assert Bit(u, 0) == Bit(v, 0);
      forall i: nat | i < n - 1 ensures Bit(u / 2, i) == Bit(v / 2, i) {
        assert Bit(u, i + 1) == Bit(v, i + 1);
      }
      SameBits(u / 2, v / 2, n - 1);
    }
  }

  // Slices that do not meet do not disturb each other.
  lemma ExtractOfInsertApart(w: nat, o1: nat, n1: nat, v: nat, o2: nat, n2: nat)
    requires o1 + n1 <= o2 || o2 + n2 <= o1
    ensures Extract(Insert(w, o1, n1, v), o2, n2) == Extract(w, o2, n2)
  {
    var a, b := Extract(Insert(w, o1, n1, v), o2, n2), Extract(w, o2, n2);
    ExtractBound(Insert(w, o1, n1, v), o2, n2);
    ExtractBound(w, o2, n2);
    forall i: nat | i < n2 ensures Bit(a, i) == Bit(b, i) {
      BitOfExtract(Insert(w, o1, n1, v), o2, n2, i);
      BitOfExtract(w, o2, n2, i);
      BitOfInsert(w, o1, n1, v, o2 + i);
    }
    SameBits(a, b, n2);
  }

  // A slice reads back what was inserted.
  lemma ExtractOfInsertSame(w: nat, offset: nat, width: nat, v: nat)
    requires v < Pow2(width)
    ensures Extract(Insert(w, offset, width, v), offset, width) == v
  {
    var a := Extract(Insert(w, offset, width, v), offset, width);
    ExtractBound(Insert(w, offset, width, v), offset, width);
    forall i: nat | i < width ensures Bit(a, i) == Bit(v, i) {
      BitOfExtract(Insert(w, offset, width, v), offset, width, i);
      BitOfInsert(w, offset, width, v, offset + i);
    }
    SameBits(a, v, width);
  }

  // What is left of w once its n low bits are dropped.
  function Drop(w: nat, n: nat): nat
    decreases n, w
  {
    if n == 0 then w else Drop(w / 2, n - 1)
  }

  lemma {:induction false} ExtractShift(w: nat, offset: nat, width: nat)
    ensures Extract(w, offset + 1, width) == Extract(w / 2, offset, width)
    decreases width
  {
    if width > 0 { ExtractShift(w, offset + 1, width - 1); }
  }

  lemma {:induction false} HighSlice(w: nat, offset: nat, width: nat)
    ensures Extract(w, offset, width) == Extract(Drop(w, offset), 0, width)
    decreases offset
  {
    if offset > 0 {
      ExtractShift(w, offset - 1, width);
      HighSlice(w / 2, offset - 1, width);
    }
  }

  // A number is its n low bits plus 2^n times the rest.
  lemma {:induction false} Split(w: nat, n: nat)
    ensures w == Extract(w, 0, n) + Pow2(n) * Drop(w, n)
    decreases n
  {
    if n > 0 {
      ExtractShift(w, 0, n - 1);
      Split(w / 2, n - 1);
    }
  }

  lemma {:induction false} LowInsert(w: nat, n: nat, v: nat)
    requires v < Pow2(n)
    ensures Insert(w, 0, n, v) == v + Pow2(n) * Drop(w, n)
    decreases n
  {
    if n > 0 { LowInsert(w / 2, n - 1, v / 2); }
  }

  // Setting one bit changes the number by the weight of that bit.
  lemma {:induction false} OneBitInsert(w: nat, i: nat, v: nat)
    requires v < 2
    ensures Insert(w, i, 1, v) == w - Bit(w, i) * Pow2(i) + v * Pow2(i)
    decreases i
  {
    if i > 0 { OneBitInsert(w / 2, i - 1, v); }
  }

  lemma LowBits(w: nat, n: nat)
    requires Pow2(n) == 256 || Pow2(n) == 0x10000
    ensures Pow2(n) == 256 ==> Extract(w, 0, n) == w % 256 && Drop(w, n) == w / 256
    ensures Pow2(n) == 0x10000 ==> Extract(w, 0, n) == w % 0x10000 && Drop(w, n) == w / 0x10000
  {
    Split(w, n);
    ExtractBound(w, 0, n);
    QuotientAndRemainder(w, Pow2(n), Extract(w, 0, n), Drop(w, n));
  }

  lemma QuotientAndRemainder(w: nat, p: nat, low: nat, high: nat)
    requires p == 256 || p == 0x10000
    requires low < p && w == low + p * high
    ensures p == 256 ==> low == w % 256 && high == w / 256
    ensures p == 0x10000 ==> low == w % 0x10000 && high == w / 0x10000
  {
    if p == 256 {
      assert w == low + 256 * high;
    } else {
      assert w == low + 0x10000 * high;
    }
  }

  lemma HighByte(w: nat, n: nat)
    requires w < 0x10000 && Pow2(n) == 256
    ensures Extract(w, n, n) == w / 256
  {
    HighSlice(w, n, n);
    LowBits(w, n);
    LowBits(Drop(w, n), n);
  }

  // The slices a block supports besides single bits: its two bytes and the whole word.
  lemma ByteSlices(w: nat, offset: nat, width: nat)
    requires w < 0x10000
    requires (width == 8 && (offset == 0 || offset == 8)) || (width == 16 && offset == 0)
    ensures Extract(w, offset, width) == if width == 16 then w else if offset == 0 then w % 256 else w / 256
  {
    assert Pow2(width) == if width == 16 then 0x10000 else 256 by { Pow2Values(); }
    if offset == 8 { HighByte(w, offset); } else { LowBits(w, width); }
  }

  lemma InsertLowBits(w: nat, n: nat, v: nat)
    requires w < 0x10000 && v < Pow2(n) && (Pow2(n) == 256 || Pow2(n) == 0x10000)
    ensures Insert(w, 0, n, v) == if Pow2(n) == 256 then w - w % 256 + v else v
  {
    var high, p := Drop(w, n), Pow2(n);
    LowBits(w, n);
    assert Insert(w, 0, n, v) == v + p * high by { LowInsert(w, n, v); }
    if p == 256 {
      assert p * high == 256 * high;
    } else {
      assert p * high == 0;
    }
  }

  lemma InsertHighByte(w: nat, n: nat, v: nat)
    requires w < 0x10000 && Pow2(n) == 256 && Pow2(n + n) == 0x10000 && v < 256
    ensures Insert(w, n, n, v) == w % 256 + 256 * v
  {
    var a := Insert(w, n, n, v);
    InsertBound(w, n, n, v, n + n);
    ExtractOfInsertSame(w, n, n, v);
    HighByte(a, n);
    ExtractOfInsertApart(w, n, n, v, 0, n);
    LowBits(a, n);
    LowBits(w, n);
  }

  lemma ByteInserts(w: nat, offset: nat, width: nat, v: nat)
    requires w < 0x10000 && v < Pow2(width)
    requires (width == 8 && (offset == 0 || offset == 8)) || (width == 16 && offset == 0)
    ensures Insert(w, offset, width, v)
         == if width == 16 then v else if offset == 0 then w - w % 256 + v else w % 256 + 256 * v
  {
    assert Pow2(width) == (if width == 16 then 0x10000 else 256) && Pow2(16) == 0x10000 by { Pow2Values(); }
    if offset == 0 {
      InsertLowBits(w, width, v);
    } else {
      InsertHighByte(w, width, v);
    }
  }
}
