// The 16-bit frame header: parity:1, addr:5, flag:2, marker:3, nblocks:5, least significant first.
module MsgHeader {
  import opened Wire
  import opened Bits

  datatype Header = Header(parity: nat, addr: nat, flag: nat, marker: nat, nblocks: nat)

  function PopCount(w: nat, n: nat): nat
    decreases n, w
  {
    if n == 0 then 0 else w % 2 + PopCount(w / 2, n - 1)
  }

  // A header with its parity bit cleared.
  function Bare(raw: nat): nat { raw - raw % 2 }

  // Parity of the header with its own parity bit taken as 0.
  function CalcParity(raw: nat): (p: nat)
    ensures p < 2
  {
    PopCount(Bare(raw), 16) % 2
  }

  function Pack(p: nat, a: nat, f: nat, m: nat, n: nat): nat {
    p + 2 * a + 64 * f + 256 * m + 2048 * n
  }

  // Each argument is narrowed to the width of its bit field.
  function Make(addr: nat, flag: nat, marker: nat, nblocks: nat): (r: word) {
    var a, f, m, n := addr % 32, flag % 4, marker % 8, nblocks % 32;
    Pack(CalcParity(Pack(0, a, f, m, n)), a, f, m, n)
  }

  predicate ParityOk(raw: word) {
    raw % 2 == CalcParity(raw)
  }

  function Parse(raw: word): Option<Header> {
    if !ParityOk(raw) then None
    else Some(Header(raw % 2, raw / 2 % 32, raw / 64 % 4, raw / 256 % 8, raw / 2048))
  }

  function WriteHeaderByte(raw: word, index: nat, v: byte): word
    requires index < 2
  {
    if index == 0 then raw - raw % 256 + v else raw % 256 + 256 * v
  }

  lemma LowByteWritten(raw: word, v: byte)
    ensures WriteHeaderByte(raw, 0, v) % 256 == v
  {
    assert raw - raw % 256 == 256 * (raw / 256);
  }

  predicate FieldsFit(p: nat, a: nat, f: nat, m: nat, n: nat) {
    p < 2 && a < 32 && f < 4 && m < 8 && n < 32
  }

  lemma Unpack(p: nat, a: nat, f: nat, m: nat, n: nat)
    requires FieldsFit(p, a, f, m, n)
    ensures var raw := Pack(p, a, f, m, n);
      raw % 2 == p && raw / 2 % 32 == a && raw / 64 % 4 == f && raw / 256 % 8 == m && raw / 2048 == n
    ensures Bare(Pack(p, a, f, m, n)) == Pack(0, a, f, m, n) < 0x10000
  {
    var raw := Pack(p, a, f, m, n);
    assert raw / 2 == a + 32 * (f + 4 * m + 32 * n);
    assert raw / 64 == f + 4 * (m + 8 * n);
    assert raw / 256 == m + 8 * n;
    assert raw / 2048 == n;
  }

  lemma Repack(raw: word)
    ensures FieldsFit(raw % 2, raw / 2 % 32, raw / 64 % 4, raw / 256 % 8, raw / 2048)
    ensures raw == Pack(raw % 2, raw / 2 % 32, raw / 64 % 4, raw / 256 % 8, raw / 2048)
  {
    var h := raw / 2;
    assert raw / 64 == h / 32;
    assert h / 32 / 4 == raw / 256;
    assert raw / 256 / 8 == raw / 2048;
  }

  // A header that was made parses back to its fields, narrowed to their bit widths.
  lemma ParseOfMake(addr: nat, flag: nat, marker: nat, nblocks: nat)
    ensures var raw := Make(addr, flag, marker, nblocks);
      Parse(raw) == Some(Header(raw % 2, addr % 32, flag % 4, marker % 8, nblocks % 32))
  {
    hide Parse, CalcParity, Pack;
    var a, f, m, n := addr % 32, flag % 4, marker % 8, nblocks % 32;
    ParsePacked(CalcParity(Pack(0, a, f, m, n)), a, f, m, n);
    Unpack(CalcParity(Pack(0, a, f, m, n)), a, f, m, n);
  }

  lemma ParsePacked(p: nat, a: nat, f: nat, m: nat, n: nat)
    requires FieldsFit(p, a, f, m, n) && p == CalcParity(Pack(0, a, f, m, n))
    ensures Pack(p, a, f, m, n) < 0x10000 && Parse(Pack(p, a, f, m, n)) == Some(Header(p, a, f, m, n))
  {
    hide PopCount, Pack, Bare;
    Unpack(0, a, f, m, n);
    Unpack(p, a, f, m, n);
  }

  // Conversely a header that parses is the one made of the parsed fields.
  lemma MakeOfParse(raw: word)
    requires Parse(raw).Some?
    ensures var h := Parse(raw).value; raw == Make(h.addr, h.flag, h.marker, h.nblocks)
  {
    Repack(raw);
    MakeUnpacked(raw, raw % 2, raw / 2 % 32, raw / 64 % 4, raw / 256 % 8, raw / 2048);
  }

  lemma MakeUnpacked(raw: word, p: nat, a: nat, f: nat, m: nat, n: nat)
    requires FieldsFit(p, a, f, m, n) && raw == Pack(p, a, f, m, n) && p == CalcParity(raw)
    ensures raw == Make(a, f, m, n)
  {
    hide CalcParity, Pack, Bare;
    BareParity(raw, p, a, f, m, n);
  }

  lemma BareParity(raw: word, p: nat, a: nat, f: nat, m: nat, n: nat)
    requires FieldsFit(p, a, f, m, n) && raw == Pack(p, a, f, m, n)
    ensures CalcParity(raw) == CalcParity(Pack(0, a, f, m, n))
  {
    hide PopCount, Pack, Bare;
    Unpack(0, a, f, m, n);
    Unpack(p, a, f, m, n);
  }

  lemma {:induction false} PopCountFlip(w: nat, u: nat, i: nat, n: nat)
    requires i < n
    requires forall j: nat :: Bit(u, j) == if j == i then 1 - Bit(w, j) else Bit(w, j)
    ensures PopCount(u, n) == PopCount(w, n) + 1 - 2 * Bit(w, i)
    decreases n
  {
    forall j: nat ensures Bit(u / 2, j) == Bit(u, j + 1) && Bit(w / 2, j) == Bit(w, j + 1) {}
    assert Bit(u, 0) == if i == 0 then 1 - Bit(w, 0) else Bit(w, 0);
    if i > 0 {
      forall j: nat ensures Bit(u / 2, j) == if j == i - 1 then 1 - Bit(w / 2, j) else Bit(w / 2, j) {
        assert Bit(u, j + 1) == if j + 1 == i then 1 - Bit(w, j + 1) else Bit(w, j + 1);
      }
      PopCountFlip(w / 2, u / 2, i - 1, n - 1);
    } else {
      forall j: nat ensures Bit(u / 2, j) == Bit(w / 2, j) {
        assert Bit(u, j + 1) == Bit(w, j + 1);
      }
      PopCountSame(w / 2, u / 2, n - 1);
    }
  }

  lemma {:induction false} PopCountSame(w: nat, u: nat, n: nat)
    requires forall j: nat :: Bit(u, j) == Bit(w, j)
    ensures PopCount(u, n) == PopCount(w, n)
    decreases n
  {
    if n > 0 {
      assert Bit(u, 0) == Bit(w, 0);
      forall j: nat ensures Bit(u / 2, j) == Bit(w / 2, j) {
        assert Bit(u, j + 1) == Bit(w, j + 1);
      }
      PopCountSame(w / 2, u / 2, n - 1);
    }
  }

  predicate DiffersAt(w: nat, u: nat, i: nat, j: nat) {
    Bit(u, j) == if j == i then 1 - Bit(w, j) else Bit(w, j)
  }

  lemma BitsAboveParity(raw: nat, j: nat)
    ensures Bit(Bare(raw), j) == if j == 0 then 0 else Bit(raw, j)
  {
    assert (raw - raw % 2) / 2 == raw / 2;
  }

  // Flipping any one bit of a header that parses yields a header that is rejected.
  lemma SingleBitErrorDetected(raw: word, bad: word, i: nat)
    requires i < 16 && Parse(raw).Some?
    requires forall j: nat :: DiffersAt(raw, bad, i, j)
    ensures Parse(bad) == None
  {
    hide Bit, PopCount;
    var u, w := Bare(bad), Bare(raw);
    forall j: nat ensures Bit(u, j) == if j == 0 then 0 else if j == i then 1 - Bit(w, j) else Bit(w, j) {
      BitsAboveParity(raw, j);
      BitsAboveParity(bad, j);
      assert DiffersAt(raw, bad, i, j);
    }
    BitsAboveParity(raw, 0);
    if i == 0 {
      PopCountSame(w, u, 16);
      assert DiffersAt(raw, bad, 0, 0);
      ParityBit(raw);
      ParityBit(bad);
    } else {
      PopCountFlip(w, u, i, 16);
      assert DiffersAt(raw, bad, i, 0);
      ParityBit(raw);
      ParityBit(bad);
    }
  }

  lemma ParityBit(w: nat)
    ensures Bit(w, 0) == w % 2
  {
  }
}
