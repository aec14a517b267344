// The wire codec: quantisation of physical values to wire codes and back, over the reals.
module Codec {
  import opened Wire
  import opened Bits
  import opened CommTable

  datatype Status = Ok | NoContext | IdOutOfRange | DirectionMismatch | SystemMismatch | NullBuffer
                  | BadType | BadLayout | BufferTooSmall | ValueOutOfRange

  datatype Prepared = Code(raw: int) | Refused(status: Status)

  // --- wire codes --------------------------------------------------------------------------

  function WireMin(row: Row): int
    requires row.Width() > 0
  {
    if row.signed then 0 - Pow2(row.Width() - 1) else 0
  }

  function WireMax(row: Row): int
    requires row.Width() > 0
  {
    if row.signed then Pow2(row.Width() - 1) - 1 else Pow2(row.Width()) - 1
  }

  predicate InRange(row: Row, r: int)
    requires row.Width() > 0
  {
    WireMin(row) <= r <= WireMax(row)
  }

  function ClampWire(row: Row, v: int): int
    requires row.Width() > 0
  {
    if v < WireMin(row) then WireMin(row) else if v > WireMax(row) then WireMax(row) else v
  }

  // Two's complement: the low bits of a code, and the code of a bit pattern.
  function EncodeToBits(v: int, width: nat): (raw: nat) {
    v % Pow2(width)
  }

  function DecodeRaw(raw: nat, width: nat, signed: bool): int
    requires width > 0
  {
    var clipped: int := raw % Pow2(width);
    if !signed || clipped < Pow2(width - 1) then clipped else clipped - Pow2(width)
  }

  // --- decoding and its error --------------------------------------------------------------

  function DecodeProcessed(row: Row, raw: int): real {
    match row.alg
    case AlgNone => raw as real
    case AlgAN => raw as real
    case AlgAC => raw as real + row.c
    case AlgABC => row.b * raw as real + row.c
    case AlgAAC => row.a * raw as real * raw as real + row.c
    case AlgOther => raw as real
  }

  function Abs(x: real): (r: real)
    ensures r >= 0.0
  {
    if x < 0.0 then -x else x
  }

  function Error(row: Row, x: real, raw: int): real {
    Abs(DecodeProcessed(row, raw) - x)
  }

  // --- candidates --------------------------------------------------------------------------

  function Ceil(x: real): int { -((-x).Floor) }

  // Rounding to nearest, halves away from zero.
  function Llround(x: real): int {
    if x >= 0.0 then (x + 0.5).Floor else -((-x + 0.5).Floor)
  }

  const MAX_CANDIDATES: nat := 12

  function AddCandidate(cs: seq<int>, v: int): (r: seq<int>)
    ensures |cs| <= |r| <= |cs| + 1
  {
    if v in cs then cs else if |cs| < MAX_CANDIDATES then cs + [v] else cs
  }

  function AddQuantCandidates(cs: seq<int>, q: real): (r: seq<int>)
    ensures |cs| <= |r| <= |cs| + 3
  {
    AddCandidate(AddCandidate(AddCandidate(cs, Llround(q)), q.Floor), Ceil(q))
  }

  function Ratio(row: Row, x: real): real
    requires row.a != 0.0
  {
    (x - row.c) / row.a
  }

  // root is the square root the AAC algorithm takes; it matters for no other algorithm.
  predicate RootOk(row: Row, x: real, root: real) {
    row.alg == AlgAAC && row.a != 0.0 && Ratio(row, x) >= 0.0 ==> root >= 0.0 && root * root == Ratio(row, x)
  }

  datatype Candidates = Found(list: seq<int>) | NoneFor(status: Status)

  function CandidatesFor(row: Row, x: real, root: real): Candidates {
    match row.alg
    case AlgNone => Found(AddQuantCandidates([], x))
    case AlgAN => Found(AddQuantCandidates([], x))
    case AlgAC => Found(AddQuantCandidates([], x - row.c))
    case AlgABC =>
      if row.b == 0.0 then NoneFor(ValueOutOfRange) else Found(AddQuantCandidates([], (x - row.c) / row.b))
    case AlgAAC =>
      if row.a == 0.0 || Ratio(row, x) < 0.0 then NoneFor(ValueOutOfRange)
      else Found(AddQuantCandidates(AddQuantCandidates([], root), -root))
    case AlgOther => NoneFor(BadType)
  }

  // The clamped candidate of least error among the first n, the earliest one on ties.
  function BestOf(row: Row, x: real, cs: seq<int>, n: nat): (best: int)
    requires row.Width() > 0 && 0 < n <= |cs|
  {
    var c := ClampWire(row, cs[n - 1]);
    if n == 1 then c
    else
      var b := BestOf(row, x, cs, n - 1);
      if Error(row, x, c) < Error(row, x, b) then c else b
  }

  function PrepareRaw(row: Row, x: real, root: real): Prepared
    requires row.Width() > 0
  {
    match CandidatesFor(row, x, root)
    case NoneFor(s) => Refused(s)
    case Found(cs) => if |cs| == 0 then Refused(ValueOutOfRange) else Code(BestOf(row, x, cs, |cs|))
  }

  // --- the algorithm in place --------------------------------------------------------------

  method AddCandidateInPlace(cs: array<int>, count: nat, v: int) returns (n: nat)
    requires count <= cs.Length == MAX_CANDIDATES
    modifies cs
    ensures n <= cs.Length
    ensures cs[..n] == AddCandidate(old(cs[..count]), v)
  {
    for i := 0 to count
      invariant forall k | 0 <= k < i :: cs[k] != v
    {
      if cs[i] == v { return count; }
    }
    assert v !in cs[..count];
    n := count;
    if count < cs.Length {
      cs[count] := v;
      n := count + 1;
      assert cs[..n] == cs[..count] + [v];
    }
  }

  method AddQuantCandidatesInPlace(cs: array<int>, count: nat, q: real) returns (n: nat)
    requires count <= cs.Length == MAX_CANDIDATES
    modifies cs
    ensures n <= cs.Length
    ensures cs[..n] == AddQuantCandidates(old(cs[..count]), q)
  {
    n := AddCandidateInPlace(cs, count, Llround(q));
    n := AddCandidateInPlace(cs, n, q.Floor);
    n := AddCandidateInPlace(cs, n, Ceil(q));
  }

  method CollectCandidates(row: Row, x: real, root: real, cs: array<int>) returns (n: nat, status: Status)
    requires cs.Length == MAX_CANDIDATES
    modifies cs
    ensures n <= cs.Length
    ensures CandidatesFor(row, x, root) == if status == Ok then Found(cs[..n]) else NoneFor(status)
  {
    hide AddQuantCandidates, Ratio;
    n, status := 0, Ok;
    assert cs[..0] == [];
    match row.alg {
      case AlgNone => n := AddQuantCandidatesInPlace(cs, n, x);
      case AlgAN => n := AddQuantCandidatesInPlace(cs, n, x);
      case AlgAC => n := AddQuantCandidatesInPlace(cs, n, x - row.c);
      case AlgABC =>
        if row.b == 0.0 { return n, ValueOutOfRange; }
        n := AddQuantCandidatesInPlace(cs, n, (x - row.c) / row.b);
      case AlgAAC =>
        if row.a == 0.0 || Ratio(row, x) < 0.0 { return n, ValueOutOfRange; }
        n := AddQuantCandidatesInPlace(cs, n, root);
        n := AddQuantCandidatesInPlace(cs, n, -root);
      case AlgOther => status := BadType;
    }
  }

  method PickBest(row: Row, x: real, cs: array<int>, n: nat) returns (best: int)
    requires row.Width() > 0 && 0 < n <= cs.Length
    ensures best == BestOf(row, x, cs[..n], n)
  {
    hide Error;
    best := ClampWire(row, cs[0]);
    var bestError := None;
    for i := 0 to n
      invariant i == 0 ==> bestError == None
      invariant i > 0 ==> best == BestOf(row, x, cs[..n], i) && bestError == Some(Error(row, x, best))
    {
      var clamped := ClampWire(row, cs[i]);
      var error := Error(row, x, clamped);
      if bestError == None || error < bestError.value {
        bestError := Some(error);
        best := clamped;
      }
    }
  }

  method PrepareRawValue(row: Row, x: real, root: real) returns (r: Prepared)
    requires row.Width() > 0 && RootOk(row, x, root)
    ensures r == PrepareRaw(row, x, root)
    ensures r.Code? ==> Optimal(row, x, r.raw)
  {
    hide Optimal, CandidatesFor, BestOf;
    var cs := new int[MAX_CANDIDATES];
    var n, status := CollectCandidates(row, x, root, cs);
    if status != Ok { return Refused(status); }
    if n == 0 { return Refused(ValueOutOfRange); }
    var best := PickBest(row, x, cs, n);
    r := Code(best);
    CodeIsOptimal(row, x, root);
  }

  // --- optimality --------------------------------------------------------------------------

  // No code in range decodes nearer to x.
  ghost predicate Optimal(row: Row, x: real, c: int)
    requires row.Width() > 0
  {
    InRange(row, c) && forall v | InRange(row, v) :: Error(row, x, c) <= Error(row, x, v)
  }

  lemma {:induction false} BestIsLeast(row: Row, x: real, cs: seq<int>, n: nat)
    requires row.Width() > 0 && 0 < n <= |cs|
    ensures InRange(row, BestOf(row, x, cs, n))
    ensures forall i | 0 <= i < n :: Error(row, x, BestOf(row, x, cs, n)) <= Error(row, x, ClampWire(row, cs[i]))
    decreases n
  {
    if n > 1 { BestIsLeast(row, x, cs, n - 1); }
  }

  lemma BestBeats(row: Row, x: real, cs: seq<int>, v: int)
    requires row.Width() > 0 && v in cs
    ensures Error(row, x, BestOf(row, x, cs, |cs|)) <= Error(row, x, ClampWire(row, v))
  {
    BestIsLeast(row, x, cs, |cs|);
  }

  lemma CandidatesPresent(cs: seq<int>, q: real)
    requires |cs| <= 3
    ensures var r := AddQuantCandidates(cs, q);
      Llround(q) in r && q.Floor in r && Ceil(q) in r && forall v | v in cs :: v in r
  {
  }

  // Among the codes in range, the clamped floor or the clamped ceiling of q is nearest to q.
  lemma NearestCode(row: Row, q: real, r: int)
    requires row.Width() > 0 && InRange(row, r)
    ensures || Abs(ClampWire(row, q.Floor) as real - q) <= Abs(r as real - q)
            || Abs(ClampWire(row, Ceil(q)) as real - q) <= Abs(r as real - q)
  {
    var lo, hi := q.Floor, Ceil(q);
    assert lo as real <= q < lo as real + 1.0;
    assert hi as real - 1.0 < q <= hi as real;
    if r as real <= q {
      assert r <= lo && r <= ClampWire(row, lo) <= lo;
    } else {
      assert r >= hi && hi <= ClampWire(row, hi) <= r;
    }
  }

  function Times(x: real, y: real): real { x * y }

  lemma TimesFlip(k: real, y: real)
    ensures Abs(Times(k, y)) == Times(Abs(k), Abs(y)) && Times(Abs(k), Abs(y)) >= 0.0
  {
    var p := k * y;
    assert (-k) * y == -p && k * (-y) == -p && (-k) * (-y) == p;
    SignOfProduct(Abs(k), Abs(y));
  }

  lemma SignOfProduct(k: real, y: real)
    requires k >= 0.0 && y >= 0.0
    ensures k * y >= 0.0
  {
  }

  lemma TimesMono(k: real, y: real, z: real)
    requires k >= 0.0 && y <= z
    ensures Times(k, y) <= Times(k, z)
  {
    SignOfProduct(k, z - y);
    assert k * (z - y) == k * z - k * y;
  }

  // Scaling by a constant keeps the order of magnitudes.
  lemma ScaledAbs(k: real, y: real, z: real)
    requires Abs(y) <= Abs(z)
    ensures Abs(Times(k, y)) <= Abs(Times(k, z))
  {
    hide Times;
    TimesFlip(k, y);
    TimesFlip(k, z);
    TimesMono(Abs(k), Abs(y), Abs(z));
  }

  // The slope and the ideal real-valued code of the affine algorithms.
  function Slope(row: Row): real {
    if row.alg == AlgABC then row.b else 1.0
  }

  function Ideal(row: Row, x: real): real
    requires row.alg == AlgABC ==> row.b != 0.0
  {
    match row.alg
    case AlgAC => x - row.c
    case AlgABC => (x - row.c) / row.b
    case _ => x
  }

  predicate Affine(row: Row) {
    row.alg == AlgNone || row.alg == AlgAN || row.alg == AlgAC || (row.alg == AlgABC && row.b != 0.0)
  }

  lemma AffineError(row: Row, x: real, r: int)
    requires Affine(row)
    ensures Error(row, x, r) == Abs(Times(Slope(row), r as real - Ideal(row, x)))
  {
    if row.alg == AlgABC {
      var q := (x - row.c) / row.b;
      assert row.b * q == x - row.c;
      assert row.b * (r as real - q) == row.b * r as real - row.b * q;
    }
  }

  lemma AffineBetter(row: Row, x: real, c: int, r: int)
    requires Affine(row) && Abs(c as real - Ideal(row, x)) <= Abs(r as real - Ideal(row, x))
    ensures Error(row, x, c) <= Error(row, x, r)
  {
    hide Error, Slope, Ideal, Times, Abs;
    AffineError(row, x, r);
    AffineError(row, x, c);
    ScaledAbs(Slope(row), c as real - Ideal(row, x), r as real - Ideal(row, x));
  }

  lemma AffineNear(row: Row, x: real, r: int) returns (near: int)
    requires row.Width() > 0 && Affine(row) && InRange(row, r)
    ensures near == Ideal(row, x).Floor || near == Ceil(Ideal(row, x))
    ensures Error(row, x, ClampWire(row, near)) <= Error(row, x, r)
  {
    var q := Ideal(row, x);
    NearestCode(row, q, r);
    near := if Abs(ClampWire(row, q.Floor) as real - q) <= Abs(r as real - q) then q.Floor else Ceil(q);
    AffineBetter(row, x, ClampWire(row, near), r);
  }

  lemma AffineOptimal(row: Row, x: real, root: real, r: int)
    requires row.Width() > 0 && Affine(row) && InRange(row, r)
    ensures var p := PrepareRaw(row, x, root);
      p.Code? && InRange(row, p.raw) && Error(row, x, p.raw) <= Error(row, x, r)
  {
    var cs := AddQuantCandidates([], Ideal(row, x));
    assert CandidatesFor(row, x, root) == Found(cs);
    CandidatesPresent([], Ideal(row, x));
    BestIsLeast(row, x, cs, |cs|);
    var near := AffineNear(row, x, r);
    BestBeats(row, x, cs, near);
  }

  function Gap(r: real, s: real): real { Times(r, r) - Times(s, s) }

  // A square that lies between two others is nearer to each than they are to one another.
  lemma SquareCloser(s: real, near: real, far: real)
    requires s >= 0.0
    requires (Abs(far) <= Abs(near) <= s) || (s <= Abs(near) <= Abs(far))
    ensures Abs(Gap(near, s)) <= Abs(Gap(far, s))
  {
    hide Times;
    SquareOfAbs(near);
    SquareOfAbs(far);
    if Abs(far) <= s {
      SquareMono(Abs(far), Abs(near));
      SquareMono(Abs(near), s);
    } else {
      SquareMono(s, Abs(near));
      SquareMono(Abs(near), Abs(far));
    }
  }

  lemma SquareOfAbs(y: real)
    ensures Times(Abs(y), Abs(y)) == Times(y, y)
  {
  }

  lemma TimesCommutes(y: real, z: real)
    ensures Times(y, z) == Times(z, y)
  {
  }

  lemma SquareMono(y: real, z: real)
    requires 0.0 <= y <= z
    ensures Times(y, y) <= Times(z, z)
  {
    hide Times;
    TimesMono(y, y, z);
    TimesMono(z, y, z);
    TimesCommutes(y, z);
  }

  // A candidate whose square is at least as near to s*s as the square of r.
  predicate SquareCandidate(near: int, s: real) {
    near == s.Floor || near == Ceil(s) || near == (-s).Floor || near == Ceil(-s)
  }

  lemma NearestSquare(row: Row, s: real, r: int) returns (near: int)
    requires row.Width() > 0 && InRange(row, r) && s >= 0.0
    ensures SquareCandidate(near, s)
    ensures var c := ClampWire(row, near) as real;
      (Abs(r as real) <= Abs(c) <= s) || (s <= Abs(c) <= Abs(r as real))
  {
    if r >= 0 {
      near := NearestToRoot(row, s, r);
    } else {
      near := NearestToNegativeRoot(row, s, r);
    }
  }

  lemma NearestToRoot(row: Row, s: real, r: int) returns (near: int)
    requires row.Width() > 0 && 0 <= r <= WireMax(row) && s >= 0.0
    ensures near == s.Floor || near == Ceil(s)
    ensures var c := ClampWire(row, near) as real; (r as real <= c <= s) || (s <= c <= r as real)
  {
    assert WireMin(row) <= 0;
    near := if r as real <= s then s.Floor else Ceil(s);
    assert r as real <= s ==> r <= s.Floor;
  }

  lemma NearestToNegativeRoot(row: Row, s: real, r: int) returns (near: int)
    requires row.Width() > 0 && WireMin(row) <= r < 0 && s >= 0.0
    ensures near == (-s).Floor || near == Ceil(-s)
    ensures var c := ClampWire(row, near) as real; (-s <= c <= r as real) || (r as real <= c <= -s)
    ensures ClampWire(row, near) <= 0
  {
    assert WireMax(row) >= 0;
    near := if r as real <= -s then (-s).Floor else Ceil(-s);
    assert r as real <= -s ==> r <= (-s).Floor;
  }

  lemma SquareError(row: Row, x: real, s: real, r: int)
    requires row.alg == AlgAAC && row.a != 0.0 && s * s == Ratio(row, x)
    ensures Error(row, x, r) == Abs(Times(row.a, Gap(r as real, s)))
  {
    var q, sq := Ratio(row, x), r as real * r as real;
    assert row.a * q == x - row.c;
    assert row.a * (sq - q) == row.a * sq - row.a * q;
    assert row.a * r as real * r as real == row.a * sq;
  }

  lemma SquareBetter(row: Row, x: real, s: real, c: int, r: int)
    requires row.alg == AlgAAC && row.a != 0.0 && s >= 0.0 && s * s == Ratio(row, x)
    requires (Abs(r as real) <= Abs(c as real) <= s) || (s <= Abs(c as real) <= Abs(r as real))
    ensures Error(row, x, c) <= Error(row, x, r)
  {
    hide Error, Ratio, Times, Gap, Abs;
    SquareError(row, x, s, r);
    SquareError(row, x, s, c);
    SquareCloser(s, c as real, r as real);
    ScaledAbs(row.a, Gap(c as real, s), Gap(r as real, s));
  }

  lemma SquareNear(row: Row, x: real, s: real, r: int) returns (near: int)
    requires row.Width() > 0 && row.alg == AlgAAC && row.a != 0.0 && InRange(row, r)
    requires s >= 0.0 && s * s == Ratio(row, x)
    ensures SquareCandidate(near, s)
    ensures Error(row, x, ClampWire(row, near)) <= Error(row, x, r)
  {
    near := NearestSquare(row, s, r);
    SquareBetter(row, x, s, ClampWire(row, near), r);
  }

  lemma SquareOptimal(row: Row, x: real, root: real, r: int)
    requires row.Width() > 0 && row.alg == AlgAAC && row.a != 0.0 && Ratio(row, x) >= 0.0
    requires RootOk(row, x, root) && InRange(row, r)
    ensures var p := PrepareRaw(row, x, root);
      p.Code? && InRange(row, p.raw) && Error(row, x, p.raw) <= Error(row, x, r)
  {
    var some := AddQuantCandidates([], root);
    var cs := AddQuantCandidates(some, -root);
    assert CandidatesFor(row, x, root) == Found(cs);
    CandidatesPresent([], root);
    CandidatesPresent(some, -root);
    BestIsLeast(row, x, cs, |cs|);
    var near := SquareNear(row, x, root, r);
    BestBeats(row, x, cs, near);
  }

  predicate Accepts(row: Row, x: real) {
    match row.alg
    case AlgOther => false
    case AlgABC => row.b != 0.0
    case AlgAAC => row.a != 0.0 && Ratio(row, x) >= 0.0
    case _ => true
  }

  // A code is produced exactly for the accepted inputs.
  lemma CodeIffAccepted(row: Row, x: real, root: real)
    requires row.Width() > 0
    ensures PrepareRaw(row, x, root).Code? <==> Accepts(row, x)
    ensures PrepareRaw(row, x, root).Refused? ==>
      PrepareRaw(row, x, root).status == if row.alg == AlgOther then BadType else ValueOutOfRange
  {
    if Affine(row) { CandidatesPresent([], Ideal(row, x)); }
    CandidatesPresent([], root);
  }

  // The chosen code minimises the decode error over the whole wire range, not only over the candidates.
  lemma CodeIsOptimal(row: Row, x: real, root: real)
    requires row.Width() > 0 && RootOk(row, x, root) && PrepareRaw(row, x, root).Code?
    ensures Optimal(row, x, PrepareRaw(row, x, root).raw)
  {
    CodeIffAccepted(row, x, root);
    var c := PrepareRaw(row, x, root).raw;
    assert InRange(row, 0) by { assert WireMin(row) <= 0 <= WireMax(row); }
    forall r | InRange(row, r) ensures InRange(row, c) && Error(row, x, c) <= Error(row, x, r) {
      if row.alg == AlgAAC { SquareOptimal(row, x, root, r); } else { AffineOptimal(row, x, root, r); }
    }
  }

  // Half a quantisation step bounds the error of an affine code unless the input saturates.
  lemma HalfStepError(row: Row, x: real, root: real)
    requires row.Width() > 0 && Affine(row)
    requires WireMin(row) as real <= Ideal(row, x) <= WireMax(row) as real
    ensures var p := PrepareRaw(row, x, root);
      p.Code? && Error(row, x, p.raw) <= Abs(Slope(row)) / 2.0
  {
    var q := Ideal(row, x);
    var n := (q + 0.5).Floor;
    AffineOptimal(row, x, root, n);
    assert Abs(n as real - q) <= Abs(0.5);
    HalfStep(row, x, n);
  }

  lemma HalfStep(row: Row, x: real, c: int)
    requires Affine(row) && Abs(c as real - Ideal(row, x)) <= Abs(0.5)
    ensures Error(row, x, c) <= Abs(Slope(row)) / 2.0
  {
    assert Abs(Times(Slope(row), 0.5)) == Abs(Slope(row)) / 2.0;
    hide Error, Slope, Ideal, Times, Abs;
    AffineError(row, x, c);
    ScaledAbs(Slope(row), c as real - Ideal(row, x), 0.5);
  }

  // --- round trips -------------------------------------------------------------------------

  lemma DecodedAccepted(row: Row, r: int)
    requires row.alg == AlgAAC && row.a != 0.0
    ensures Ratio(row, DecodeProcessed(row, r)) == r as real * r as real >= 0.0
  {
    var sq := r as real * r as real;
    assert DecodeProcessed(row, r) - row.c == row.a * sq;
    assert row.a * sq / row.a == sq;
    SignOfProduct(Abs(r as real), Abs(r as real));
    SquareOfAbs(r as real);
  }

  // Encoding the decoded value of any code in range decodes to that same value.
  lemma DecodeEncodeDecode(row: Row, r: int, root: real)
    requires row.Width() > 0 && InRange(row, r)
    requires row.alg != AlgOther && (row.alg == AlgABC ==> row.b != 0.0) && (row.alg == AlgAAC ==> row.a != 0.0)
    requires RootOk(row, DecodeProcessed(row, r), root)
    ensures var p := PrepareRaw(row, DecodeProcessed(row, r), root);
      p.Code? && InRange(row, p.raw) && DecodeProcessed(row, p.raw) == DecodeProcessed(row, r)
  {
    var x := DecodeProcessed(row, r);
    if row.alg == AlgAAC { DecodedAccepted(row, r); }
    CodeIffAccepted(row, x, root);
    CodeIsOptimal(row, x, root);
    assert Error(row, x, r) == 0.0;
  }

  // For the affine algorithms the code itself comes back.
  lemma EncodeDecoded(row: Row, r: int, root: real)
    requires row.Width() > 0 && InRange(row, r) && Affine(row)
    ensures PrepareRaw(row, DecodeProcessed(row, r), root) == Code(r)
  {
    DecodeEncodeDecode(row, r, root);
    DecodeInjective(row, PrepareRaw(row, DecodeProcessed(row, r), root).raw, r);
  }

  lemma DecodeInjective(row: Row, p: int, r: int)
    requires Affine(row) && DecodeProcessed(row, p) == DecodeProcessed(row, r)
    ensures p == r
  {
    if row.alg == AlgABC {
      ZeroProduct(row.b, p as real - r as real);
    }
  }

  lemma ZeroProduct(k: real, y: real)
    ensures k * y == 0.0 ==> k == 0.0 || y == 0.0
  {
  }

  // For AAC the code comes back up to sign; the most negative signed code, which has no opposite
  // in range, comes back itself, so only the candidate from the negative root can have supplied it.
  lemma EncodeDecodedSquare(row: Row, r: int, root: real)
    requires row.Width() > 0 && InRange(row, r) && row.alg == AlgAAC && row.a != 0.0
    requires RootOk(row, DecodeProcessed(row, r), root)
    ensures var p := PrepareRaw(row, DecodeProcessed(row, r), root);
      p.Code? && (p.raw == r || p.raw == -r) && (row.signed && r == WireMin(row) ==> p.raw == r)
  {
    DecodeEncodeDecode(row, r, root);
    SquareInjective(row, PrepareRaw(row, DecodeProcessed(row, r), root).raw, r);
  }

  lemma SquareInjective(row: Row, p: int, r: int)
    requires row.alg == AlgAAC && row.a != 0.0 && DecodeProcessed(row, p) == DecodeProcessed(row, r)
    ensures p == r || p == -r
  {
    var u, v := p as real, r as real;
    assert row.a * u * u == row.a * (u * u) && row.a * v * v == row.a * (v * v);
    assert row.a * (u * u - v * v) == row.a * (u * u) - row.a * (v * v);
    ZeroProduct(row.a, u * u - v * v);
    assert (u - v) * (u + v) == u * u - v * v;
    ZeroProduct(u - v, u + v);
  }

  // Without the negative root the most negative signed code could not be reached.
  lemma PositiveRootMissesMinimum(row: Row, x: real, root: real, v: int)
    requires row.Width() > 0 && row.signed && root >= 0.0 && v in AddQuantCandidates([], root)
    ensures ClampWire(row, v) >= 0
  {
    CandidatesPresent([], root);
  }

  // Two's complement is a bijection between the codes in range and the bit patterns of the width.
  lemma BitsRoundTrip(row: Row, v: int)
    requires row.Width() > 0 && InRange(row, v)
    ensures EncodeToBits(v, row.Width()) < Pow2(row.Width())
    ensures DecodeRaw(EncodeToBits(v, row.Width()), row.Width(), row.signed) == v
  {
    var m := Pow2(row.Width());
    assert m == 2 * Pow2(row.Width() - 1);
    if v >= 0 {
      SmallMod(v, m, 0);
    } else {
      SmallMod(v, m, -1);
      SmallMod(v + m, m, 0);
    }
  }

  lemma PatternRoundTrip(row: Row, raw: nat)
    requires row.Width() > 0 && raw < Pow2(row.Width())
    ensures InRange(row, DecodeRaw(raw, row.Width(), row.signed))
    ensures EncodeToBits(DecodeRaw(raw, row.Width(), row.signed), row.Width()) == raw
  {
    var m := Pow2(row.Width());
    assert m == 2 * Pow2(row.Width() - 1);
    SmallMod(raw, m, 0);
    var v := DecodeRaw(raw, row.Width(), row.signed);
    if v != raw { SmallMod(v, m, -1); }
  }

  lemma SmallMod(v: int, m: nat, q: int)
    requires m > 0 && m * q <= v < m * q + m
    ensures v % m == v - m * q
  {
    assert v == m * (v / m) + v % m;
    NoSmallMultiple(m, v / m - q);
  }

  lemma NoSmallMultiple(m: nat, d: int)
    ensures d == 0 || m * d >= m || m * d + m <= 0
  {
    if d >= 1 {
      assert m * (d - 1) >= 0;
    } else if d <= -1 {
      assert m * (-d - 1) >= 0;
    }
  }
}
