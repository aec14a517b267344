// Which of several equally good codes is taken.
module Rounding {
  import opened CommTable
  import opened Codec

  // A best candidate that nothing later beats is kept.
  lemma {:induction false} BestStays(row: Row, x: real, cs: seq<int>, m: nat, n: nat)
    requires row.Width() > 0 && 0 < m <= n <= |cs|
    requires forall k | 0 <= k < n :: Error(row, x, BestOf(row, x, cs, m)) <= Error(row, x, ClampWire(row, cs[k]))
    ensures BestOf(row, x, cs, n) == BestOf(row, x, cs, m)
    decreases n
  {
    hide Error, ClampWire;
    if m < n { BestStays(row, x, cs, m, n - 1); }
  }

  lemma ClampInRange(row: Row, v: int)
    requires row.Width() > 0
    ensures InRange(row, ClampWire(row, v)) && (InRange(row, v) ==> ClampWire(row, v) == v)
  {
  }

  lemma RoundedIsNearest(row: Row, q: real, r: int)
    requires row.Width() > 0 && InRange(row, r)
    ensures Abs(ClampWire(row, Llround(q)) as real - q) <= Abs(r as real - q)
  {
    var v := Llround(q);
    assert q - 0.5 <= v as real <= q + 0.5 by { hide WireMin, WireMax; }
    hide WireMin, WireMax, Llround;
    if r < v { assert r as real <= v as real - 1.0; }
    if r > v { assert r as real >= v as real + 1.0; }
  }

  // The affine algorithms round to the nearest code, halves away from zero, and saturate.
  lemma AffineRounds(row: Row, x: real, root: real)
    requires row.Width() > 0 && Affine(row)
    ensures PrepareRaw(row, x, root) == Code(ClampWire(row, Llround(Ideal(row, x))))
  {
    var q := Ideal(row, x);
    var cs := AddQuantCandidates([], q);
    assert CandidatesFor(row, x, root) == Found(cs);
    assert cs[0] == Llround(q);
    hide AddQuantCandidates, Llround, Ideal, Error, WireMin, WireMax;
    forall k | 0 <= k < |cs| ensures Error(row, x, ClampWire(row, cs[0])) <= Error(row, x, ClampWire(row, cs[k])) {
      ClampInRange(row, cs[k]);
      RoundedIsNearest(row, q, ClampWire(row, cs[k]));
      AffineBetter(row, x, ClampWire(row, cs[0]), ClampWire(row, cs[k]));
    }
    hide ClampWire;
    BestStays(row, x, cs, 1, |cs|);
  }

  // --- the square algorithm ----------------------------------------------------------------

  function RootCandidates(root: real): seq<int> { AddQuantCandidates([], root) }

  lemma {:induction false} SamePrefix(row: Row, x: real, cs: seq<int>, ds: seq<int>, n: nat)
    requires row.Width() > 0 && 0 < n <= |cs| && cs <= ds
    ensures BestOf(row, x, ds, n) == BestOf(row, x, cs, n)
  {
    hide Error, ClampWire;
    if n > 1 { SamePrefix(row, x, cs, ds, n - 1); }
  }

  lemma {:induction false} BestIsOne(row: Row, x: real, cs: seq<int>, n: nat) returns (k: nat)
    requires row.Width() > 0 && 0 < n <= |cs|
    ensures k < n && BestOf(row, x, cs, n) == ClampWire(row, cs[k])
    decreases n
  {
    hide Error, ClampWire;
    k := n - 1;
    if n > 1 && BestOf(row, x, cs, n) == BestOf(row, x, cs, n - 1) { k := BestIsOne(row, x, cs, n - 1); }
  }

  lemma RootsAreNatural(row: Row, x: real, s: real)
    requires row.Width() > 0 && s >= 0.0
    ensures |RootCandidates(s)| > 0 && BestOf(row, x, RootCandidates(s), |RootCandidates(s)|) >= 0
  {
    var some := RootCandidates(s);
    CandidatesPresent([], s);
    assert forall k | 0 <= k < |some| :: some[k] >= 0;
    var k := BestIsOne(row, x, some, |some|);
    assert WireMin(row) <= 0 <= WireMax(row);
  }

  // The candidates of the positive root come first.
  lemma RootsFirst(row: Row, x: real, root: real)
    requires row.Width() > 0 && row.alg == AlgAAC && Accepts(row, x) && RootOk(row, x, root)
    ensures var some, cs := RootCandidates(root), AddQuantCandidates(RootCandidates(root), -root);
      && 0 < |some| <= |cs| && PrepareRaw(row, x, root) == Code(BestOf(row, x, cs, |cs|))
      && BestOf(row, x, cs, |some|) == BestOf(row, x, some, |some|) >= 0
  {
    var some := RootCandidates(root);
    var cs := AddQuantCandidates(some, -root);
    assert CandidatesFor(row, x, root) == Found(cs);
    RootsAreNatural(row, x, root);
    assert some <= cs;
    hide BestOf, AddQuantCandidates;
    SamePrefix(row, x, some, cs, |some|);
  }

  lemma RootBeats(row: Row, x: real, root: real, r: int)
    requires row.Width() > 0 && row.alg == AlgAAC && Accepts(row, x) && RootOk(row, x, root) && 0 <= r <= WireMax(row)
    ensures var some := RootCandidates(root); |some| > 0 && Error(row, x, BestOf(row, x, some, |some|)) <= Error(row, x, r)
  {
    var some := RootCandidates(root);
    CandidatesPresent([], root);
    var near := NearestToRoot(row, root, r);
    hide AddQuantCandidates;
    SquareBetter(row, x, root, ClampWire(row, near), r);
    BestBeats(row, x, some, near);
  }

  // A negative code is taken only where every other is worse.
  lemma PositiveFirst(row: Row, x: real, root: real, r: int)
    requires row.Width() > 0 && row.alg == AlgAAC && Accepts(row, x) && RootOk(row, x, root)
    requires PrepareRaw(row, x, root).Code? && PrepareRaw(row, x, root).raw < 0 <= r <= WireMax(row)
    ensures Error(row, x, PrepareRaw(row, x, root).raw) < Error(row, x, r)
  {
    hide Error, ClampWire, BestOf, AddQuantCandidates, Ratio, RootOk, PrepareRaw, RootCandidates;
    var some, cs := RootCandidates(root), AddQuantCandidates(RootCandidates(root), -root);
    RootsFirst(row, x, root);
    RootBeats(row, x, root, r);
    BestIsLeast(row, x, cs, |cs|);
    if Error(row, x, r) <= Error(row, x, BestOf(row, x, cs, |cs|)) { BestStays(row, x, cs, |some|, |cs|); }
  }

  lemma PositiveProduct(y: real, z: real)
    requires y > 0.0 && z > 0.0
    ensures y * z > 0.0
  {
  }

  lemma SquareStrict(y: real, z: real)
    requires 0.0 <= y < z
    ensures Times(y, y) < Times(z, z)
  {
    PositiveProduct(z - y, z + y);
    assert (z - y) * (z + y) == z * z - y * y;
  }

  lemma SquareOrder(y: real, z: real)
    requires y >= 0.0 && z >= 0.0
    ensures y < z <==> Times(y, y) < Times(z, z)
  {
    hide Times;
    if y < z { SquareStrict(y, z); } else if z < y { SquareStrict(z, y); }
  }

  // Of two naturals whose squares are equally far from the square of s, and nearer than that of any other, s
  // rounds to the greater.
  lemma TieRoundsUp(c: int, r: int, s: real)
    requires 0 <= c < r && s >= 0.0 && Abs(Gap(c as real, s)) == Abs(Gap(r as real, s)) <= Abs(Gap((c + 1) as real, s))
    ensures Llround(s) == r
  {
    var x, y, m := c as real, r as real, (c + 1) as real;
    SquareOrder(x, y);
    SquareOrder(x, s);
    SquareOrder(s, y);
    SquareOrder(x, m);
    SquareOrder(m, y);
    SquareOrder(m, s);
    SquareOrder(s, m);
    Halfway(x);
    SquareOrder(x + 0.5, s);
    hide Times;
  }

  lemma Halfway(x: real)
    ensures Times(x + 0.5, x + 0.5) == Times(x, x) + x + 0.25 && Times(x + 1.0, x + 1.0) == Times(x, x) + 2.0 * x + 1.0
  {
  }

  lemma TimesStrict(k: real, y: real, z: real)
    requires k > 0.0 && y > z
    ensures Times(k, y) > Times(k, z)
  {
    PositiveProduct(k, y - z);
    assert k * (y - z) == k * y - k * z;
  }

  lemma ScaledStrict(k: real, y: real, z: real)
    requires k != 0.0 && Abs(Times(k, y)) <= Abs(Times(k, z))
    ensures Abs(y) <= Abs(z)
  {
    hide Times;
    TimesFlip(k, y);
    TimesFlip(k, z);
    if Abs(y) > Abs(z) { TimesStrict(Abs(k), Abs(y), Abs(z)); }
  }

  lemma ErrorIsGap(row: Row, x: real, s: real, c: int, r: int)
    requires row.alg == AlgAAC && row.a != 0.0 && s * s == Ratio(row, x) && Error(row, x, c) <= Error(row, x, r)
    ensures Abs(Gap(c as real, s)) <= Abs(Gap(r as real, s))
  {
    hide Error, Ratio, Times, Gap, Abs;
    SquareError(row, x, s, c);
    SquareError(row, x, s, r);
    ScaledStrict(row.a, Gap(c as real, s), Gap(r as real, s));
  }

  // Of the codes that are not negative the greatest best one is taken.
  lemma GreatestFirst(row: Row, x: real, root: real, r: int)
    requires row.Width() > 0 && row.alg == AlgAAC && Accepts(row, x) && RootOk(row, x, root)
    requires PrepareRaw(row, x, root).Code? && 0 <= PrepareRaw(row, x, root).raw < r <= WireMax(row)
    ensures Error(row, x, PrepareRaw(row, x, root).raw) < Error(row, x, r)
  {
    var cs := AddQuantCandidates(RootCandidates(root), -root);
    assert CandidatesFor(row, x, root) == Found(cs) && |cs| > 0 && cs[0] == Llround(root);
    var c := BestOf(row, x, cs, |cs|);
    assert PrepareRaw(row, x, root) == Code(c) && WireMin(row) <= 0;
    hide Error, ClampWire, AddQuantCandidates, CandidatesFor, PrepareRaw, BestOf, Llround, WireMin, WireMax;
    if Error(row, x, r) <= Error(row, x, c) {
      SquareOptimal(row, x, root, r);
      SquareOptimal(row, x, root, c + 1);
      ErrorIsGap(row, x, root, c, r);
      ErrorIsGap(row, x, root, r, c);
      ErrorIsGap(row, x, root, c, c + 1);
      TieRoundsUp(c, r, root);
      forall k | 0 <= k < |cs| ensures Error(row, x, r) <= Error(row, x, ClampWire(row, cs[k])) {
        ClampInRange(row, cs[k]);
        SquareOptimal(row, x, root, ClampWire(row, cs[k]));
      }
      ClampInRange(row, r);
      FirstIsBest(row, x, cs, r);
    }
  }

  lemma FirstIsBest(row: Row, x: real, cs: seq<int>, r: int)
    requires row.Width() > 0 && |cs| > 0 && ClampWire(row, cs[0]) == r
    requires forall k | 0 <= k < |cs| :: Error(row, x, r) <= Error(row, x, ClampWire(row, cs[k]))
    ensures BestOf(row, x, cs, |cs|) == r
  {
    hide Error, ClampWire;
    BestStays(row, x, cs, 1, |cs|);
  }

  // The square algorithm takes a best code: the greatest one if that is not negative, and a negative one only
  // if all others are worse.
  lemma SquareRounds(row: Row, x: real, root: real, r: int)
    requires row.Width() > 0 && row.alg == AlgAAC && Accepts(row, x) && RootOk(row, x, root) && InRange(row, r)
    ensures PrepareRaw(row, x, root).Code?
    ensures var c := PrepareRaw(row, x, root).raw;
      && InRange(row, c) && Error(row, x, c) <= Error(row, x, r)
      && ((c >= 0 && r > c) || (c < 0 && r >= 0) ==> Error(row, x, c) < Error(row, x, r))
  {
    SquareOptimal(row, x, root, r);
    hide PrepareRaw, Error;
    var c := PrepareRaw(row, x, root).raw;
    if c >= 0 && r > c { GreatestFirst(row, x, root, r); }
    if c < 0 && r >= 0 { PositiveFirst(row, x, root, r); }
  }
}
