// The layout generator: validation, the overlap check, and the placement of systems in the CS areas.
module Generator {
  import opened Wire
  import opened MsgBlock
  import opened CommTable

  // One parsed row; the CS fields are filled in at the end.
  datatype BaseRow = BaseRow(system: nat, ty: WireType, placeholder: bool, block: int, offset: int,
                             csOffset: int, csBlock: int)

  function SizeBits(ty: WireType): Option<nat> {
    match ty
    case TypeD => Some(1)
    case TypeA => Some(8)
    case TypeAP => Some(16)
    case TypeNone => None
  }

  function Size(r: BaseRow): nat { if r.ty == TypeNone then 0 else SizeBits(r.ty).value }

  // --- validation --------------------------------------------------------------------------

  predicate ValidRow(r: BaseRow) {
    r.placeholder || (r.ty != TypeNone && r.block >= 0 && LayoutSupported(Size(r), r.offset))
  }

  method ValidateBlockLayout(rows: seq<BaseRow>) returns (ok: bool)
    ensures ok <==> forall i :: 0 <= i < |rows| ==> ValidRow(rows[i])
  {
    var i := 0;
    while i < |rows|
      invariant 0 <= i <= |rows|
      invariant forall k :: 0 <= k < i ==> ValidRow(rows[k])
    {
      var row := rows[i];
      i := i + 1;
      if row.placeholder { continue; }
      var width := SizeBits(row.ty);
      if width == None || row.block < 0 { return false; }
      if width.value == 16 {
        if row.offset != 0 { return false; }
        continue;
      }
      if width.value == 8 {
        if row.offset != 0 && row.offset != 8 { return false; }
        continue;
      }
      if row.offset < 0 || row.offset >= BLOCK_BITS { return false; }
    }
    ok := true;
  }

  // --- the bits of one system --------------------------------------------------------------

  predicate IsLocal(r: BaseRow, sys: nat) { r.system == sys && !r.placeholder }

  function Locals(rows: seq<BaseRow>, sys: nat): (ls: seq<BaseRow>)
    ensures forall r :: r in ls <==> r in rows && IsLocal(r, sys)
  {
    if |rows| == 0 then []
    else
      var rest := Locals(rows[..|rows| - 1], sys);
      assert rows == rows[..|rows| - 1] + [rows[|rows| - 1]];
      if IsLocal(rows[|rows| - 1], sys) then rest + [rows[|rows| - 1]] else rest
  }

  function MinBlock(ls: seq<BaseRow>): (m: int)
    requires |ls| > 0
    ensures forall r :: r in ls ==> m <= r.block
    ensures exists r :: r in ls && r.block == m
  {
    var last := ls[|ls| - 1];
    if |ls| == 1 then last.block
    else
      assert ls == ls[..|ls| - 1] + [last];
      var m := MinBlock(ls[..|ls| - 1]);
      if last.block < m then last.block else m
  }

  // Bits start to end - 1 of a system.
  datatype Interval = Interval(start: int, end: int)

  function LocalBit(r: BaseRow, min: int): int { (r.block - min) * 16 + r.offset }

  function Span(r: BaseRow, min: int): Interval { Interval(LocalBit(r, min), LocalBit(r, min) + Size(r)) }

  function Spans(ls: seq<BaseRow>, min: int): (s: seq<Interval>)
    ensures |s| == |ls| && forall i :: 0 <= i < |ls| ==> s[i] == Span(ls[i], min)
  {
    seq(|ls|, i requires 0 <= i < |ls| => Span(ls[i], min))
  }

  function MaxEnd(s: seq<Interval>): (m: int)
    ensures m >= 0
    ensures forall v :: v in s ==> v.end <= m
  {
    if |s| == 0 then 0
    else
      assert s == s[..|s| - 1] + [s[|s| - 1]];
      var m := MaxEnd(s[..|s| - 1]);
      if s[|s| - 1].end > m then s[|s| - 1].end else m
  }

  function CeilBlocks(bits: nat): nat { (bits + 15) / 16 }

  datatype SystemBits = SystemBits(blocks: nat, spans: seq<Interval>)

  function SystemLocalBits(rows: seq<BaseRow>, sys: nat): SystemBits {
    var ls := Locals(rows, sys);
    if |ls| == 0 then SystemBits(0, [])
    else
      var s := Spans(ls, MinBlock(ls));
      SystemBits(Max(1, CeilBlocks(MaxEnd(s))), s)
  }

  method MeasureSystem(rows: seq<BaseRow>, sys: nat) returns (r: SystemBits)
    ensures r == SystemLocalBits(rows, sys)
  {
    hide Locals, MinBlock, LocalBit;
    var ls := Locals(rows, sys);
    if |ls| == 0 { return SystemBits(0, []); }
    var min := MinBlock(ls);
    var spans: seq<Interval>, maxEnd := [], 0;
    for i := 0 to |ls|
      invariant spans == Spans(ls, min)[..i]
      invariant maxEnd == MaxEnd(spans) >= 0
    {
      var start := LocalBit(ls[i], min);
      var end := start + Size(ls[i]);
      if end > maxEnd { maxEnd := end; }
      spans := spans + [Interval(start, end)];
      assert spans[..|spans| - 1] == Spans(ls, min)[..i];
    }
    assert Spans(ls, min)[..|ls|] == Spans(ls, min);
    r := SystemBits(Max(1, CeilBlocks(maxEnd)), spans);
  }

  // --- the overlap check -------------------------------------------------------------------

  predicate Clear(a: Interval, b: Interval) { a.end <= b.start || b.end <= a.start }

  ghost predicate AllClear(s: seq<Interval>) {
    forall i, j :: 0 <= i < j < |s| ==> Clear(s[i], s[j])
  }

  predicate Ordered(s: seq<Interval>) {
    forall i, j :: 0 <= i < j < |s| ==> s[i].start <= s[j].start
  }

  predicate NeighboursClear(s: seq<Interval>) {
    forall i :: 0 < i < |s| ==> s[i - 1].end <= s[i].start
  }

  // Insertion before the first later start, which is what a stable sort by start does.
  function Insert(v: Interval, s: seq<Interval>): (r: seq<Interval>)
    ensures |r| == |s| + 1
    ensures forall x :: x in r <==> x == v || x in s
  {
    if |s| == 0 then [v]
    else
      var last := s[|s| - 1];
      assert s == s[..|s| - 1] + [last];
      if last.start <= v.start then s + [v] else Insert(v, s[..|s| - 1]) + [last]
  }

  function Sorted(s: seq<Interval>): (r: seq<Interval>)
    ensures |r| == |s|
    ensures forall x :: x in r <==> x in s
  {
    if |s| == 0 then []
    else
      assert s == s[..|s| - 1] + [s[|s| - 1]];
      Insert(s[|s| - 1], Sorted(s[..|s| - 1]))
  }

  lemma {:induction false} InsertOrders(v: Interval, s: seq<Interval>)
    requires Ordered(s)
    ensures Ordered(Insert(v, s))
  {
    if |s| > 0 {
      var last, front := s[|s| - 1], s[..|s| - 1];
      if v.start < last.start {
        InsertOrders(v, front);
        var r := Insert(v, front);
        forall i | 0 <= i < |r| ensures r[i].start <= last.start {
          assert r[i] in r;
        }
      }
    }
  }

  lemma {:induction false} SortedOrders(s: seq<Interval>)
    ensures Ordered(Sorted(s))
  {
    if |s| > 0 {
      SortedOrders(s[..|s| - 1]);
      InsertOrders(s[|s| - 1], Sorted(s[..|s| - 1]));
    }
  }

  ghost predicate ClearOf(v: Interval, s: seq<Interval>) { forall x :: x in s ==> Clear(v, x) }

  lemma AllClearSnoc(s: seq<Interval>, v: Interval)
    ensures AllClear(s + [v]) <==> AllClear(s) && ClearOf(v, s)
  {
    var r := s + [v];
    if AllClear(r) {
      forall i, j | 0 <= i < j < |s| ensures Clear(s[i], s[j]) {
        assert Clear(r[i], r[j]);
      }
      forall x | x in s ensures Clear(v, x) {
        var k :| 0 <= k < |s| && s[k] == x;
        assert Clear(r[k], r[|s|]);
      }
    }
    if AllClear(s) && ClearOf(v, s) {
      forall i, j | 0 <= i < j < |r| ensures Clear(r[i], r[j]) {
        assert s[i] in s;
        if j < |s| { assert Clear(s[i], s[j]); }
      }
    }
  }

  lemma ClearOfSnoc(v: Interval, s: seq<Interval>, w: Interval)
    ensures ClearOf(v, s + [w]) <==> ClearOf(v, s) && Clear(v, w)
  {
    if ClearOf(v, s + [w]) {
      assert w in s + [w];
      assert forall x :: x in s ==> x in s + [w];
    }
  }

  lemma ClearOfInsert(v: Interval, w: Interval, s: seq<Interval>)
    ensures ClearOf(v, Insert(w, s)) <==> ClearOf(v, s) && Clear(v, w)
  {
    assert w in Insert(w, s);
    assert forall x :: x in s ==> x in Insert(w, s);
  }

  lemma {:induction false} InsertClear(v: Interval, s: seq<Interval>)
    ensures AllClear(Insert(v, s)) <==> AllClear(s) && ClearOf(v, s)
  {
    hide AllClear, ClearOf;
    if |s| == 0 {
      AllClearSnoc([], v);
      assert [] + [v] == [v];
    } else {
      var last, front := s[|s| - 1], s[..|s| - 1];
      assert s == front + [last];
      AllClearSnoc(s, v);
      AllClearSnoc(front, last);
      if v.start < last.start {
        InsertClear(v, front);
        AllClearSnoc(Insert(v, front), last);
        ClearOfInsert(last, v, front);
        ClearOfSnoc(v, front, last);
      }
    }
  }

  // Sorting does not change whether all intervals are disjoint.
  lemma {:induction false} SortedClear(s: seq<Interval>)
    ensures AllClear(Sorted(s)) <==> AllClear(s)
  {
    hide AllClear;
    if |s| > 0 {
      var front, last := s[..|s| - 1], s[|s| - 1];
      assert s == front + [last];
      SortedClear(front);
      InsertClear(last, Sorted(front));
      AllClearSnoc(front, last);
    }
  }

  // On nonempty intervals in order of start, it is enough to look at neighbours.
  lemma NeighboursSuffice(s: seq<Interval>)
    requires Ordered(s) && forall v :: v in s ==> v.start < v.end
    ensures NeighboursClear(s) <==> AllClear(s)
  {
    if NeighboursClear(s) {
      forall i, j | 0 <= i < j < |s| ensures Clear(s[i], s[j]) {
        assert s[i + 1 - 1].end <= s[i + 1].start;
        assert i + 1 < j ==> s[i + 1].start <= s[j].start;
      }
    }
    if AllClear(s) {
      forall i | 0 < i < |s| ensures s[i - 1].end <= s[i].start {
        assert Clear(s[i - 1], s[i]) && s[i] in s && s[i - 1].start <= s[i].start;
      }
    }
  }

  method SortByStart(s: seq<Interval>) returns (r: seq<Interval>)
    ensures r == Sorted(s)
  {
    r := [];
    for i := 0 to |s|
      invariant r == Sorted(s[..i])
    {
      assert s[..i + 1][..i] == s[..i];
      r := Insert(s[i], r);
    }
    assert s[..|s|] == s;
  }

  method NeighboursDisjoint(s: seq<Interval>) returns (ok: bool)
    ensures ok <==> NeighboursClear(s)
  {
    var i := 1;
    while i < |s|
      invariant 1 <= i
      invariant forall k :: 0 < k < i && k < |s| ==> s[k - 1].end <= s[k].start
    {
      if s[i].start < s[i - 1].end { return false; }
      i := i + 1;
    }
    ok := true;
  }

  // The fields of the system are pairwise disjoint.
  ghost predicate SystemClear(rows: seq<BaseRow>, sys: nat) { AllClear(SystemLocalBits(rows, sys).spans) }

  ghost predicate AllValid(rows: seq<BaseRow>) { forall i :: 0 <= i < |rows| ==> ValidRow(rows[i]) }

  lemma SpansNonempty(rows: seq<BaseRow>, sys: nat)
    requires AllValid(rows)
    ensures forall v :: v in SystemLocalBits(rows, sys).spans ==> v.start < v.end
  {
    forall v | v in SystemLocalBits(rows, sys).spans ensures v.start < v.end {
      var ls := Locals(rows, sys);
      var k :| 0 <= k < |ls| && v == Span(ls[k], MinBlock(ls));
      assert ls[k] in rows;
    }
  }

  method CheckSystem(rows: seq<BaseRow>, sys: nat) returns (clear: bool)
    requires AllValid(rows)
    ensures clear <==> SystemClear(rows, sys)
  {
    hide AllClear, NeighboursClear, SystemLocalBits, Sorted, Ordered, AllValid;
    var m := MeasureSystem(rows, sys);
    var sorted := SortByStart(m.spans);
    clear := NeighboursDisjoint(sorted);
    SortedOrders(m.spans);
    SpansNonempty(rows, sys);
    NeighboursSuffice(sorted);
    SortedClear(m.spans);
  }

  // Sorting and scanning neighbours accepts a validated table exactly if within every system every
  // two fields are disjoint.
  method CheckOverlaps(rows: seq<BaseRow>, systems: seq<nat>) returns (ok: bool)
    requires AllValid(rows) && forall r :: r in rows ==> r.system in systems
    ensures ok <==> forall sys :: SystemClear(rows, sys)
  {
    hide SystemClear, AllValid;
    var i := 0;
    while i < |systems|
      invariant 0 <= i <= |systems|
      invariant forall k :: 0 <= k < i ==> SystemClear(rows, systems[k])
    {
      var clear := CheckSystem(rows, systems[i]);
      if !clear { return false; }
      i := i + 1;
    }
    forall sys ensures SystemClear(rows, sys) {
      if sys !in systems { EmptySystemClear(rows, sys); }
    }
    ok := true;
  }

  lemma EmptySystemClear(rows: seq<BaseRow>, sys: nat)
    requires forall r :: r in rows ==> r.system != sys
    ensures SystemClear(rows, sys)
  {
    var ls := Locals(rows, sys);
    if |ls| > 0 { assert ls[0] in ls; }
  }

  // --- occupied bits -----------------------------------------------------------------------

  predicate Covers(v: Interval, b: int) { v.start <= b < v.end }

  ghost predicate CoveredBy(s: seq<Interval>, n: nat, b: int)
    requires n <= |s|
  {
    exists k :: 0 <= k < n && Covers(s[k], b)
  }

  // Marks every bit that some field of the system covers.
  method MarkOccupied(s: seq<Interval>, bits: nat) returns (occupied: array<bool>)
    ensures fresh(occupied) && occupied.Length == bits
    ensures forall b :: 0 <= b < bits ==> (occupied[b] <==> CoveredBy(s, |s|, b))
  {
    occupied := new bool[bits](_ => false);
    for i := 0 to |s|
      invariant forall b :: 0 <= b < bits ==> (occupied[b] <==> CoveredBy(s, i, b))
    {
      ghost var before := occupied[..];
      var b := if s[i].start < 0 then 0 else s[i].start;
      while b < s[i].end && b < bits
        invariant 0 <= b
        invariant forall k :: 0 <= k < bits ==> (occupied[k] <==> before[k] || (Covers(s[i], k) && k < b))
      {
        occupied[b] := true;
        b := b + 1;
      }
      forall k | 0 <= k < bits ensures occupied[k] <==> CoveredBy(s, i + 1, k) {
        if occupied[k] && !before[k] { assert Covers(s[i], k); }
        if before[k] { var m :| 0 <= m < i && Covers(s[m], k); }
      }
    }
  }

  // --- placing the systems -----------------------------------------------------------------

  function SystemSize(rows: seq<BaseRow>, sys: nat): nat { SystemLocalBits(rows, sys).blocks * 16 }

  datatype Bases = Bases(base: map<nat, nat>, total: nat)

  // The bases after the first n systems: each starts where the ones before it end.
  function CsBases(rows: seq<BaseRow>, systems: seq<nat>, n: nat): Bases
    requires n <= |systems|
  {
    if n == 0 then Bases(map[], 0)
    else
      var b, sys := CsBases(rows, systems, n - 1), systems[n - 1];
      if sys == SYS_NONE || sys == SYS_CS then b
      else Bases(b.base[sys := b.total], b.total + SystemSize(rows, sys))
  }

  method ComputeCsMaps(rows: seq<BaseRow>, systems: seq<nat>) returns (r: Bases)
    ensures r == CsBases(rows, systems, |systems|)
  {
    var base: map<nat, nat>, current: nat := map[], 0;
    for i := 0 to |systems|
      invariant Bases(base, current) == CsBases(rows, systems, i)
    {
      var sys := systems[i];
      if sys != SYS_NONE && sys != SYS_CS {
        base := base[sys := current];
        var m := MeasureSystem(rows, sys);
        current := current + m.blocks * 16;
      }
    }
    r := Bases(base, current);
  }

  predicate Aligned(bits: nat) { bits % 16 == 0 }

  lemma AlignedSize(rows: seq<BaseRow>, sys: nat, bits: nat)
    requires Aligned(bits)
    ensures Aligned(bits + SystemSize(rows, sys))
  {
  }

  // The windows two systems occupy in the CS area do not meet.
  predicate WindowsApart(rows: seq<BaseRow>, b: Bases, s: nat, u: nat)
    requires s in b.base && u in b.base
  {
    s == u || b.base[s] + SystemSize(rows, s) <= b.base[u] || b.base[u] + SystemSize(rows, u) <= b.base[s]
  }

  predicate WindowInside(rows: seq<BaseRow>, b: Bases, s: nat)
    requires s in b.base
  {
    Aligned(b.base[s]) && b.base[s] + SystemSize(rows, s) <= b.total
  }

  ghost predicate BasesOk(rows: seq<BaseRow>, b: Bases) {
    && Aligned(b.total)
    && (forall s :: s in b.base ==> WindowInside(rows, b, s))
    && (forall s, u :: s in b.base && u in b.base ==> WindowsApart(rows, b, s, u))
  }

  lemma NextBaseOk(rows: seq<BaseRow>, b: Bases, sys: nat)
    requires BasesOk(rows, b)
    ensures BasesOk(rows, Bases(b.base[sys := b.total], b.total + SystemSize(rows, sys)))
  {
    hide SystemSize, Aligned;
    AlignedSize(rows, sys, b.total);
    var c := Bases(b.base[sys := b.total], b.total + SystemSize(rows, sys));
    forall s | s in c.base ensures WindowInside(rows, c, s) {
      if s != sys { assert WindowInside(rows, b, s); }
    }
    forall s, u | s in c.base && u in c.base ensures WindowsApart(rows, c, s, u) {
      if s != sys { assert WindowInside(rows, b, s); }
      if u != sys { assert WindowInside(rows, b, u); }
      if s != sys && u != sys { assert WindowsApart(rows, b, s, u); }
    }
  }

  // After the prefix sums: windows start on a block, lie inside the total and are pairwise disjoint.
  lemma {:induction false} BasesAreOk(rows: seq<BaseRow>, systems: seq<nat>, n: nat)
    requires n <= |systems|
    ensures BasesOk(rows, CsBases(rows, systems, n))
    ensures forall s :: s in CsBases(rows, systems, n).base <==> s in systems[..n] && s != SYS_NONE && s != SYS_CS
  {
    hide SystemSize, BasesOk;
    if n > 0 {
      BasesAreOk(rows, systems, n - 1);
      assert systems[..n] == systems[..n - 1] + [systems[n - 1]];
      NextBaseOk(rows, CsBases(rows, systems, n - 1), systems[n - 1]);
    } else {
      NoBasesOk(rows);
    }
  }

  lemma NoBasesOk(rows: seq<BaseRow>)
    ensures BasesOk(rows, Bases(map[], 0))
  {
  }

  // --- CS offsets --------------------------------------------------------------------------

  function MinOf(rows: seq<BaseRow>, sys: nat): int {
    var ls := Locals(rows, sys);
    if |ls| == 0 then 0 else MinBlock(ls)
  }

  function Lookup(m: map<nat, nat>, k: nat): nat { if k in m then m[k] else 0 }

  // Row r with its CS fields, given its system's least block; the CS block is rounded down.
  function Place(base: map<nat, nat>, r: BaseRow, min: int): BaseRow {
    var o := Lookup(base, r.system) + LocalBit(r, min);
    r.(csOffset := o, csBlock := o / 16)
  }

  function Assigned(rows: seq<BaseRow>, base: map<nat, nat>, r: BaseRow): BaseRow {
    Place(base, r, MinOf(rows, r.system))
  }

  function AssignAll(rows: seq<BaseRow>, base: map<nat, nat>): (out: seq<BaseRow>)
    ensures |out| == |rows| && forall i :: 0 <= i < |rows| ==> out[i] == Assigned(rows, base, rows[i])
  {
    seq(|rows|, i requires 0 <= i < |rows| => Assigned(rows, base, rows[i]))
  }

  // The least block of each system that has rows.
  predicate IsMinAt(m: map<nat, int>, rows: seq<BaseRow>, sys: nat) {
    (sys in m <==> |Locals(rows, sys)| > 0) && (sys in m ==> m[sys] == MinOf(rows, sys))
  }

  ghost predicate IsMinMap(m: map<nat, int>, rows: seq<BaseRow>) { forall sys :: IsMinAt(m, rows, sys) }

  method MinBlocks(rows: seq<BaseRow>) returns (m: map<nat, int>)
    ensures IsMinMap(m, rows)
  {
    hide Locals, MinOf, IsMinMap;
    m := map[];
    NoMins();
    for i := 0 to |rows|
      invariant IsMinMap(m, rows[..i])
    {
      var row := rows[i];
      assert rows[..i + 1] == rows[..i] + [row];
      MinMapGrows(m, rows[..i], row);
      if !row.placeholder {
        var key := row.system;
        if key !in m {
          m := m[key := row.block];
        } else {
          m := m[key := if row.block < m[key] then row.block else m[key]];
        }
      }
    }
    assert rows[..|rows|] == rows;
  }

  lemma NoMins()
    ensures IsMinMap(map[], [])
  {
  }

  lemma MinMapGrows(m: map<nat, int>, rows: seq<BaseRow>, r: BaseRow)
    requires IsMinMap(m, rows)
    ensures r.placeholder ==> IsMinMap(m, rows + [r])
    ensures !r.placeholder ==>
      IsMinMap(m[r.system := if r.system !in m || r.block < m[r.system] then r.block else m[r.system]], rows + [r])
  {
    hide Locals, MinOf;
    var next := if r.placeholder then m
                else m[r.system := if r.system !in m || r.block < m[r.system] then r.block else m[r.system]];
    forall sys ensures IsMinAt(next, rows + [r], sys) {
      assert IsMinAt(m, rows, sys);
      LocalsSnoc(rows, r, sys);
    }
  }

  lemma LocalsSnoc(rows: seq<BaseRow>, r: BaseRow, sys: nat)
    ensures Locals(rows + [r], sys) == if IsLocal(r, sys) then Locals(rows, sys) + [r] else Locals(rows, sys)
    ensures MinOf(rows + [r], sys)
      == if !IsLocal(r, sys) then MinOf(rows, sys)
         else if |Locals(rows, sys)| == 0 || r.block < MinOf(rows, sys) then r.block else MinOf(rows, sys)
  {
    var all := rows + [r];
    assert all[..|all| - 1] == rows && all[|all| - 1] == r;
    var ls := Locals(rows, sys);
    assert (ls + [r])[..|ls + [r]| - 1] == ls;
  }

  method AssignCsOffsets(rows: array<BaseRow>, base: map<nat, nat>)
    modifies rows
    ensures rows[..] == AssignAll(old(rows[..]), base)
  {
    hide Locals, MinOf, Place;
    ghost var was := rows[..];
    var mins := MinBlocks(rows[..]);
    assert forall sys :: IsMinAt(mins, was, sys);
    for i := 0 to rows.Length
      invariant forall k :: 0 <= k < i ==> rows[k] == Assigned(was, base, was[k])
      invariant forall k :: i <= k < rows.Length ==> rows[k] == was[k]
    {
      assert IsMinAt(mins, was, rows[i].system);
      var localMin := if rows[i].system in mins then mins[rows[i].system] else 0;
      MinDefault(was, rows[i].system);
      rows[i] := Place(base, rows[i], localMin);
    }
  }

  lemma MinDefault(rows: seq<BaseRow>, sys: nat)
    ensures |Locals(rows, sys)| == 0 ==> MinOf(rows, sys) == 0
  {
  }
}
