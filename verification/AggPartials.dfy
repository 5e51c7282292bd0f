// Per-fragment aggregate partials over integer columns and the retraction of deleted rows
// (`compute_signed_int_col`, `deleted_contribution`, `retract` and `merge_two_col_aggs` in
// crates/icefalldb-core/src/agg_cache.rs).
module AggPartials {
  import opened Collections
  import opened Permutations
  import opened Selection
  import opened MachineIntegers

  predicate InI128(n: int) { I128_MIN <= n <= I128_MAX }

  /** An integer column; None is null. */
  type Column = seq<Option<int>>

  // ---- the meaning: count, sum and sum of squares of the non-null cells ----

  datatype Totals = Totals(count: nat, sum: int, sumsq: nat)

  predicate Bounded(t: Totals) { t.sum <= t.sumsq && -t.sum <= t.sumsq }

  /** `t` adds up `a` and `b`. */
  predicate IsSum(t: Totals, a: Totals, b: Totals) {
    t.count == a.count + b.count && t.sum == a.sum + b.sum && t.sumsq == a.sumsq + b.sumsq
  }

  predicate Same(a: Totals, b: Totals) {
    a.count == b.count && a.sum == b.sum && a.sumsq == b.sumsq
  }

  /** v * v, kept away from the solver's nonlinear arithmetic; see `SquareIsProduct`. */
  function Square(v: int): (q: nat)
    ensures v <= q && -v <= q
  {
    if v < 0 then SquareNat(-v) else SquareNat(v)
  }

  function SquareNat(n: nat): (q: nat)
    ensures n <= q
  {
    if n == 0 then 0 else SquareNat(n - 1) + 2 * n - 1
  }

  lemma {:induction false} SquareNatIsProduct(n: nat)
    ensures SquareNat(n) == n * n
  {
    if n > 0 {
      SquareNatIsProduct(n - 1);
      assert (n - 1) * (n - 1) == n * n - 2 * n + 1;
    }
  }

  lemma {:induction false} SquareIsProduct(v: int)
    ensures Square(v) == v * v
  {
    if v < 0 {
      SquareNatIsProduct(-v);
      assert (-v) * (-v) == v * v;
    } else {
      SquareNatIsProduct(v);
    }
  }

  function CellCount(x: Option<int>): nat { if x.Some? then 1 else 0 }
  function CellSum(x: Option<int>): int { if x.Some? then x.value else 0 }
  function CellSq(x: Option<int>): nat { if x.Some? then Square(x.value) else 0 }

  function One(cell: Option<int>): Totals {
    Totals(CellCount(cell), CellSum(cell), CellSq(cell))
  }

  function Count(c: Column): nat {
    if c == [] then 0 else CellCount(c[0]) + Count(c[1..])
  }

  function Sum(c: Column): int {
    if c == [] then 0 else CellSum(c[0]) + Sum(c[1..])
  }

  function SumSq(c: Column): nat {
    if c == [] then 0 else CellSq(c[0]) + SumSq(c[1..])
  }

  function Tot(c: Column): Totals { Totals(Count(c), Sum(c), SumSq(c)) }

  /** The totals of a single cell; `TotConcat` says how those of more cells add up. */
  lemma {:induction false} CellTotals(v: int)
    ensures Tot([Some(v)]).count == 1 && Tot([Some(v)]).sum == v && Tot([Some(v)]).sumsq == v * v
    ensures Same(Tot([None]), Totals(0, 0, 0)) && Same(Tot([]), Totals(0, 0, 0))
  {
    TotOne(Some(v));
    TotOne(None);
    SquareIsProduct(v);
  }

  /** The sum never exceeds the sum of squares, which is why only the latter can overflow first. */
  lemma {:induction false} TotBounds(c: Column)
    ensures Bounded(Tot(c)) && Tot(c).count <= |c|
    ensures Tot(c).count == 0 ==> Tot(c).sum == 0 && Tot(c).sumsq == 0
  {
    if c != [] {
      TotBounds(c[1..]);
    }
  }

  lemma {:induction false} SumsConcat(a: Column, b: Column)
    ensures Count(a + b) == Count(a) + Count(b)
    ensures Sum(a + b) == Sum(a) + Sum(b)
    ensures SumSq(a + b) == SumSq(a) + SumSq(b)
  {
    if a == [] {
      assert a + b == b;
    } else {
      assert (a + b)[1..] == a[1..] + b;
      SumsConcat(a[1..], b);
    }
  }

  lemma {:induction false} TotConcat(a: Column, b: Column)
    ensures IsSum(Tot(a + b), Tot(a), Tot(b))
  {
    SumsConcat(a, b);
  }

  lemma {:induction false} TotOne(cell: Option<int>)
    ensures Same(Tot([cell]), One(cell))
  {
    assert [cell][1..] == [];
    assert Count([cell]) == CellCount(cell) && Sum([cell]) == CellSum(cell) && SumSq([cell]) == CellSq(cell);
  }

  lemma {:induction false} TotSnoc(c: Column, cell: Option<int>)
    ensures IsSum(Tot(c + [cell]), Tot(c), One(cell))
  {
    TotConcat(c, [cell]);
    TotOne(cell);
  }

  lemma {:induction false} TotCons(cell: Option<int>, rest: Column)
    ensures IsSum(Tot([cell] + rest), One(cell), Tot(rest))
  {
    assert ([cell] + rest)[1..] == rest;
  }

  lemma {:induction false} TotRemove(c: Column, k: nat)
    requires k < |c|
    ensures IsSum(Tot(c), Tot(c[..k] + c[k + 1..]), One(c[k]))
  {
    var a, b := c[..k], c[k + 1..];
    assert c == a + [c[k]] + b;
    TotConcat(a + [c[k]], b);
    TotSnoc(a, c[k]);
    TotConcat(a, b);
  }

  /** Totals do not depend on the order of the rows. */
  lemma {:induction false} TotPermutation(a: Column, b: Column)
    requires multiset(a) == multiset(b)
    ensures Same(Tot(a), Tot(b))
    decreases |a|
  {
    if a == [] {
      assert |multiset(b)| == 0;
    } else {
      assert a[0] in multiset(b);
      var k :| 0 <= k < |b| && b[k] == a[0];
      var a', b' := a[..0] + a[1..], b[..k] + b[k + 1..];
      assert multiset(a') == multiset(b') by {
        RemoveAt(a, 0);
        RemoveAt(b, k);
      }
      TotPermutation(a', b');
      TotRemove(a, 0);
      TotRemove(b, k);
    }
  }

  /** Deleting rows subtracts their totals. */
  lemma {:induction false} TotSplit(c: Column, offs: Offsets)
    requires ValidOffsets(offs, |c|)
    ensures InRange(offs, |c|)
    ensures IsSum(Tot(c), Tot(DeletedRows(c, offs)), Tot(LiveRows(c, offs)))
  {
    RowsSplit(c, offs);
    TotPermutation(DeletedRows(c, offs) + LiveRows(c, offs), c);
    TotConcat(DeletedRows(c, offs), LiveRows(c, offs));
  }

  lemma {:induction false} TotPrefix(c: Column, i: nat)
    requires i <= |c|
    ensures Tot(c[..i]).sumsq <= Tot(c).sumsq && Tot(c[..i]).count <= Tot(c).count
  {
    assert c == c[..i] + c[i..];
    TotConcat(c[..i], c[i..]);
  }

  // ---- partials ----

  datatype AggScalar = Int(v: int) | Null

  datatype ColAgg = ColAgg(count: nat, sum: AggScalar, sumsq: AggScalar, minOff: Option<nat>, maxOff: Option<nat>)

  function Num(s: AggScalar): int { if s.Int? then s.v else 0 }

  /** A partial stands for totals; a null scalar stands for no values at all. */
  predicate Represents(a: ColAgg, t: Totals) {
    && a.count == t.count && Num(a.sum) == t.sum && Num(a.sumsq) == t.sumsq
    && (a.sum.Null? <==> a.sumsq.Null?)
    && (a.sum.Null? ==> t.count == 0)
  }

  predicate Fits(t: Totals) { t.sumsq <= I128_MAX }

  // ---- extremal offsets ----

  datatype ExtremumKind = Min | Max

  /** Smaller is better, for either kind. */
  function Badness(kind: ExtremumKind, v: int): int { if kind.Min? then v else -v }

  /** The offset of the first row that holds the extremum. */
  ghost predicate IsExtremal(c: Column, kind: ExtremumKind, off: Option<nat>) {
    match off
    case None => forall i :: 0 <= i < |c| ==> c[i].None?
    case Some(k) =>
      && k < |c| && c[k].Some?
      && (forall i :: 0 <= i < |c| && c[i].Some? ==> Badness(kind, c[k].value) <= Badness(kind, c[i].value))
      && (forall i :: 0 <= i < k && c[i].Some? ==> Badness(kind, c[k].value) < Badness(kind, c[i].value))
  }

  lemma {:induction false} ExtremalStep(c: Column, kind: ExtremumKind, off: Option<nat>, cell: Option<int>)
    requires IsExtremal(c, kind, off)
    ensures IsExtremal(c + [cell], kind,
              if cell.Some? && (off.None? || Badness(kind, cell.value) < Badness(kind, c[off.value].value))
              then Some(|c|) else off)
  {
    var d := c + [cell];
    assert forall i :: 0 <= i < |c| ==> d[i] == c[i];
  }

  /** What the fold over a non-null column returns: nothing exactly on overflow. */
  ghost predicate IsComputed(c: Column, r: Option<ColAgg>) {
    && (r.None? <==> !Fits(Tot(c)))
    && (r.Some? ==>
          && Represents(r.value, Tot(c)) && (r.value.sum.Null? <==> Tot(c).count == 0)
          && IsExtremal(c, Min, r.value.minOff) && IsExtremal(c, Max, r.value.maxOff))
  }

  lemma {:induction false} AllNull(c: Column)
    ensures Tot(c).count == 0 <==> forall i :: 0 <= i < |c| ==> c[i].None?
  {
    if c != [] {
      AllNull(c[1..]);
      assert c == [c[0]] + c[1..];
    }
  }

  /** One checked accumulation step: it overflows exactly when the sum of squares leaves i128. */
  lemma {:induction false} CheckedStep(t: Totals, v: int)
    requires Fits(t) && Bounded(t)
    ensures t.sumsq + Square(v) <= I128_MAX <==>
            InI128(t.sum + v) && InI128(v * v) && InI128(t.sumsq + v * v)
  {
    SquareIsProduct(v);
  }

  /** `compute_signed_int_col`: the checked fold, with the offsets of the first extremal rows.
      Row offsets are u32, so a fragment has at most 2^32 rows. */
  method ComputeIntCol(c: Column) returns (r: Option<ColAgg>)
    requires |c| <= 0x1_0000_0000
    ensures IsComputed(c, r)
  {
    var nulls := CountNulls(c);
    if nulls == |c| {
      AllNull(c);
      TotBounds(c);
      return Some(ColAgg(0, Null, Null, None, None));
    }
    var t := Totals(0, 0, 0);
    var minOff: Option<nat>, maxOff: Option<nat> := None, None;
    assert c[..0] == [];
    for i := 0 to |c|
      invariant Same(t, Tot(c[..i])) && Fits(t)
      invariant IsExtremal(c[..i], Min, minOff) && IsExtremal(c[..i], Max, maxOff)
    {
      NextCell(c, i);
      TotBounds(c[..i]);
      var next := CheckedAdd(t, c[i]);
      if next.None? {
        return None;
      }
      t := next.value;
      minOff, maxOff := NextOffsets(c, i, minOff, maxOff);
    }
    assert c[..|c|] == c;
    r := Some(ColAgg(t.count, Int(t.sum), Int(t.sumsq), minOff, maxOff));
  }

  lemma {:induction false} NextCell(c: Column, i: nat)
    requires i < |c|
    ensures IsSum(Tot(c[..i + 1]), Tot(c[..i]), One(c[i]))
    ensures Fits(Tot(c)) ==> Fits(Tot(c[..i + 1]))
  {
    assert c[..i + 1] == c[..i] + [c[i]];
    TotSnoc(c[..i], c[i]);
    TotPrefix(c, i + 1);
  }

  /** The checked additions of one fold step, in the order of the source. */
  method CheckedAdd(t: Totals, cell: Option<int>) returns (r: Option<Totals>)
    requires Fits(t) && Bounded(t)
    ensures r.Some? <==> t.sumsq + CellSq(cell) <= I128_MAX
    ensures r.Some? ==> IsSum(r.value, t, One(cell))
  {
    if cell.None? {
      return Some(t);
    }
    var v := cell.value;
    CheckedStep(t, v);
    SquareIsProduct(v);
    if !InI128(t.sum + v) {
      return None;
    }
    var sq := v * v;
    if !InI128(sq) || !InI128(t.sumsq + sq) {
      return None;
    }
    return Some(Totals(t.count + 1, t.sum + v, t.sumsq + sq));
  }

  /** Track the first minimum and the first maximum. */
  method NextOffsets(c: Column, i: nat, minOff: Option<nat>, maxOff: Option<nat>)
    returns (minOff': Option<nat>, maxOff': Option<nat>)
    requires i < |c| && IsExtremal(c[..i], Min, minOff) && IsExtremal(c[..i], Max, maxOff)
    ensures IsExtremal(c[..i + 1], Min, minOff') && IsExtremal(c[..i + 1], Max, maxOff')
  {
    assert c[..i + 1] == c[..i] + [c[i]];
    ExtremalStep(c[..i], Min, minOff, c[i]);
    ExtremalStep(c[..i], Max, maxOff, c[i]);
    minOff', maxOff' := minOff, maxOff;
    if c[i].Some? {
      var v := c[i].value;
      if minOff.None? || v < c[minOff.value].value { minOff' := Some(i); }
      if maxOff.None? || v > c[maxOff.value].value { maxOff' := Some(i); }
    }
  }

  method CountNulls(c: Column) returns (n: nat)
    ensures n == |c| - Tot(c).count
  {
    n := 0;
    assert c[..0] == [];
    for i := 0 to |c|
      invariant n == i - Tot(c[..i]).count
    {
      assert c[..i + 1] == c[..i] + [c[i]];
      TotSnoc(c[..i], c[i]);
      if c[i].None? { n := n + 1; }
    }
    assert c[..|c|] == c;
  }

  /** `fold_int_rows_to_col_agg`, and the per-column fold of `deleted_contribution`. */
  method FoldRows(c: Column) returns (r: Option<ColAgg>)
    ensures r.None? <==> !Fits(Tot(c))
    ensures r.Some? ==> IsFolded(r.value, Tot(c)) && r.value.minOff == None && r.value.maxOff == None
  {
    var t := Totals(0, 0, 0);
    assert c[..0] == [];
    for i := 0 to |c|
      invariant Same(t, Tot(c[..i])) && Fits(t)
    {
      NextCell(c, i);
      TotBounds(c[..i]);
      var next := CheckedAdd(t, c[i]);
      if next.None? {
        return None;
      }
      t := next.value;
    }
    assert c[..|c|] == c;
    TotBounds(c);
    if t.count == 0 {
      return Some(ColAgg(0, Null, Null, None, None));
    }
    return Some(ColAgg(t.count, Int(t.sum), Int(t.sumsq), None, None));
  }

  /** A freshly folded partial: null exactly when there was nothing to fold. */
  predicate IsFolded(a: ColAgg, t: Totals) {
    Represents(a, t) && (a.sum.Null? <==> t.count == 0)
  }

  // ---- retraction and merging of one column ----

  function Subtract(full: AggScalar, del: AggScalar): Option<AggScalar> {
    match (full, del)
    case (Int(f), Int(d)) => if InI128(f - d) then Some(Int(f - d)) else None
    case (_, Null) => Some(full)
    case (Null, Int(_)) => None
  }

  /** The loop body of `retract`; None means that the column is dropped. */
  function RetractCol(full: ColAgg, del: ColAgg): Option<ColAgg> {
    var count := if full.count >= del.count then full.count - del.count else 0;
    var sum := Subtract(full.sum, del.sum);
    var sumsq := Subtract(full.sumsq, del.sumsq);
    if sum.None? || sumsq.None? then None
    else Some(ColAgg(count, sum.value, sumsq.value, full.minOff, full.maxOff))
  }

  /** The part of the retraction that is arithmetic on scalars. */
  lemma {:induction false} RetractNumbers(full: ColAgg, del: ColAgg, count: nat, sum: int, sumsq: int)
    requires full.count == del.count + count
    requires Num(full.sum) == Num(del.sum) + sum && InI128(sum) && (full.sum.Null? ==> del.sum.Null?)
    requires Num(full.sumsq) == Num(del.sumsq) + sumsq && InI128(sumsq) && (full.sumsq.Null? ==> del.sumsq.Null?)
    ensures RetractCol(full, del).Some?
    ensures var r := RetractCol(full, del).value;
            && r.count == count && Num(r.sum) == sum && Num(r.sumsq) == sumsq
            && (r.sum.Null? <==> full.sum.Null?) && (r.sumsq.Null? <==> full.sumsq.Null?)
            && r.minOff == full.minOff && r.maxOff == full.maxOff
  {
    SubtractExact(full.sum, del.sum, sum);
    SubtractExact(full.sumsq, del.sumsq, sumsq);
  }

  /** Retraction of a kept partial is exact and never drops the column. */
  lemma {:induction false} RetractColExact(full: ColAgg, del: ColAgg, all: Totals, gone: Totals, live: Totals)
    requires Represents(full, all) && IsFolded(del, gone)
    requires IsSum(all, gone, live) && Fits(all) && Bounded(live)
    ensures RetractCol(full, del).Some? && Represents(RetractCol(full, del).value, live)
    ensures RetractCol(full, del).value.minOff == full.minOff && RetractCol(full, del).value.maxOff == full.maxOff
  {
    RetractNumbers(full, del, live.count, live.sum, live.sumsq);
  }

  lemma {:induction false} SubtractExact(full: AggScalar, del: AggScalar, live: int)
    requires Num(full) == Num(del) + live && InI128(live) && (full.Null? ==> del.Null?)
    ensures Subtract(full, del).Some? && Num(Subtract(full, del).value) == live
    ensures Subtract(full, del).value.Null? <==> full.Null?
  {
  }

  function AddScalars(a: AggScalar, b: AggScalar): Option<AggScalar> {
    match (a, b)
    case (Int(x), Int(y)) => if InI128(x + y) then Some(Int(x + y)) else None
    case (Null, _) => Some(b)
    case (_, Null) => Some(a)
  }

  /** `merge_two_col_aggs`. */
  function MergeCols(a: ColAgg, b: ColAgg): Option<ColAgg> {
    var sum := AddScalars(a.sum, b.sum);
    var sumsq := AddScalars(a.sumsq, b.sumsq);
    if sum.None? || sumsq.None? then None
    else Some(ColAgg(a.count + b.count, sum.value, sumsq.value, None, None))
  }

  /** Merging is exact whenever the combined sum of squares fits, and otherwise drops the column. */
  lemma {:induction false} MergeColsExact(a: ColAgg, b: ColAgg, x: Totals, y: Totals, t: Totals)
    requires Represents(a, x) && Represents(b, y) && IsSum(t, x, y)
    requires Fits(x) && Fits(y) && Bounded(x) && Bounded(y) && Bounded(t)
    ensures MergeCols(a, b).Some? <==> Fits(t)
    ensures Fits(t) ==> Represents(MergeCols(a, b).value, t)
    ensures Fits(t) && IsFolded(a, x) && IsFolded(b, y) ==> IsFolded(MergeCols(a, b).value, t)
  {
    AddExact(a.sum, b.sum);
    AddExact(a.sumsq, b.sumsq);
  }

  lemma {:induction false} AddExact(a: AggScalar, b: AggScalar)
    requires InI128(Num(a)) && InI128(Num(b))
    ensures AddScalars(a, b).Some? <==> InI128(Num(a) + Num(b))
    ensures AddScalars(a, b).Some? ==> Num(AddScalars(a, b).value) == Num(a) + Num(b)
    ensures AddScalars(a, b).Some? ==> (AddScalars(a, b).value.Null? <==> a.Null? && b.Null?)
  {
  }
}
