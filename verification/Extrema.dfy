// Minimum and maximum of a column under deletions
// (`extremum_deleted` and `scoped_recompute_extremum` in crates/icefalldb-core/src/agg_cache.rs,
// `resolve_live_extrema` in crates/icefalldb-core/src/reader.rs).
module Extrema {
  import opened Collections
  import opened Permutations
  import opened Selection
  import opened AggPartials
  import opened MachineIntegers

  /** `v` is the extremum of the non-null cells of `c`. */
  ghost predicate IsExtremum(c: Column, kind: ExtremumKind, v: int) {
    && Some(v) in c
    && forall i :: 0 <= i < |c| && c[i].Some? ==> Badness(kind, v) <= Badness(kind, c[i].value)
  }

  lemma {:induction false} ExtremumIsUnique(c: Column, kind: ExtremumKind, v: int, w: int)
    requires IsExtremum(c, kind, v) && IsExtremum(c, kind, w)
    ensures v == w
  {
    var i :| 0 <= i < |c| && c[i] == Some(v);
    var j :| 0 <= j < |c| && c[j] == Some(w);
  }

  function ExtremalOffset(a: ColAgg, kind: ExtremumKind): Option<nat> {
    if kind.Min? then a.minOff else a.maxOff
  }

  /** `extremum_deleted`: an unknown offset counts as not deleted. */
  predicate ExtremumDeleted(a: ColAgg, offs: Offsets, kind: ExtremumKind) {
    var off := ExtremalOffset(a, kind);
    off.Some? && off.value in offs
  }

  lemma {:induction false} LiveCell(c: Column, offs: Offsets, i: nat)
    requires i < |c| && i !in offs
    ensures c[i] in LiveRows(c, offs)
  {
    LiveMember(offs, |c|, i);
    LiveIncreasing(offs, |c|);
    var k :| 0 <= k < |LiveBelow(offs, |c|)| && LiveBelow(offs, |c|)[k] == i;
    assert LiveRows(c, offs)[k] == c[i];
  }

  lemma {:induction false} LiveIsCell(c: Column, offs: Offsets, k: nat)
    requires k < |LiveRows(c, offs)|
    ensures exists i :: 0 <= i < |c| && i !in offs && c[i] == LiveRows(c, offs)[k]
  {
    LiveIncreasing(offs, |c|);
    var i := LiveBelow(offs, |c|)[k];
    assert i in LiveBelow(offs, |c|);
    LiveMember(offs, |c|, i);
  }

  /** An extremal row that was not deleted still holds the extremum of the live rows. */
  lemma {:induction false} SurvivingExtremum(c: Column, kind: ExtremumKind, off: nat, offs: Offsets)
    requires IsExtremal(c, kind, Some(off)) && off !in offs
    ensures IsExtremum(LiveRows(c, offs), kind, c[off].value)
    ensures IsExtremum(c, kind, c[off].value)
  {
    LiveCell(c, offs, off);
    forall k | 0 <= k < |LiveRows(c, offs)| && LiveRows(c, offs)[k].Some?
      ensures Badness(kind, c[off].value) <= Badness(kind, LiveRows(c, offs)[k].value)
    {
      LiveIsCell(c, offs, k);
    }
  }

  /** The JSON number an extremum is reported as: only 0..u64::MAX is representable. */
  function Report(v: Option<int>): Option<int> {
    if v.None? then None
    else if 0 <= v.value <= I64_MAX then Some(v.value)
    else if I64_MAX < v.value <= U64_MAX then Some(v.value)
    else None
  }

  /** The fold over the surviving rows. */
  method FoldExtremum(c: Column, kind: ExtremumKind) returns (current: Option<int>)
    ensures current.Some? ==> IsExtremum(c, kind, current.value)
    ensures current.None? ==> forall i :: 0 <= i < |c| ==> c[i].None?
  {
    current := None;
    for i := 0 to |c|
      invariant current.Some? ==> IsExtremum(c[..i], kind, current.value)
      invariant current.None? ==> forall k :: 0 <= k < i ==> c[k].None?
    {
      ghost var before := current;
      if c[i].Some? {
        var v := c[i].value;
        if current.None? {
          current := Some(v);
        } else if kind.Min? {
          current := Some(if v < current.value then v else current.value);
        } else {
          current := Some(if v > current.value then v else current.value);
        }
      }
      ExtremumStep(c, i, kind, before, current);
    }
    assert c[..|c|] == c;
  }

  lemma {:induction false} ExtremumStep(c: Column, i: nat, kind: ExtremumKind, before: Option<int>, after: Option<int>)
    requires i < |c|
    requires before.Some? ==> IsExtremum(c[..i], kind, before.value)
    requires before.None? ==> forall k :: 0 <= k < i ==> c[k].None?
    requires c[i].None? ==> after == before
    requires c[i].Some? ==> after.Some? && (after.value == c[i].value || Some(after.value) == before)
    requires c[i].Some? ==> Badness(kind, after.value) <= Badness(kind, c[i].value)
    requires c[i].Some? && before.Some? ==> Badness(kind, after.value) <= Badness(kind, before.value)
    ensures after.Some? ==> IsExtremum(c[..i + 1], kind, after.value)
  {
    var d := c[..i + 1];
    assert d == c[..i] + [c[i]];
    if after.Some? {
      forall k | 0 <= k < |d| && d[k].Some?
        ensures Badness(kind, after.value) <= Badness(kind, d[k].value)
      {
        if k < i { assert d[k] == c[..i][k]; }
      }
      assert Some(after.value) in d;
    }
  }

  /** `scoped_recompute_extremum` on an integer column: read the survivors, fold, report.
      It answers exactly when there is a live extremum in 0..u64::MAX. */
  method ScopedRecompute(c: Column, offs: Offsets, kind: ExtremumKind) returns (r: Option<int>)
    requires ValidOffsets(offs, |c|)
    ensures r.Some? ==> IsExtremum(LiveRows(c, offs), kind, r.value) && 0 <= r.value <= U64_MAX
    ensures r.None? ==> forall v: int :: IsExtremum(LiveRows(c, offs), kind, v) ==> !(0 <= v <= U64_MAX)
  {
    var sel := LiveSelection(offs, |c|);
    LiveIncreasing(offs, |c|);
    var live := Take(c, Expand(sel, 0));
    var current := FoldExtremum(live, kind);
    r := Report(current);
    if current.Some? {
      forall v: int | IsExtremum(live, kind, v)
        ensures v == current.value
      {
        ExtremumIsUnique(live, kind, v, current.value);
      }
    }
  }

  /** A live row holds the value. */
  ghost predicate HeldByLiveRow(c: Column, offs: Offsets, v: int) { Some(v) in LiveRows(c, offs) }

  /** A statistic of the whole column is that of the live rows exactly when a live row holds it. */
  lemma {:induction false} StatisticOfLiveRows(c: Column, offs: Offsets, kind: ExtremumKind, v: int)
    requires IsExtremum(c, kind, v)
    ensures IsExtremum(LiveRows(c, offs), kind, v) <==> HeldByLiveRow(c, offs, v)
  {
    forall k | 0 <= k < |LiveRows(c, offs)| && LiveRows(c, offs)[k].Some?
      ensures Badness(kind, v) <= Badness(kind, LiveRows(c, offs)[k].value)
    {
      LiveIsCell(c, offs, k);
    }
  }

  /** `resolve_live_extrema`: keep the column statistic unless the extremal row is known to be deleted.
      Whatever it reports is the live extremum, if and only if the offset of the extremal row is known, or
      there is no statistic, or a live row still holds it. */
  method ResolveExtremum(c: Column, offs: Offsets, kind: ExtremumKind, a: ColAgg, stat: Option<int>)
    returns (r: Option<int>)
    requires ValidOffsets(offs, |c|)
    requires ExtremalOffset(a, kind).Some? ==> IsExtremal(c, kind, ExtremalOffset(a, kind))
    requires stat.Some? ==> IsExtremum(c, kind, stat.value)
    ensures (r.Some? ==> IsExtremum(LiveRows(c, offs), kind, r.value)) <==>
            ExtremalOffset(a, kind).Some? || stat.None? || HeldByLiveRow(c, offs, stat.value)
    ensures var off := if kind == Min then a.minOff else a.maxOff;
            off.None? || off.value !in offs ==> r == stat
    ensures var off := if kind == Min then a.minOff else a.maxOff;
            off.Some? && off.value in offs ==>
              forall v: int :: IsExtremum(LiveRows(c, offs), kind, v) ==> (r == Some(v) <==> 0 <= v <= U64_MAX)
  {
    if ExtremumDeleted(a, offs, kind) {
      r := ScopedRecompute(c, offs, kind);
      forall v: int | IsExtremum(LiveRows(c, offs), kind, v)
        ensures r == Some(v) <==> 0 <= v <= U64_MAX
      {
        if r.Some? { ExtremumIsUnique(LiveRows(c, offs), kind, v, r.value); }
      }
    } else {
      r := stat;
      var off := ExtremalOffset(a, kind);
      if off.Some? {
        SurvivingExtremum(c, kind, off.value, offs);
        if stat.Some? {
          ExtremumIsUnique(c, kind, stat.value, c[off.value].value);
        }
      } else if stat.Some? {
        StatisticOfLiveRows(c, offs, kind, stat.value);
      }
    }
  }

  /** Without an offset, as in a sidecar written before offsets existed, the minimum of a deleted row is
      reported although the live minimum is another. */
  method DeletedMinimumIsReported() returns (c: Column, a: ColAgg, r: Option<int>)
    ensures ExtremalOffset(a, Min).None? && c == [Some(1), Some(2)]
    ensures r == Some(1) && IsExtremum(LiveRows(c, [0]), Min, 2)
  {
    c, a := [Some(1), Some(2)], ColAgg(2, Int(3), Int(5), None, None);
    assert c[0] == Some(1);
    LiveOfFirst(c);
    r := ResolveExtremum(c, [0], Min, a, Some(1));
  }

  lemma {:induction false} LiveOfFirst(c: Column)
    requires c == [Some(1), Some(2)]
    ensures LiveRows(c, [0]) == [Some(2)] && IsExtremum(LiveRows(c, [0]), Min, 2)
  {
    var offs: Offsets := [0];
    assert LiveBelow(offs, 0) == [] && 0 in offs && 1 !in offs;
    assert LiveBelow(offs, 1) == [] && LiveBelow(offs, 2) == [1];
    LiveIncreasing(offs, 2);
    assert LiveRows(c, offs)[0] == c[1];
  }

  /** Contrary to its documentation, the recomputation reports nothing for a negative extremum. */
  lemma {:induction false} NegativeExtremumIsNotReported(v: int)
    requires v < 0
    ensures IsExtremum([Some(v)], Min, v) && Report(Some(v)) == None
  {
    assert [Some(v)][0] == Some(v);
  }
}
