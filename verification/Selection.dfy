// Run-length row selections built from a deletion vector
// (`deleted_contribution` and `scoped_recompute_extremum` in crates/icefalldb-core/src/agg_cache.rs,
// `DeletionVector` in crates/icefalldb-core/src/deletion.rs).
module Selection {
  import opened Collections
  import opened Permutations

  /** A deletion vector, as its ascending iterator lists it. */
  type Offsets = seq<nat>

  ghost predicate ValidOffsets(offs: Offsets, rows: nat) {
    Increasing(offs) && forall i :: 0 <= i < |offs| ==> offs[i] < rows
  }

  datatype RowSelector = Skip(n: nat) | Select(n: nat)

  /** The positions a list of selectors selects, starting at `pos`. */
  function Expand(sel: seq<RowSelector>, pos: nat): seq<nat> {
    if sel == [] then []
    else
      match sel[0]
      case Skip(n) => Expand(sel[1..], pos + n)
      case Select(n) => Interval(pos, pos + n) + Expand(sel[1..], pos + n)
  }

  function Span(sel: seq<RowSelector>): nat {
    if sel == [] then 0 else sel[0].n + Span(sel[1..])
  }

  lemma {:induction false} ExpandSnoc(sel: seq<RowSelector>, s: RowSelector, pos: nat)
    ensures Span(sel + [s]) == Span(sel) + s.n
    ensures Expand(sel + [s], pos)
         == Expand(sel, pos) + (if s.Select? then Interval(pos + Span(sel), pos + Span(sel) + s.n) else [])
  {
    if sel == [] {
      assert sel + [s] == [s] && [s][1..] == [];
    } else {
      assert (sel + [s])[1..] == sel[1..] + [s];
      ExpandSnoc(sel[1..], s, pos + sel[0].n);
    }
  }

  /** The positions below `hi` that are not deleted, ascending. */
  function LiveBelow(offs: Offsets, hi: nat): seq<nat> {
    if hi == 0 then []
    else if hi - 1 in offs then LiveBelow(offs, hi - 1)
    else LiveBelow(offs, hi - 1) + [hi - 1]
  }

  /** The deleted positions below `hi`, ascending. */
  function DeadBelow(offs: Offsets, hi: nat): seq<nat> {
    if hi == 0 then []
    else if hi - 1 in offs then DeadBelow(offs, hi - 1) + [hi - 1]
    else DeadBelow(offs, hi - 1)
  }

  lemma {:induction false} LiveMember(offs: Offsets, hi: nat, k: nat)
    ensures k in LiveBelow(offs, hi) <==> k < hi && k !in offs
  {
    if hi > 0 {
      LiveMember(offs, hi - 1, k);
    }
  }

  lemma {:induction false} LiveIncreasing(offs: Offsets, hi: nat)
    ensures Increasing(LiveBelow(offs, hi)) && InRange(LiveBelow(offs, hi), hi)
  {
    if hi > 0 {
      LiveIncreasing(offs, hi - 1);
    }
  }

  ghost predicate NoneIn(offs: Offsets, lo: nat, hi: nat) {
    forall k: nat :: k in offs ==> !(lo <= k < hi)
  }

  /** A stretch without deletions is live as a whole. */
  lemma {:induction false} LiveStretch(offs: Offsets, lo: nat, hi: nat)
    requires lo <= hi && NoneIn(offs, lo, hi)
    ensures LiveBelow(offs, hi) == LiveBelow(offs, lo) + Interval(lo, hi)
    ensures DeadBelow(offs, hi) == DeadBelow(offs, lo)
  {
    if lo < hi {
      LiveStretch(offs, lo, hi - 1);
      IntervalSnoc(lo, hi - 1);
      Assoc(LiveBelow(offs, lo), Interval(lo, hi - 1), [hi - 1]);
    }
  }

  /** Where the selection loops stand before the deletion number `i`. */
  function PosAt(offs: Offsets, i: nat): nat
    requires i <= |offs|
  {
    if i == 0 then 0 else offs[i - 1] + 1
  }

  /** Between two consecutive deletions, and after the last, nothing is deleted. */
  lemma {:induction false} GapIsLive(offs: Offsets, i: nat, hi: nat)
    requires Increasing(offs) && i <= |offs|
    requires i < |offs| ==> hi == offs[i]
    ensures i < |offs| ==> PosAt(offs, i) <= hi
    ensures NoneIn(offs, PosAt(offs, i), hi)
  {
    forall k: nat | k in offs
      ensures !(PosAt(offs, i) <= k < hi)
    {
      var j :| 0 <= j < |offs| && offs[j] == k;
    }
    if 0 < i < |offs| { assert offs[i - 1] < offs[i]; }
  }

  /** The selectors so far cover the first `pos` rows and select `chosen`. */
  /** Every selector covers a row. */
  ghost predicate NoEmptyRun(sel: seq<RowSelector>) { forall i :: 0 <= i < |sel| ==> sel[i].n > 0 }

  ghost predicate Selects(sel: seq<RowSelector>, pos: nat, chosen: seq<nat>) {
    Span(sel) == pos && Expand(sel, 0) == chosen
  }

  lemma {:induction false} SelectMore(sel: seq<RowSelector>, pos: nat, chosen: seq<nat>, n: nat)
    requires Selects(sel, pos, chosen)
    ensures Selects(sel + [Select(n)], pos + n, chosen + Interval(pos, pos + n))
    ensures Selects(sel + [Skip(n)], pos + n, chosen)
  {
    ExpandSnoc(sel, Select(n), 0);
    ExpandSnoc(sel, Skip(n), 0);
  }

  lemma {:induction false} NextDeleted(offs: Offsets, i: nat)
    requires i < |offs|
    ensures offs[..i + 1] == offs[..i] + Interval(offs[i], offs[i] + 1)
  {
    assert Interval(offs[i], offs[i] + 1) == [offs[i]];
  }

  /** The selection that reads exactly the deleted rows. */
  method DeletedSelection(offs: Offsets) returns (sel: seq<RowSelector>)
    requires Increasing(offs)
    ensures Expand(sel, 0) == offs && NoEmptyRun(sel)
    ensures sel == [] <==> offs == []
  {
    sel := [];
    var pos: nat := 0;
    for i := 0 to |offs|
      invariant pos == PosAt(offs, i) && Selects(sel, pos, offs[..i]) && NoEmptyRun(sel)
      invariant sel == [] <==> i == 0
    {
      var off := offs[i];
      GapIsLive(offs, i, off);
      if off > pos {
        SelectMore(sel, pos, offs[..i], off - pos);
        sel := sel + [Skip(off - pos)];
      }
      SelectMore(sel, off, offs[..i], 1);
      NextDeleted(offs, i);
      sel := sel + [Select(1)];
      pos := off + 1;
    }
    assert offs[..|offs|] == offs;
  }

  lemma {:induction false} NextLive(offs: Offsets, i: nat)
    requires Increasing(offs) && i < |offs|
    ensures PosAt(offs, i) <= offs[i]
    ensures LiveBelow(offs, offs[i]) == LiveBelow(offs, PosAt(offs, i)) + Interval(PosAt(offs, i), offs[i])
    ensures LiveBelow(offs, offs[i] + 1) == LiveBelow(offs, offs[i])
    ensures DeadBelow(offs, offs[i] + 1) == DeadBelow(offs, PosAt(offs, i)) + [offs[i]]
  {
    GapIsLive(offs, i, offs[i]);
    LiveStretch(offs, PosAt(offs, i), offs[i]);
    assert offs[i] in offs;
  }

  lemma {:induction false} IntervalEmpty(lo: nat)
    ensures Interval(lo, lo) == []
  {
  }

  /** The selection that reads exactly the live rows of a fragment of `rows` rows. */
  method LiveSelection(offs: Offsets, rows: nat) returns (sel: seq<RowSelector>)
    requires ValidOffsets(offs, rows)
    ensures Expand(sel, 0) == LiveBelow(offs, rows)
    ensures Span(sel) == rows && NoEmptyRun(sel)
  {
    sel := [];
    var pos: nat := 0;
    for i := 0 to |offs|
      invariant pos == PosAt(offs, i) && Selects(sel, pos, LiveBelow(offs, pos)) && NoEmptyRun(sel)
    {
      var off := offs[i];
      NextLive(offs, i);
      IntervalEmpty(off);
      if off > pos {
        SelectMore(sel, pos, LiveBelow(offs, pos), off - pos);
        sel := sel + [Select(off - pos)];
      }
      SelectMore(sel, off, LiveBelow(offs, off), 1);
      sel := sel + [Skip(1)];
      pos := off + 1;
    }
    GapIsLive(offs, |offs|, rows);
    LiveStretch(offs, pos, rows);
    IntervalEmpty(rows);
    if pos < rows {
      SelectMore(sel, pos, LiveBelow(offs, pos), rows - pos);
      sel := sel + [Select(rows - pos)];
    }
  }

  lemma {:induction false} DeadPrefix(offs: Offsets, i: nat)
    requires Increasing(offs) && i <= |offs|
    ensures DeadBelow(offs, PosAt(offs, i)) == offs[..i]
  {
    if i > 0 {
      DeadPrefix(offs, i - 1);
      NextLive(offs, i - 1);
      assert offs[..i] == offs[..i - 1] + [offs[i - 1]];
    }
  }

  lemma {:induction false} IotaLast(n: nat)
    ensures Iota(n + 1) == Iota(n) + [n]
  {
  }

  ghost predicate Splits(dead: seq<nat>, live: seq<nat>, all: seq<nat>) {
    multiset(dead) + multiset(live) == multiset(all)
  }

  lemma {:induction false} SplitsMore(dead: seq<nat>, live: seq<nat>, all: seq<nat>, x: nat)
    requires Splits(dead, live, all)
    ensures Splits(dead + [x], live, all + [x]) && Splits(dead, live + [x], all + [x])
  {
  }

  lemma {:induction false} PartitionBelow(offs: Offsets, hi: nat)
    ensures Splits(DeadBelow(offs, hi), LiveBelow(offs, hi), Iota(hi))
  {
    if hi == 0 {
      assert Iota(0) == [];
    } else {
      PartitionBelow(offs, hi - 1);
      IotaLast(hi - 1);
      SplitsMore(DeadBelow(offs, hi - 1), LiveBelow(offs, hi - 1), Iota(hi - 1), hi - 1);
    }
  }

  /** The two selections are exact complements: together they list every row exactly once. */
  lemma {:induction false} SelectionsAreComplements(offs: Offsets, rows: nat)
    requires ValidOffsets(offs, rows)
    ensures multiset(offs) + multiset(LiveBelow(offs, rows)) == multiset(Iota(rows))
    ensures forall k: nat :: k < rows ==> (k in offs <==> k !in LiveBelow(offs, rows))
  {
    var pos := PosAt(offs, |offs|);
    GapIsLive(offs, |offs|, rows);
    LiveStretch(offs, pos, rows);
    DeadPrefix(offs, |offs|);
    assert offs[..|offs|] == offs;
    PartitionBelow(offs, rows);
    forall k: nat | k < rows
      ensures k in offs <==> k !in LiveBelow(offs, rows)
    {
      LiveMember(offs, rows, k);
    }
  }

  /** The rows a reader returns for the deleted offsets, and for the live ones. */
  function DeletedRows<T>(xs: seq<T>, offs: Offsets): seq<T>
    requires InRange(offs, |xs|)
  {
    Take(xs, offs)
  }

  /** Read the deleted rows through their selection. */
  method ReadDeleted<T>(xs: seq<T>, offs: Offsets) returns (rows: seq<T>)
    requires ValidOffsets(offs, |xs|)
    ensures InRange(offs, |xs|) && rows == DeletedRows(xs, offs)
  {
    var sel := DeletedSelection(offs);
    rows := Take(xs, Expand(sel, 0));
  }

  function LiveRows<T>(xs: seq<T>, offs: Offsets): seq<T> {
    LiveIncreasing(offs, |xs|);
    Take(xs, LiveBelow(offs, |xs|))
  }

  /** Deleted and live rows together are all rows. */
  lemma {:induction false} RowsSplit<T>(xs: seq<T>, offs: Offsets)
    requires ValidOffsets(offs, |xs|)
    ensures InRange(offs, |xs|)
    ensures multiset(DeletedRows(xs, offs) + LiveRows(xs, offs)) == multiset(xs)
  {
    LiveIncreasing(offs, |xs|);
    SelectionsAreComplements(offs, |xs|);
    var live := LiveBelow(offs, |xs|);
    TakeConcat(xs, offs, live);
    TakePermutation(xs, offs + live, Iota(|xs|));
    TakeIota(xs);
  }

  lemma {:induction false} TakeConcat<T>(s: seq<T>, p: seq<nat>, q: seq<nat>)
    requires InRange(p, |s|) && InRange(q, |s|)
    ensures InRange(p + q, |s|) && Take(s, p + q) == Take(s, p) + Take(s, q)
  {
  }
}
