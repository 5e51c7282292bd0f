// The row-level effect of compaction without sort keys: filter deleted rows, order by row id,
// re-chunk through the streaming builder, keep the ids aligned, encode them
// (phases 1-3 of `compact_attempt` in crates/icefalldb-core/src/compaction.rs).
module Compaction {
  import opened Collections
  import opened RowIds
  import opened Builder
  import opened Permutations
  import opened MachineIntegers

  /** A fragment as the scan plan sees it. `batches` is what the reader streams, `deletes` its
      deletion vector. Partition values are only compared and ordered, so they are numbers here. */
  datatype Fragment<+R> = Fragment(
    fragmentId: nat,
    partition: nat,
    batches: seq<seq<R>>,
    rowIds: seq<RowIdSegment>,
    deletes: Option<set<nat>>)

  function PhysicalRows<R>(f: Fragment<R>): seq<R> { Flatten(f.batches) }

  function Ids<R>(f: Fragment<R>): seq<RowId> { DecodeSegments(f.rowIds) }

  function DeadSet(deletes: Option<set<nat>>): set<nat> {
    if deletes.Some? then deletes.value else {}
  }

  function Dead<R>(f: Fragment<R>): set<nat> { DeadSet(f.deletes) }

  /** Every physical row has a row id, and all ids are below u64::MAX. */
  ghost predicate Covered<R>(f: Fragment<R>) {
    && |Ids(f)| == |PhysicalRows(f)|
    && forall i :: 0 <= i < |Ids(f)| ==> Ids(f)[i] < U64_MAX
  }

  /** Pair up ids and rows, as far as both go. */
  function Pairs<R>(ids: seq<RowId>, rows: seq<R>): seq<(RowId, R)> {
    if ids == [] || rows == [] then [] else [(ids[0], rows[0])] + Pairs(ids[1..], rows[1..])
  }

  /** The elements of `xs` whose physical offset, counted from `offset`, is not deleted. */
  function Survivors<T>(xs: seq<T>, dead: set<nat>, offset: nat): seq<T> {
    if xs == [] then []
    else if offset in dead then Survivors(xs[1..], dead, offset + 1)
    else [xs[0]] + Survivors(xs[1..], dead, offset + 1)
  }

  /** What a fragment means: its live rows, each with its row id, in physical order. */
  function Live<R>(f: Fragment<R>): seq<(RowId, R)> {
    Survivors(Pairs(Ids(f), PhysicalRows(f)), Dead(f), 0)
  }

  function LiveOf<R>(fs: seq<Fragment<R>>): seq<(RowId, R)> {
    if fs == [] then [] else Live(fs[0]) + LiveOf(fs[1..])
  }

  function PhysicalCount<R>(fs: seq<Fragment<R>>): nat {
    if fs == [] then 0 else |PhysicalRows(fs[0])| + PhysicalCount(fs[1..])
  }

  function IdsOf<R>(fs: seq<Fragment<R>>): seq<RowId> {
    if fs == [] then [] else Ids(fs[0]) + IdsOf(fs[1..])
  }

  function FirstOf<R>(ps: seq<(RowId, R)>): seq<RowId> {
    if ps == [] then [] else [ps[0].0] + FirstOf(ps[1..])
  }

  // ---- lemmas about the vocabulary ----

  lemma {:induction false} PairsLength<R>(ids: seq<RowId>, rows: seq<R>)
    requires |ids| == |rows|
    ensures |Pairs(ids, rows)| == |ids|
    ensures forall i :: 0 <= i < |ids| ==> Pairs(ids, rows)[i] == (ids[i], rows[i])
  {
    if ids != [] {
      PairsLength(ids[1..], rows[1..]);
      forall i | 0 < i < |ids|
        ensures Pairs(ids, rows)[i] == (ids[i], rows[i])
      {
        assert Pairs(ids, rows)[i] == Pairs(ids[1..], rows[1..])[i - 1];
      }
    }
  }

  lemma {:induction false} PairsConcat<R>(a: seq<RowId>, x: seq<R>, b: seq<RowId>, y: seq<R>)
    requires |a| == |x|
    ensures Pairs(a + b, x + y) == Pairs(a, x) + Pairs(b, y)
  {
    if a == [] {
      assert a + b == b && x + y == y;
    } else {
      assert (a + b)[1..] == a[1..] + b && (x + y)[1..] == x[1..] + y;
      PairsConcat(a[1..], x[1..], b, y);
    }
  }

  lemma {:induction false} SurvivorsConcat<T>(a: seq<T>, b: seq<T>, dead: set<nat>, offset: nat)
    ensures Survivors(a + b, dead, offset) == Survivors(a, dead, offset) + Survivors(b, dead, offset + |a|)
  {
    if a == [] {
      assert a + b == b;
    } else {
      assert (a + b)[1..] == a[1..] + b;
      SurvivorsConcat(a[1..], b, dead, offset + 1);
    }
  }

  lemma {:induction false} SurvivorsOfNone<T>(xs: seq<T>, offset: nat)
    ensures Survivors(xs, {}, offset) == xs
  {
    if xs != [] {
      SurvivorsOfNone(xs[1..], offset + 1);
    }
  }

  lemma {:induction false} SurvivorsOfPairs<R>(ids: seq<RowId>, rows: seq<R>, dead: set<nat>, offset: nat)
    requires |ids| == |rows|
    ensures |Survivors(ids, dead, offset)| == |Survivors(rows, dead, offset)|
    ensures Pairs(Survivors(ids, dead, offset), Survivors(rows, dead, offset))
         == Survivors(Pairs(ids, rows), dead, offset)
  {
    if ids != [] {
      SurvivorsOfPairs(ids[1..], rows[1..], dead, offset + 1);
      var a, x := Survivors(ids[1..], dead, offset + 1), Survivors(rows[1..], dead, offset + 1);
      assert Pairs(ids, rows)[1..] == Pairs(ids[1..], rows[1..]);
      if offset !in dead {
        PairsConcat([ids[0]], [rows[0]], a, x);
        assert Pairs([ids[0]], [rows[0]]) == [(ids[0], rows[0])];
      }
    }
  }

  lemma {:induction false} LiveOfConcat<R>(a: seq<Fragment<R>>, b: seq<Fragment<R>>)
    ensures LiveOf(a + b) == LiveOf(a) + LiveOf(b)
  {
    if a == [] {
      assert a + b == b;
    } else {
      assert (a + b)[1..] == a[1..] + b;
      LiveOfConcat(a[1..], b);
      Assoc(Live(a[0]), LiveOf(a[1..]), LiveOf(b));
    }
  }

  lemma {:induction false} IdsOfConcat<R>(a: seq<Fragment<R>>, b: seq<Fragment<R>>)
    ensures IdsOf(a + b) == IdsOf(a) + IdsOf(b)
    ensures PhysicalCount(a + b) == PhysicalCount(a) + PhysicalCount(b)
  {
    if a == [] {
      assert a + b == b;
    } else {
      assert (a + b)[1..] == a[1..] + b;
      IdsOfConcat(a[1..], b);
      Assoc(Ids(a[0]), IdsOf(a[1..]), IdsOf(b));
    }
  }

  lemma {:induction false} LiveOfSnoc<R>(a: seq<Fragment<R>>, f: Fragment<R>)
    ensures LiveOf(a + [f]) == LiveOf(a) + Live(f)
    ensures IdsOf(a + [f]) == IdsOf(a) + Ids(f)
    ensures PhysicalCount(a + [f]) == PhysicalCount(a) + |PhysicalRows(f)|
  {
    LiveOfConcat(a, [f]);
    IdsOfConcat(a, [f]);
    assert [f][1..] == [];
  }

  lemma {:induction false} FirstOfPairs<R>(ids: seq<RowId>, rows: seq<R>)
    requires |ids| == |rows|
    ensures FirstOf(Pairs(ids, rows)) == ids
  {
    if ids != [] {
      FirstOfPairs(ids[1..], rows[1..]);
      assert Pairs(ids, rows)[1..] == Pairs(ids[1..], rows[1..]);
    }
  }

  // ---- phase 1: collect the live rows ----

  /** `filter_live_rows`: without a deletion vector everything survives. */
  function FilterLiveRows<R>(rows: seq<R>, deletes: Option<set<nat>>, ids: seq<RowId>, offset: nat)
    : (seq<R>, seq<RowId>)
  {
    match deletes
    case None => (rows, ids)
    case Some(dead) => (Survivors(rows, dead, offset), Survivors(ids, dead, offset))
  }

  /** `filter_live_rows` filters rows and ids alike. */
  lemma {:induction false} FilterMeaning<R>(rows: seq<R>, deletes: Option<set<nat>>, ids: seq<RowId>, offset: nat)
    requires |rows| == |ids|
    ensures var (r, d) := FilterLiveRows(rows, deletes, ids, offset);
            && r == Survivors(rows, DeadSet(deletes), offset)
            && d == Survivors(ids, DeadSet(deletes), offset)
            && |r| == |d| && Pairs(d, r) == Survivors(Pairs(ids, rows), DeadSet(deletes), offset)
  {
    SurvivorsOfNone(rows, offset);
    SurvivorsOfNone(ids, offset);
    SurvivorsOfPairs(ids, rows, DeadSet(deletes), offset);
  }

  /** Where a batch comes from. */
  datatype Source = Streamed(fragmentId: nat, batch: nat) | Taken(partition: nat)

  /** What memory the arrays of a batch are reported to take. */
  type Meter<!R> = (Source, seq<R>) -> nat

  function BatchRows<R>(batches: seq<Batch<R>>): seq<R> {
    if batches == [] then [] else batches[0].rows + BatchRows(batches[1..])
  }

  lemma {:induction false} BatchRowsConcat<R>(a: seq<Batch<R>>, b: seq<Batch<R>>)
    ensures BatchRows(a + b) == BatchRows(a) + BatchRows(b)
  {
    if a == [] {
      assert a + b == b;
    } else {
      assert (a + b)[1..] == a[1..] + b;
      BatchRowsConcat(a[1..], b);
    }
  }

  lemma {:induction false} BatchRowsSnoc<R>(a: seq<Batch<R>>, b: Batch<R>)
    ensures BatchRows(a + [b]) == BatchRows(a) + b.rows
  {
    BatchRowsConcat(a, [b]);
    assert [b][1..] == [];
  }

  lemma {:induction false} OneBatch<R>(b: Batch<R>)
    ensures BatchRows([b]) == b.rows
  {
    assert [b][1..] == [];
  }

  /** The live part of the first `i` batches, as ids and as rows. */
  ghost predicate Collected<R>(f: Fragment<R>, i: nat, ids: seq<RowId>, rows: seq<R>)
    requires i <= |f.batches|
  {
    var seen := Flatten(f.batches[..i]);
    && |seen| <= |Ids(f)|
    && ids == Survivors(Ids(f)[..|seen|], Dead(f), 0)
    && rows == Survivors(seen, Dead(f), 0)
  }

  lemma {:induction false} FlattenPrefix<T>(ss: seq<seq<T>>, i: nat)
    requires i < |ss|
    ensures Flatten(ss[..i + 1]) == Flatten(ss[..i]) + ss[i]
    ensures |Flatten(ss[..i + 1])| <= |Flatten(ss)|
  {
    assert ss[..i + 1] == ss[..i] + [ss[i]];
    FlattenSnoc(ss[..i], ss[i]);
    assert ss == ss[..i + 1] + ss[i + 1..];
    FlattenConcat(ss[..i + 1], ss[i + 1..]);
  }

  lemma {:induction false} CollectStep<R>(f: Fragment<R>, i: nat, ids: seq<RowId>, rows: seq<R>, offset: nat)
    requires Covered(f) && i < |f.batches| && Collected(f, i, ids, rows)
    requires offset == |Flatten(f.batches[..i])|
    ensures offset + |f.batches[i]| <= |Ids(f)|
    ensures var (liveRows, liveIds) :=
              FilterLiveRows(f.batches[i], f.deletes, Ids(f)[offset..offset + |f.batches[i]|], offset);
            Collected(f, i + 1, ids + liveIds, rows + liveRows) && (liveRows == [] ==> liveIds == [])
  {
    FlattenPrefix(f.batches, i);
    var n := |f.batches[i]|;
    var slice := Ids(f)[offset..offset + n];
    FilterMeaning(f.batches[i], f.deletes, slice, offset);
    SurvivorsNextSlice(Ids(f), offset, n, Dead(f));
    SurvivorsConcat(Flatten(f.batches[..i]), f.batches[i], Dead(f), 0);
  }

  lemma {:induction false} SurvivorsNextSlice<T>(xs: seq<T>, offset: nat, n: nat, dead: set<nat>)
    requires offset + n <= |xs|
    ensures Survivors(xs[..offset + n], dead, 0)
         == Survivors(xs[..offset], dead, 0) + Survivors(xs[offset..offset + n], dead, offset)
  {
    assert xs[..offset + n] == xs[..offset] + xs[offset..offset + n];
    SurvivorsConcat(xs[..offset], xs[offset..offset + n], dead, 0);
  }

  /** The live part of the first `i` batches of a fragment; a batch without live rows is skipped. */
  function StreamedBatches<R>(f: Fragment<R>, i: nat, meter: Meter<R>): seq<Batch<R>>
    requires i <= |f.batches|
  {
    if i == 0 then []
    else
      var rows := Survivors(f.batches[i - 1], Dead(f), |Flatten(f.batches[..i - 1])|);
      StreamedBatches(f, i - 1, meter)
      + if rows == [] then [] else [Batch(rows, meter(Streamed(f.fragmentId, i - 1), rows))]
  }

  lemma {:induction false} StreamStep<R>(f: Fragment<R>, i: nat, offset: nat, rows: seq<R>, meter: Meter<R>)
    requires i < |f.batches| && offset == |Flatten(f.batches[..i])| && rows == Survivors(f.batches[i], Dead(f), offset)
    ensures StreamedBatches(f, i + 1, meter)
         == StreamedBatches(f, i, meter)
            + if rows == [] then [] else [Batch(rows, meter(Streamed(f.fragmentId, i), rows))]
  {
  }

  function StreamedOf<R>(fs: seq<Fragment<R>>, meter: Meter<R>): seq<Batch<R>> {
    if fs == [] then [] else StreamedBatches(fs[0], |fs[0].batches|, meter) + StreamedOf(fs[1..], meter)
  }

  lemma {:induction false} StreamedOfSnoc<R>(fs: seq<Fragment<R>>, f: Fragment<R>, meter: Meter<R>)
    ensures StreamedOf(fs + [f], meter) == StreamedOf(fs, meter) + StreamedBatches(f, |f.batches|, meter)
  {
    var last := StreamedBatches(f, |f.batches|, meter);
    if fs == [] {
      assert [f][1..] == [] && fs + [f] == [f];
      EmptyRight(last);
      EmptyLeft(last);
    } else {
      assert (fs + [f])[1..] == fs[1..] + [f];
      StreamedOfSnoc(fs[1..], f, meter);
      Assoc(StreamedBatches(fs[0], |fs[0].batches|, meter), StreamedOf(fs[1..], meter), last);
    }
  }

  /** Stream one fragment: its live ids and rows, aligned, and the number of physical rows read. */
  method CollectFragment<R>(f: Fragment<R>, meter: Meter<R>)
    returns (batches: seq<Batch<R>>, ids: seq<RowId>, inputRows: nat)
    requires Covered(f)
    ensures batches == StreamedBatches(f, |f.batches|, meter)
    ensures |ids| == |BatchRows(batches)| && Pairs(ids, BatchRows(batches)) == Live(f)
    ensures inputRows == |PhysicalRows(f)|
  {
    batches, ids, inputRows := [], [], 0;
    assert f.batches[..0] == [];
    for i := 0 to |f.batches|
      invariant inputRows == |Flatten(f.batches[..i])|
      invariant Collected(f, i, ids, BatchRows(batches)) && batches == StreamedBatches(f, i, meter)
    {
      CollectStep(f, i, ids, BatchRows(batches), inputRows);
      FlattenPrefix(f.batches, i);
      var n := |f.batches[i]|;
      var (liveRows, liveIds) :=
        FilterLiveRows(f.batches[i], f.deletes, Ids(f)[inputRows..inputRows + n], inputRows);
      FilterMeaning(f.batches[i], f.deletes, Ids(f)[inputRows..inputRows + n], inputRows);
      StreamStep(f, i, inputRows, liveRows, meter);
      inputRows := inputRows + n;
      if |liveRows| > 0 {
        var batch := Batch(liveRows, meter(Streamed(f.fragmentId, i), liveRows));
        BatchRowsSnoc(batches, batch);
        batches := batches + [batch];
        ids := ids + liveIds;
      } else {
        EmptyRight(ids);
        EmptyRight(batches);
        EmptyRight(BatchRows(batches));
      }
    }
    assert f.batches[..|f.batches|] == f.batches;
    assert Ids(f)[..|Ids(f)|] == Ids(f);
    SurvivorsOfPairs(Ids(f), PhysicalRows(f), Dead(f), 0);
  }

  ghost predicate AllCovered<R>(fs: seq<Fragment<R>>) {
    forall i :: 0 <= i < |fs| ==> Covered(fs[i])
  }

  lemma {:induction false} NextFragment<R>(fs: seq<Fragment<R>>, i: nat, meter: Meter<R>)
    requires i < |fs|
    ensures StreamedOf(fs[..i + 1], meter)
         == StreamedOf(fs[..i], meter) + StreamedBatches(fs[i], |fs[i].batches|, meter)
    ensures LiveOf(fs[..i + 1]) == LiveOf(fs[..i]) + Live(fs[i])
    ensures PhysicalCount(fs[..i + 1]) == PhysicalCount(fs[..i]) + |PhysicalRows(fs[i])|
  {
    assert fs[..i + 1] == fs[..i] + [fs[i]];
    StreamedOfSnoc(fs[..i], fs[i], meter);
    LiveOfSnoc(fs[..i], fs[i]);
  }

  method CollectLive<R>(fs: seq<Fragment<R>>, meter: Meter<R>)
    returns (batches: seq<Batch<R>>, ids: seq<RowId>, inputRows: nat)
    requires AllCovered(fs)
    ensures batches == StreamedOf(fs, meter)
    ensures |ids| == |BatchRows(batches)| && Pairs(ids, BatchRows(batches)) == LiveOf(fs)
    ensures inputRows == PhysicalCount(fs)
  {
    batches, ids, inputRows := [], [], 0;
    for i := 0 to |fs|
      invariant |ids| == |BatchRows(batches)| && Pairs(ids, BatchRows(batches)) == LiveOf(fs[..i])
      invariant inputRows == PhysicalCount(fs[..i]) && batches == StreamedOf(fs[..i], meter)
    {
      var b, d, n := CollectFragment(fs[i], meter);
      NextFragment(fs, i, meter);
      PairsConcat(ids, BatchRows(batches), d, BatchRows(b));
      BatchRowsConcat(batches, b);
      batches, ids, inputRows := batches + b, ids + d, inputRows + n;
    }
    assert fs[..|fs|] == fs;
  }

  // ---- phase 2: order by row id ----

  lemma {:induction false} PairsTake<R>(ids: seq<RowId>, rows: seq<R>, perm: seq<nat>)
    requires |ids| == |rows| && InRange(perm, |ids|)
    ensures |Pairs(ids, rows)| == |ids|
    ensures Pairs(Take(ids, perm), Take(rows, perm)) == Take(Pairs(ids, rows), perm)
  {
    PairsLength(ids, rows);
    PairsLength(Take(ids, perm), Take(rows, perm));
  }

  lemma {:induction false} PermutedPairs<R>(ids: seq<RowId>, rows: seq<R>, perm: seq<nat>)
    requires |ids| == |rows| && InRange(perm, |ids|) && multiset(perm) == multiset(Iota(|ids|))
    ensures multiset(Pairs(Take(ids, perm), Take(rows, perm))) == multiset(Pairs(ids, rows))
    ensures multiset(Take(ids, perm)) == multiset(ids)
  {
    PairsTake(ids, rows, perm);
    TakePermutation(Pairs(ids, rows), perm, Iota(|ids|));
    TakePermutation(ids, perm, Iota(|ids|));
    TakeIota(Pairs(ids, rows));
    TakeIota(ids);
  }

  function TakenBatch<R>(rows: seq<R>, partition: nat, meter: Meter<R>): Batch<R> {
    Batch(rows, meter(Taken(partition), rows))
  }

  /** Sorting distinct keys that are in order moves nothing. */
  lemma {:induction false} InOrder(ids: seq<RowId>, perm: seq<nat>)
    requires Ascending(ids) && Distinct(ids) && InRange(perm, |ids|)
    requires multiset(perm) == multiset(Iota(|ids|)) && Ascending(Permutations.Take(ids, perm))
    ensures perm == Iota(|ids|)
  {
    TakePermutation(ids, perm, Iota(|ids|));
    TakeIota(ids);
    SortedOnce(Permutations.Take(ids, perm), ids);
    forall k | 0 <= k < |perm|
      ensures perm[k] == k
    {
      assert ids[perm[k]] == ids[k];
    }
  }

  lemma {:induction false} SmallestFirst(a: seq<nat>, x: nat)
    requires Ascending(a) && x in a
    ensures a[0] <= x
  {
  }

  lemma {:induction false} SameTails(a: seq<nat>, b: seq<nat>)
    requires multiset(a) == multiset(b) && a != [] && b != [] && a[0] == b[0]
    ensures multiset(a[1..]) == multiset(b[1..])
  {
    RemoveAt(a, 0);
    RemoveAt(b, 0);
    assert a[..0] + a[1..] == a[1..] && b[..0] + b[1..] == b[1..];
  }

  lemma {:induction false} AscendingTail(a: seq<nat>)
    requires Ascending(a) && a != []
    ensures Ascending(a[1..])
  {
    assert forall i :: 0 <= i < |a| - 1 ==> a[1..][i] == a[i + 1];
  }

  /** There is one way to order a multiset. */
  lemma {:induction false} SortedOnce(a: seq<nat>, b: seq<nat>)
    requires multiset(a) == multiset(b) && Ascending(a) && Ascending(b)
    ensures a == b
  {
    if a == [] {
      assert |multiset(b)| == 0;
    } else {
      assert a[0] in multiset(b);
      assert b[0] in multiset(a);
      SmallestFirst(a, b[0]);
      SmallestFirst(b, a[0]);
      SameTails(a, b);
      AscendingTail(a);
      AscendingTail(b);
      SortedOnce(a[1..], b[1..]);
      assert a == [a[0]] + a[1..] && b == [b[0]] + b[1..];
    }
  }

  /** Rows that are in order stay as they were streamed; others are taken into one batch. */
  method SortByRowId<R>(batches: seq<Batch<R>>, ids: seq<RowId>, partition: nat, meter: Meter<R>)
    returns (sortedBatches: seq<Batch<R>>, sortedIds: seq<RowId>)
    requires |ids| == |BatchRows(batches)|
    ensures |sortedIds| == |BatchRows(sortedBatches)|
    ensures multiset(Pairs(sortedIds, BatchRows(sortedBatches))) == multiset(Pairs(ids, BatchRows(batches)))
    ensures multiset(sortedIds) == multiset(ids) && Ascending(sortedIds)
    ensures Ascending(ids) && Distinct(ids) ==> sortedBatches == batches
    ensures !Ascending(ids) ==> sortedBatches == [TakenBatch(BatchRows(sortedBatches), partition, meter)]
  {
    var perm := SortPermutation(ids);
    if Ascending(ids) && Distinct(ids) { InOrder(ids, perm); }
    if perm == Iota(|ids|) {
      TakeIota(ids);
      return batches, ids;
    }
    assert |perm| == |multiset(perm)| == |multiset(Iota(|ids|))| == |ids|;
    var rows := BatchRows(batches);
    PermutedPairs(ids, rows, perm);
    var batch := TakenBatch(Permutations.Take(rows, perm), partition, meter);
    OneBatch(batch);
    sortedBatches, sortedIds := [batch], Permutations.Take(ids, perm);
  }

  // ---- phase 3: write the output fragments ----

  /** Hands out the sorted ids in step with the rows of the flushed chunks. */
  class RowIdAccumulator {
    var all: seq<RowId>
    var cursor: nat

    ghost predicate Valid()
      reads this
    {
      cursor <= |all|
    }

    constructor ()
      ensures Valid() && all == [] && cursor == 0
    {
      all, cursor := [], 0;
    }

    method Push(ids: seq<RowId>)
      requires Valid()
      modifies this`all
      ensures Valid() && all == old(all) + ids
    {
      all := all + ids;
    }

    method Take(n: nat) returns (ids: seq<RowId>)
      requires Valid()
      modifies this`cursor
      ensures Valid() && all[..cursor] == old(all[..cursor]) + ids
      ensures |ids| == Min(n, |all| - old(cursor)) && cursor == old(cursor) + |ids|
    {
      var end := Min(cursor + n, |all|);
      ids := all[cursor..end];
      assert all[..end] == all[..cursor] + ids;
      cursor := end;
    }
  }

  /** One output fragment of `partition` holding exactly `ids` and `rows`, in the fewest ranges. */
  ghost predicate IsOutput<R>(f: Fragment<R>, partition: nat, ids: seq<RowId>, rows: seq<R>) {
    && f.partition == partition && f.batches == [rows] && f.deletes == None
    && |ids| == |rows| && Ids(f) == ids
    && OnlyRanges(f.rowIds) && |f.rowIds| == Runs(ids)
  }

  lemma {:induction false} OutputMeaning<R>(f: Fragment<R>, partition: nat, ids: seq<RowId>, rows: seq<R>)
    requires IsOutput(f, partition, ids, rows)
    ensures PhysicalRows(f) == rows && Live(f) == Pairs(ids, rows)
  {
    FlattenSnoc([], rows);
    assert [] + [rows] == [rows];
    SurvivorsOfNone(Pairs(ids, rows), 0);
  }

  class StagingState<R> {
    var newEntries: seq<Fragment<R>>
    var outputRows: nat
    var outputRowCounts: seq<nat>
    var nextFragmentId: nat

    constructor (nextFragmentId: nat)
      ensures newEntries == [] && outputRows == 0 && outputRowCounts == []
      ensures this.nextFragmentId == nextFragmentId
    {
      newEntries, outputRows, outputRowCounts := [], 0, [];
      this.nextFragmentId := nextFragmentId;
    }

    /** `stage_chunk` without sort keys: record the chunk with its encoded ids. */
    method StageChunk(partition: nat, rows: seq<R>, ids: seq<RowId>)
      requires |ids| == |rows| && Increasing(ids)
      requires forall i :: 0 <= i < |ids| ==> ids[i] < U64_MAX
      modifies this
      ensures exists f :: newEntries == old(newEntries) + [f] && IsOutput(f, partition, ids, rows)
                          && f.fragmentId == old(nextFragmentId)
      ensures nextFragmentId == old(nextFragmentId) + 1
      ensures outputRows == old(outputRows) + |rows|
      ensures outputRowCounts == old(outputRowCounts) + [|rows|]
    {
      var segments := IdsToSegments(ids);
      EncodingDecodes(ids, segments);
      var f := Fragment(nextFragmentId, partition, [rows], segments, None);
      nextFragmentId := nextFragmentId + 1;
      outputRows := outputRows + |rows|;
      outputRowCounts := outputRowCounts + [|rows|];
      newEntries := newEntries + [f];
    }
  }

  /** The fragments written for one partition: chunk by chunk they hold `ids` and `rows`. */
  ghost predicate Written<R>(out: seq<Fragment<R>>, partition: nat, firstId: nat, targetRows: nat,
                             ids: seq<RowId>, rows: seq<R>)
  {
    && |ids| == |rows| && IdsOf(out) == ids && LiveOf(out) == Pairs(ids, rows)
    && forall i :: 0 <= i < |out| ==>
         && out[i].fragmentId == firstId + i
         && IsOutput(out[i], partition, Ids(out[i]), PhysicalRows(out[i]))
         && Increasing(Ids(out[i]))
         && 1 <= |PhysicalRows(out[i])| <= targetRows
  }

  lemma {:induction false} WrittenSnoc<R>(out: seq<Fragment<R>>, partition: nat, firstId: nat, targetRows: nat,
                                          ids: seq<RowId>, rows: seq<R>, f: Fragment<R>, ids': seq<RowId>,
                                          rows': seq<R>)
    requires Written(out, partition, firstId, targetRows, ids, rows)
    requires IsOutput(f, partition, ids', rows') && Increasing(ids')
    requires 1 <= |rows'| <= targetRows && f.fragmentId == firstId + |out|
    ensures Written(out + [f], partition, firstId, targetRows, ids + ids', rows + rows')
  {
    OutputMeaning(f, partition, ids', rows');
    LiveOfSnoc(out, f);
    PairsConcat(ids, rows, ids', rows');
  }

  // ---- how full the chunks are ----

  function RowCosts<R>(batches: seq<Batch<R>>): seq<nat> {
    if batches == [] then [] else BatchCosts(batches[0]) + RowCosts(batches[1..])
  }

  lemma {:induction false} RowCostsConcat<R>(a: seq<Batch<R>>, b: seq<Batch<R>>)
    ensures RowCosts(a + b) == RowCosts(a) + RowCosts(b)
  {
    if a == [] {
      assert a + b == b;
    } else {
      assert (a + b)[1..] == a[1..] + b;
      RowCostsConcat(a[1..], b);
    }
  }

  lemma {:induction false} RowCostsLength<R>(batches: seq<Batch<R>>)
    ensures |RowCosts(batches)| == |BatchRows(batches)|
  {
    if batches != [] {
      RowCostsLength(batches[1..]);
    }
  }

  /** The estimates of the next batch. */
  lemma {:induction false} NextCosts<R>(batches: seq<Batch<R>>, i: nat)
    requires i < |batches|
    ensures var k := |BatchRows(batches[..i])|;
            var n := |batches[i].rows|;
            && k + n <= |RowCosts(batches)|
            && RowCosts(batches)[k..k + n] == BatchCosts(batches[i])
  {
    var a, b, c := RowCosts(batches[..i]), BatchCosts(batches[i]), RowCosts(batches[i + 1..]);
    assert batches == batches[..i] + batches[i..] && batches[i..][1..] == batches[i + 1..];
    RowCostsConcat(batches[..i], batches[i..]);
    RowCostsLength(batches[..i]);
    assert RowCosts(batches) == a + (b + c);
  }

  /** The row estimates of the i-th of the fragments. */
  function ChunkCosts<R>(out: seq<Fragment<R>>, costs: seq<nat>, i: nat): seq<nat>
    requires i < |out| && |costs| == PhysicalCount(out)
  {
    CountsUpTo(out, i);
    costs[PhysicalCount(out[..i])..PhysicalCount(out[..i + 1])]
  }

  lemma {:induction false} CountsUpTo<R>(out: seq<Fragment<R>>, i: nat)
    requires i < |out|
    ensures PhysicalCount(out[..i + 1]) == PhysicalCount(out[..i]) + |PhysicalRows(out[i])|
    ensures PhysicalCount(out[..i + 1]) <= PhysicalCount(out)
  {
    assert out[..i + 1] == out[..i] + [out[i]];
    LiveOfSnoc(out[..i], out[i]);
    assert out == out[..i + 1] + out[i + 1..];
    IdsOfConcat(out[..i + 1], out[i + 1..]);
  }

  /** Fragments of the row estimates `costs`, of the size promised, and the first `full` of them filled. */
  ghost predicate FilledTo<R>(out: seq<Fragment<R>>, costs: seq<nat>, full: nat, targetRows: nat, targetBytes: nat) {
    && |costs| == PhysicalCount(out)
    && (forall i :: 0 <= i < |out| ==> Sized(ChunkCosts(out, costs, i), targetRows, targetBytes))
    && (forall i :: 0 <= i < |out| && i < full ==> Filled(ChunkCosts(out, costs, i), targetRows, targetBytes))
  }

  ghost predicate AllFilled<R>(out: seq<Fragment<R>>, costs: seq<nat>, targetRows: nat, targetBytes: nat) {
    FilledTo(out, costs, |out|, targetRows, targetBytes)
  }

  /** All of them filled but the last, which need not be. */
  ghost predicate Chunked<R>(out: seq<Fragment<R>>, costs: seq<nat>, targetRows: nat, targetBytes: nat) {
    FilledTo(out, costs, if out == [] then 0 else |out| - 1, targetRows, targetBytes)
  }

  lemma {:induction false} ChunkSnoc<R>(out: seq<Fragment<R>>, costs: seq<nat>, f: Fragment<R>, more: seq<nat>,
                                        i: nat)
    requires |costs| == PhysicalCount(out) && |PhysicalRows(f)| == |more| && i <= |out|
    ensures PhysicalCount(out + [f]) == |costs + more|
    ensures ChunkCosts(out + [f], costs + more, i) == if i < |out| then ChunkCosts(out, costs, i) else more
  {
    LiveOfSnoc(out, f);
    CountsUpTo(out + [f], i);
    if i < |out| {
      CountsUpTo(out, i);
      assert (out + [f])[..i] == out[..i] && (out + [f])[..i + 1] == out[..i + 1];
      SliceOfPrefix(costs, more, PhysicalCount(out[..i]), PhysicalCount(out[..i + 1]));
    } else {
      assert (out + [f])[..i] == out && (out + [f])[..i + 1] == out + [f];
      assert (costs + more)[|costs|..|costs + more|] == more;
    }
  }

  lemma {:induction false} SliceOfPrefix<T>(a: seq<T>, b: seq<T>, i: nat, j: nat)
    requires i <= j <= |a|
    ensures (a + b)[i..j] == a[i..j]
  {
  }

  lemma {:induction false} FilledSnoc<R>(out: seq<Fragment<R>>, costs: seq<nat>, f: Fragment<R>, more: seq<nat>,
                                         targetRows: nat, targetBytes: nat)
    requires AllFilled(out, costs, targetRows, targetBytes) && |PhysicalRows(f)| == |more|
    requires Sized(more, targetRows, targetBytes)
    ensures Chunked(out + [f], costs + more, targetRows, targetBytes)
    ensures Filled(more, targetRows, targetBytes) ==> AllFilled(out + [f], costs + more, targetRows, targetBytes)
  {
    LiveOfSnoc(out, f);
    forall i | 0 <= i <= |out|
      ensures ChunkCosts(out + [f], costs + more, i) == if i < |out| then ChunkCosts(out, costs, i) else more
    {
      ChunkSnoc(out, costs, f, more, i);
    }
  }

  /** The filled fragments so far have the row estimates up to the cursor, the buffer those that follow. */
  ghost predicate Packed<R>(out: seq<Fragment<R>>, costs: seq<nat>, cursor: nat, buffer: RowGroup<R>,
                            targetRows: nat, targetBytes: nat)
  {
    && cursor + |Rows(buffer)| <= |costs| && AllFilled(out, costs[..cursor], targetRows, targetBytes)
    && costs[cursor..cursor + |Rows(buffer)|] == Costs(buffer)
  }

  /** A chunk cut off at the cursor. */
  lemma {:induction false} NextChunk<R>(out: seq<Fragment<R>>, costs: seq<nat>, cursor: nat, end: nat,
                                        f: Fragment<R>, g: RowGroup<R>, targetRows: nat, targetBytes: nat)
    requires end == cursor + |Rows(g)| <= |costs| && AllFilled(out, costs[..cursor], targetRows, targetBytes)
    requires costs[cursor..end] == Costs(g) && |PhysicalRows(f)| == |Rows(g)|
    requires Within(g, targetRows, targetBytes)
    ensures Chunked(out + [f], costs[..end], targetRows, targetBytes)
    ensures Full(g, targetRows, targetBytes) ==> AllFilled(out + [f], costs[..end], targetRows, targetBytes)
  {
    GroupCosts(g, targetRows, targetBytes);
    assert costs[..end] == costs[..cursor] + Costs(g);
    FilledSnoc(out, costs[..cursor], f, Costs(g), targetRows, targetBytes);
  }

  /** The entries are those there were before, `pre`, and those of this partition so far, `out`, which hold
      the rows `done` and the ids taken so far. */
  ghost predicate Aligned<R>(st: StagingState<R>, acc: RowIdAccumulator, pre: seq<Fragment<R>>,
                             out: seq<Fragment<R>>, partition: nat, firstId: nat, targetRows: nat, done: seq<R>)
    reads st, acc
  {
    && acc.Valid() && Increasing(acc.all)
    && (forall i :: 0 <= i < |acc.all| ==> acc.all[i] < U64_MAX)
    && st.newEntries == pre + out && st.nextFragmentId == firstId + |out|
    && Written(out, partition, firstId, targetRows, acc.all[..acc.cursor], done)
  }

  /** Stage one row group with the ids that belong to it. */
  method StageGroup<R>(st: StagingState<R>, acc: RowIdAccumulator, partition: nat, group: RowGroup<R>,
                       ghost pre: seq<Fragment<R>>, ghost out: seq<Fragment<R>>, ghost firstId: nat, targetRows: nat,
                       ghost done: seq<R>)
    returns (ghost out': seq<Fragment<R>>)
    requires Aligned(st, acc, pre, out, partition, firstId, targetRows, done)
    requires 1 <= |Rows(group)| <= targetRows && acc.cursor + |Rows(group)| <= |acc.all|
    modifies st, acc`cursor
    ensures Aligned(st, acc, pre, out', partition, firstId, targetRows, done + Rows(group))
    ensures acc.cursor == old(acc.cursor) + |Rows(group)| && AddsChunk(out, out', |Rows(group)|)
    ensures st.outputRows == old(st.outputRows) + |Rows(group)|
  {
    var rows := Rows(group);
    ghost var before := acc.all[..acc.cursor];
    var ids := acc.Take(|rows|);
    SliceIsIncreasing(acc.all, before, ids);
    st.StageChunk(partition, rows, ids);
    ghost var f :| st.newEntries == old(st.newEntries) + [f] && IsOutput(f, partition, ids, rows)
                   && f.fragmentId == old(st.nextFragmentId);
    out' := out + [f];
    Assoc(pre, out, [f]);
    WrittenSnoc(out, partition, firstId, targetRows, before, done, f, ids, rows);
    OutputMeaning(f, partition, ids, rows);
  }

  /** One more fragment of `n` rows, if there are any. */
  ghost predicate Flushes<R>(out: seq<Fragment<R>>, out': seq<Fragment<R>>, n: nat) {
    if n == 0 then out' == out else AddsChunk(out, out', n)
  }

  /** One more fragment, of `n` rows. */
  ghost predicate AddsChunk<R>(out: seq<Fragment<R>>, out': seq<Fragment<R>>, n: nat) {
    |out'| == |out| + 1 && out' == out + [out'[|out|]] && |PhysicalRows(out'[|out|])| == n
  }

  /** The ids taken for a chunk are as increasing and as small as all of them. */
  lemma {:induction false} SliceIsIncreasing(all: seq<RowId>, before: seq<RowId>, ids: seq<RowId>)
    requires Increasing(all) && |before| + |ids| <= |all| && all[..|before| + |ids|] == before + ids
    requires forall i :: 0 <= i < |all| ==> all[i] < U64_MAX
    ensures Increasing(ids) && forall i :: 0 <= i < |ids| ==> ids[i] < U64_MAX
  {
    forall i | 0 <= i < |ids|
      ensures ids[i] == all[|before| + i]
    {
      assert (before + ids)[|before| + i] == ids[i];
    }
  }

  /** One more fragment for each group, of as many rows. */
  ghost predicate Appends<R>(out: seq<Fragment<R>>, out': seq<Fragment<R>>, groups: seq<RowGroup<R>>) {
    && |out'| == |out| + |groups| && out'[..|out|] == out
    && forall k :: 0 <= k < |groups| ==> |PhysicalRows(out'[|out| + k])| == |Rows(groups[k])|
  }

  lemma {:induction false} AppendsSnoc<R>(out: seq<Fragment<R>>, out': seq<Fragment<R>>, out'': seq<Fragment<R>>,
                                          groups: seq<RowGroup<R>>, i: nat)
    requires i < |groups| && Appends(out, out', groups[..i]) && AddsChunk(out', out'', |Rows(groups[i])|)
    ensures Appends(out, out'', groups[..i + 1])
  {
    assert forall k :: 0 <= k < |groups[..i]| ==> groups[..i][k] == groups[..i + 1][k];
  }

  /** Stage the row groups the builder handed back, in order. */
  method StageGroups<R>(st: StagingState<R>, acc: RowIdAccumulator, partition: nat, groups: seq<RowGroup<R>>,
                        ghost pre: seq<Fragment<R>>, ghost out: seq<Fragment<R>>, ghost firstId: nat,
                        targetRows: nat, ghost targetBytes: nat, ghost done: seq<R>)
    returns (ghost out': seq<Fragment<R>>)
    requires Aligned(st, acc, pre, out, partition, firstId, targetRows, done)
    requires AllWithin(groups, targetRows, targetBytes) && acc.cursor + |AllRows(groups)| <= |acc.all|
    modifies st, acc`cursor
    ensures Aligned(st, acc, pre, out', partition, firstId, targetRows, done + AllRows(groups))
    ensures acc.cursor == old(acc.cursor) + |AllRows(groups)| && Appends(out, out', groups)
    ensures st.outputRows == old(st.outputRows) + |AllRows(groups)|
  {
    ghost var cursor := acc.cursor;
    out' := out;
    EmptyRight(done);
    assert groups[..0] == [];
    for i := 0 to |groups|
      invariant Aligned(st, acc, pre, out', partition, firstId, targetRows, done + AllRows(groups[..i]))
      invariant acc.cursor == cursor + |AllRows(groups[..i])| && Appends(out, out', groups[..i])
      invariant st.outputRows == old(st.outputRows) + |AllRows(groups[..i])|
    {
      NextGroup(groups, i);
      GroupSize(groups, i, targetRows, targetBytes);
      ghost var sofar, before := done + AllRows(groups[..i]), out';
      out' := StageGroup(st, acc, partition, groups[i], pre, out', firstId, targetRows, sofar);
      Assoc(done, AllRows(groups[..i]), Rows(groups[i]));
      AppendsSnoc(out, before, out', groups, i);
    }
    assert groups[..|groups|] == groups;
  }

  lemma {:induction false} GroupSize<R>(groups: seq<RowGroup<R>>, i: nat, targetRows: nat, targetBytes: nat)
    requires i < |groups| && AllWithin(groups, targetRows, targetBytes)
    ensures 1 <= |Rows(groups[i])| <= targetRows
  {
    assert Within(groups[i], targetRows, targetBytes);
  }

  /** The row estimates of one group among those of all. */
  lemma {:induction false} GroupAt<R>(groups: seq<RowGroup<R>>, i: nat, costs: seq<nat>, cursor: nat)
    requires i < |groups| && cursor + |AllRows(groups)| <= |costs|
    requires costs[cursor..cursor + |AllRows(groups)|] == AllCosts(groups)
    ensures var at := cursor + |AllRows(groups[..i])|;
            && at + |Rows(groups[i])| <= |costs| && costs[at..at + |Rows(groups[i])|] == Costs(groups[i])
  {
    var a, b, c := AllCosts(groups[..i]), Costs(groups[i]), AllCosts(groups[i + 1..]);
    assert groups == groups[..i] + groups[i..] && groups[i..][1..] == groups[i + 1..];
    AllCostsConcat(groups[..i], groups[i..]);
    AllCostsLength(groups[..i]);
    AllCostsLength(groups);
    CostsSum(groups[i]);
    MiddleSlice(costs, cursor, a, b, c);
  }

  lemma {:induction false} MiddleSlice<T>(s: seq<T>, k: nat, a: seq<T>, b: seq<T>, c: seq<T>)
    requires k + |a + (b + c)| <= |s| && s[k..k + |a + (b + c)|] == a + (b + c)
    ensures s[k + |a|..k + |a| + |b|] == b
  {
    var all, mid := s[k..k + |a + (b + c)|], s[k + |a|..k + |a| + |b|];
    forall j | 0 <= j < |b|
      ensures mid[j] == b[j]
    {
      assert all[|a| + j] == mid[j] && (a + (b + c))[|a| + j] == b[j];
    }
  }

  /** What is staged for full groups is filled. */
  lemma {:induction false} GroupsFilled<R>(groups: seq<RowGroup<R>>, i: nat, costs: seq<nat>, cursor: nat,
                                           out: seq<Fragment<R>>, out': seq<Fragment<R>>, targetRows: nat,
                                           targetBytes: nat)
    requires i <= |groups| && cursor + |AllRows(groups)| <= |costs| && Appends(out, out', groups)
    requires costs[cursor..cursor + |AllRows(groups)|] == AllCosts(groups)
    requires AllWithin(groups, targetRows, targetBytes) && AllFull(groups, targetRows, targetBytes)
    requires AllFilled(out, costs[..cursor], targetRows, targetBytes)
    ensures |AllRows(groups[..i])| <= |AllRows(groups)|
    ensures AllFilled(out'[..|out| + i], costs[..cursor + |AllRows(groups[..i])|], targetRows, targetBytes)
  {
    if i == 0 {
      assert groups[..0] == [];
    } else {
      GroupsFilled(groups, i - 1, costs, cursor, out, out', targetRows, targetBytes);
      NextGroup(groups, i - 1);
      GroupsFilledNext(groups, i - 1, costs, cursor, cursor + |AllRows(groups[..i - 1])|,
                       cursor + |AllRows(groups[..i])|, out, out', targetRows, targetBytes);
    }
  }

  lemma {:induction false} GroupsFilledNext<R>(groups: seq<RowGroup<R>>, i: nat, costs: seq<nat>, cursor: nat,
                                               at: nat, end: nat, out: seq<Fragment<R>>,
                                               out': seq<Fragment<R>>, targetRows: nat, targetBytes: nat)
    requires i < |groups| && cursor + |AllRows(groups)| <= |costs| && Appends(out, out', groups)
    requires costs[cursor..cursor + |AllRows(groups)|] == AllCosts(groups)
    requires at == cursor + |AllRows(groups[..i])| && end == at + |Rows(groups[i])| <= |costs|
    requires Within(groups[i], targetRows, targetBytes) && Full(groups[i], targetRows, targetBytes)
    requires AllFilled(out'[..|out| + i], costs[..at], targetRows, targetBytes)
    ensures AllFilled(out'[..|out| + (i + 1)], costs[..end], targetRows, targetBytes)
  {
    GroupAt(groups, i, costs, cursor);
    var k := |out| + i;
    assert out'[..k + 1][..k] == out'[..k];
    OneMoreFilled(out'[..k], out'[..k + 1], out'[k], groups[i], costs, at, end, targetRows, targetBytes);
  }

  lemma {:induction false} OneMoreFilled<R>(out: seq<Fragment<R>>, out': seq<Fragment<R>>, f: Fragment<R>,
                                            g: RowGroup<R>, costs: seq<nat>, at: nat, end: nat, targetRows: nat,
                                            targetBytes: nat)
    requires |out'| == |out| + 1 && out'[..|out|] == out && out'[|out|] == f
    requires end == at + |Rows(g)| <= |costs| && costs[at..end] == Costs(g) && |PhysicalRows(f)| == |Rows(g)|
    requires Within(g, targetRows, targetBytes) && Full(g, targetRows, targetBytes)
    requires AllFilled(out, costs[..at], targetRows, targetBytes)
    ensures AllFilled(out', costs[..end], targetRows, targetBytes)
  {
    assert out' == out + [f];
    NextChunk(out, costs, at, end, f, g, targetRows, targetBytes);
  }

  lemma {:induction false} AllCostsConcat<R>(a: seq<RowGroup<R>>, b: seq<RowGroup<R>>)
    ensures AllCosts(a + b) == AllCosts(a) + AllCosts(b)
  {
    if a == [] {
      assert a + b == b;
    } else {
      assert (a + b)[1..] == a[1..] + b;
      AllCostsConcat(a[1..], b);
    }
  }

  lemma {:induction false} AllCostsLength<R>(gs: seq<RowGroup<R>>)
    ensures |AllCosts(gs)| == |AllRows(gs)|
  {
    if gs != [] {
      CostsSum(gs[0]);
      AllCostsLength(gs[1..]);
    }
  }

  lemma {:induction false} NextGroup<R>(groups: seq<RowGroup<R>>, i: nat)
    requires i < |groups|
    ensures AllRows(groups[..i + 1]) == AllRows(groups[..i]) + Rows(groups[i])
    ensures |AllRows(groups[..i + 1])| <= |AllRows(groups)|
  {
    assert groups[..i + 1] == groups[..i] + [groups[i]];
    AllRowsSnoc(groups[..i], groups[i]);
    assert groups == groups[..i + 1] + groups[i + 1..];
    AllRowsConcat(groups[..i + 1], groups[i + 1..]);
  }

  lemma {:induction false} PrefixRows<R>(batches: seq<Batch<R>>, i: nat)
    requires i < |batches|
    ensures BatchRows(batches[..i + 1]) == BatchRows(batches[..i]) + batches[i].rows
    ensures |BatchRows(batches[..i + 1])| <= |BatchRows(batches)|
  {
    assert batches[..i + 1] == batches[..i] + [batches[i]];
    BatchRowsSnoc(batches[..i], batches[i]);
    assert batches == batches[..i + 1] + batches[i + 1..];
    BatchRowsConcat(batches[..i + 1], batches[i + 1..]);
  }

  /** What holds between two batches of the feeding loop: the rows fed so far are the rows already
      written, `done`, followed by the builder's buffer. */
  ghost predicate InStep<R>(st: StagingState<R>, acc: RowIdAccumulator, builder: StreamingRowGroupBuilder<R>,
                            pre: seq<Fragment<R>>, out: seq<Fragment<R>>, partition: nat, firstId: nat, done: seq<R>,
                            fed: seq<R>)
    reads st, acc, builder
  {
    && builder.Valid() && builder.Bounded() && builder.targetRows > 0
    && Aligned(st, acc, pre, out, partition, firstId, builder.targetRows, done)
    && fed == done + Rows(builder.current) && |fed| <= |acc.all|
  }

  /** Stage what the builder still holds, if anything. */
  method FlushAndStage<R>(st: StagingState<R>, acc: RowIdAccumulator, builder: StreamingRowGroupBuilder<R>,
                          partition: nat, ghost pre: seq<Fragment<R>>, ghost out: seq<Fragment<R>>,
                          ghost firstId: nat, ghost done: seq<R>, ghost fed: seq<R>)
    returns (ghost out': seq<Fragment<R>>)
    requires InStep(st, acc, builder, pre, out, partition, firstId, done, fed)
    modifies st, acc`cursor, builder
    ensures InStep(st, acc, builder, pre, out', partition, firstId, fed, fed) && builder.current == []
    ensures Flushes(out, out', |old(Rows(builder.current))|)
    ensures st.outputRows - |fed| == old(st.outputRows) - |done|
  {
    EmptyRight(done);
    EmptyRight(fed);
    var group := builder.Flush();
    out' := out;
    if group.Some? {
      out' := StageGroup(st, acc, partition, group.value, pre, out, firstId, builder.targetRows, done);
    }
  }

  /** One turn of the loop hands full groups to the staging and, if the buffer `mid` is full then, the buffer. */
  ghost predicate Turn<R>(out: seq<Fragment<R>>, out': seq<Fragment<R>>, groups: seq<RowGroup<R>>,
                          buffer: RowGroup<R>, mid: RowGroup<R>, buffer': RowGroup<R>, batch: Batch<R>,
                          targetRows: nat, targetBytes: nat)
  {
    && AllWithin(groups, targetRows, targetBytes) && AllFull(groups, targetRows, targetBytes)
    && AllCosts(groups) + Costs(mid) == Costs(buffer) + BatchCosts(batch)
    && if buffer' == mid then Appends(out, out', groups) else
         && buffer' == [] && Full(mid, targetRows, targetBytes) && Within(mid, targetRows, targetBytes)
         && Appends(out, out', groups + [mid])
  }

  /** Add a batch to the builder and stage what came out. */
  method AddAndStage<R>(st: StagingState<R>, acc: RowIdAccumulator, builder: StreamingRowGroupBuilder<R>,
                        partition: nat, batch: Batch<R>, ghost pre: seq<Fragment<R>>, ghost out: seq<Fragment<R>>,
                        ghost firstId: nat, ghost done: seq<R>, ghost fed: seq<R>)
    returns (ghost out': seq<Fragment<R>>, ghost done': seq<R>, ghost groups: seq<RowGroup<R>>)
    requires InStep(st, acc, builder, pre, out, partition, firstId, done, fed)
    requires builder.current == [] || !builder.IsFull()
    requires |fed| + |batch.rows| <= |acc.all|
    modifies st, acc`cursor, builder
    ensures InStep(st, acc, builder, pre, out', partition, firstId, done', fed + batch.rows)
    ensures Turn(out, out', groups, old(builder.current), builder.current, builder.current, batch,
                 builder.targetRows, builder.targetBytes)
    ensures st.outputRows - |done'| == old(st.outputRows) - |done|
  {
    ghost var buffer := builder.current;
    var flushed := builder.Add(batch);
    Assoc(done, Rows(buffer), batch.rows);
    Assoc(done, AllRows(flushed), Rows(builder.current));
    out' := StageGroups(st, acc, partition, flushed, pre, out, firstId, builder.targetRows, builder.targetBytes, done);
    done', groups := done + AllRows(flushed), flushed;
  }

  /** One turn of the feeding loop: add a batch, stage what came out, flush a full buffer. */
  method FeedBatch<R>(st: StagingState<R>, acc: RowIdAccumulator, builder: StreamingRowGroupBuilder<R>,
                      partition: nat, batch: Batch<R>, ghost pre: seq<Fragment<R>>, ghost out: seq<Fragment<R>>,
                      ghost firstId: nat, ghost done: seq<R>, ghost fed: seq<R>)
    returns (ghost out': seq<Fragment<R>>, ghost done': seq<R>, ghost groups: seq<RowGroup<R>>,
             ghost mid: RowGroup<R>)
    requires InStep(st, acc, builder, pre, out, partition, firstId, done, fed)
    requires builder.current == [] || !builder.IsFull()
    requires |fed| + |batch.rows| <= |acc.all|
    modifies st, acc`cursor, builder
    ensures InStep(st, acc, builder, pre, out', partition, firstId, done', fed + batch.rows)
    ensures builder.current == [] || !builder.IsFull()
    ensures Turn(out, out', groups, old(builder.current), mid, builder.current, batch,
                 builder.targetRows, builder.targetBytes)
    ensures st.outputRows - |done'| == old(st.outputRows) - |done|
  {
    out', done', groups := AddAndStage(st, acc, builder, partition, batch, pre, out, firstId, done, fed);
    mid := builder.current;
    if builder.IsFull() {
      ghost var before := out';
      builder.FullBuffer();
      out' := FlushAndStage(st, acc, builder, partition, pre, out', firstId, done', fed + batch.rows);
      done' := fed + batch.rows;
      if mid != [] { AppendsMid(out, before, out', groups, mid); }
    }
  }

  lemma {:induction false} AppendsMid<R>(out: seq<Fragment<R>>, before: seq<Fragment<R>>, out': seq<Fragment<R>>,
                                         groups: seq<RowGroup<R>>, mid: RowGroup<R>)
    requires Appends(out, before, groups) && Flushes(before, out', |Rows(mid)|) && Rows(mid) != []
    ensures Appends(out, out', groups + [mid])
  {
    assert (groups + [mid])[..|groups|] == groups && (groups + [mid])[..|groups| + 1] == groups + [mid];
    AppendsSnoc(out, before, out', groups + [mid], |groups|);
  }

  /** After a turn the staged fragments are still filled, and their row estimates and those of the buffer are
      those of what was fed. */
  lemma {:induction false} TurnPacks<R>(out: seq<Fragment<R>>, out': seq<Fragment<R>>, groups: seq<RowGroup<R>>,
                                        buffer: RowGroup<R>, mid: RowGroup<R>, buffer': RowGroup<R>,
                                        batch: Batch<R>, costs: seq<nat>, at: nat, fed: nat, next: nat, end: nat,
                                        targetRows: nat, targetBytes: nat)
    requires Turn(out, out', groups, buffer, mid, buffer', batch, targetRows, targetBytes)
    requires at <= fed && next == fed + |batch.rows| == end + |Rows(buffer')| <= |costs|
    requires AllFilled(out, costs[..at], targetRows, targetBytes) && costs[at..fed] == Costs(buffer)
    requires costs[fed..next] == BatchCosts(batch)
    ensures AllFilled(out', costs[..end], targetRows, targetBytes) && costs[end..next] == Costs(buffer')
  {
    AddCosts(costs, at, fed, groups, mid, buffer, batch);
    if buffer' == mid {
      RestFilled(out, out', groups, costs, at, end, targetRows, targetBytes);
    } else {
      MidFilled(out, out', groups, mid, costs, at, end, targetRows, targetBytes);
    }
  }

  /** The case of a buffer that is not flushed. */
  lemma {:induction false} RestFilled<R>(out: seq<Fragment<R>>, out': seq<Fragment<R>>, groups: seq<RowGroup<R>>,
                                         costs: seq<nat>, at: nat, end: nat, targetRows: nat, targetBytes: nat)
    requires AllWithin(groups, targetRows, targetBytes) && AllFull(groups, targetRows, targetBytes)
    requires Appends(out, out', groups) && end == at + |AllRows(groups)| <= |costs|
    requires costs[at..end] == AllCosts(groups)
    requires AllFilled(out, costs[..at], targetRows, targetBytes)
    ensures AllFilled(out', costs[..end], targetRows, targetBytes)
  {
    GroupsFilled(groups, |groups|, costs, at, out, out', targetRows, targetBytes);
    assert groups[..|groups|] == groups && out'[..|out'|] == out';
  }

  /** The case of a full buffer. */
  lemma {:induction false} MidFilled<R>(out: seq<Fragment<R>>, out': seq<Fragment<R>>, groups: seq<RowGroup<R>>,
                                        mid: RowGroup<R>, costs: seq<nat>, at: nat, end: nat, targetRows: nat,
                                        targetBytes: nat)
    requires AllWithin(groups, targetRows, targetBytes) && AllFull(groups, targetRows, targetBytes)
    requires Within(mid, targetRows, targetBytes) && Full(mid, targetRows, targetBytes)
    requires Appends(out, out', groups + [mid])
    requires end == at + |AllRows(groups)| + |Rows(mid)| <= |costs|
    requires costs[at..end] == AllCosts(groups) + Costs(mid)
    requires AllFilled(out, costs[..at], targetRows, targetBytes)
    ensures AllFilled(out', costs[..end], targetRows, targetBytes)
  {
    var gs := groups + [mid];
    AllRowsSnoc(groups, mid);
    AllCostsSnoc(groups, mid);
    AllWithinConcat(groups, [mid], targetRows, targetBytes);
    RestFilled(out, out', gs, costs, at, end, targetRows, targetBytes);
  }

  lemma {:induction false} SplitSlice<T>(s: seq<T>, i: nat, j: nat, a: seq<T>, b: seq<T>)
    requires i <= j <= |s| && s[i..j] == a + b
    ensures j == i + |a| + |b| && s[i..i + |a|] == a && s[i + |a|..j] == b
  {
    assert |s[i..j]| == |a + b|;
    assert s[i..i + |a|] == s[i..j][..|a|] && s[i + |a|..j] == s[i..j][|a|..];
  }

  lemma {:induction false} Resplit<T>(s: seq<T>, i: nat, j: nat, k: nat, a: seq<T>, b: seq<T>)
    requires i <= j <= k <= |s| && s[i..j] + s[j..k] == a + b
    ensures k == i + |a| + |b| && s[i..i + |a|] == a && s[i + |a|..k] == b && s[i..k] == a + b
  {
    assert s[i..k] == s[i..j] + s[j..k];
    SplitSlice(s, i, k, a, b);
  }

  /** The estimates of what was fed go to the groups that came out and to the buffer. */
  lemma {:induction false} AddCosts<R>(costs: seq<nat>, cursor: nat, fed: nat, groups: seq<RowGroup<R>>,
                                       mid: RowGroup<R>, buffer: RowGroup<R>, batch: Batch<R>)
    requires cursor <= fed && fed + |batch.rows| <= |costs| && costs[cursor..fed] == Costs(buffer)
    requires costs[fed..fed + |batch.rows|] == BatchCosts(batch)
    requires AllCosts(groups) + Costs(mid) == Costs(buffer) + BatchCosts(batch)
    ensures var end := cursor + |AllRows(groups)|;
            && end + |Rows(mid)| == fed + |batch.rows|
            && costs[cursor..end] == AllCosts(groups)
            && costs[end..fed + |batch.rows|] == Costs(mid)
            && costs[cursor..fed + |batch.rows|] == AllCosts(groups) + Costs(mid)
  {
    AllCostsLength(groups);
    CostsSum(mid);
    Resplit(costs, cursor, fed, fed + |batch.rows|, AllCosts(groups), Costs(mid));
  }

  /** The final flush. */
  lemma {:induction false} LastChunk<R>(out: seq<Fragment<R>>, out': seq<Fragment<R>>, costs: seq<nat>, at: nat,
                                        g: RowGroup<R>, targetRows: nat, targetBytes: nat)
    requires Packed(out, costs, at, g, targetRows, targetBytes) && at + |Rows(g)| == |costs|
    requires g != [] ==> Within(g, targetRows, targetBytes)
    requires Flushes(out, out', |Rows(g)|)
    ensures Chunked(out', costs, targetRows, targetBytes)
  {
    CostsSum(g);
    assert costs[..|costs|] == costs;
    if Rows(g) == [] {
      assert AllFilled(out, costs, targetRows, targetBytes);
    } else {
      NextChunk(out, costs, at, |costs|, out'[|out|], g, targetRows, targetBytes);
    }
  }

  lemma {:induction false} PackNext<R>(out: seq<Fragment<R>>, out': seq<Fragment<R>>, groups: seq<RowGroup<R>>,
                                       buffer: RowGroup<R>, mid: RowGroup<R>, buffer': RowGroup<R>,
                                       batches: seq<Batch<R>>, i: nat, costs: seq<nat>, at: nat, end: nat,
                                       targetRows: nat, targetBytes: nat)
    requires i < |batches| && Turn(out, out', groups, buffer, mid, buffer', batches[i], targetRows, targetBytes)
    requires costs == RowCosts(batches) && Packed(out, costs, at, buffer, targetRows, targetBytes)
    requires at + |Rows(buffer)| == |BatchRows(batches[..i])|
    requires end + |Rows(buffer')| == |BatchRows(batches[..i + 1])|
    ensures Packed(out', costs, end, buffer', targetRows, targetBytes)
  {
    PrefixRows(batches, i);
    NextCosts(batches, i);
    var fed, next := |BatchRows(batches[..i])|, |BatchRows(batches[..i + 1])|;
    assert next == fed + |batches[i].rows|;
    TurnPacks(out, out', groups, buffer, mid, buffer', batches[i], costs, at, fed, next, end, targetRows, targetBytes);
  }

  /** The first `i` batches are fed. */
  ghost predicate FedTo<R>(st: StagingState<R>, acc: RowIdAccumulator, builder: StreamingRowGroupBuilder<R>,
                           pre: seq<Fragment<R>>, out: seq<Fragment<R>>, partition: nat, batches: seq<Batch<R>>,
                           i: nat, firstId: nat, done: seq<R>)
    reads st, acc, builder
    requires i <= |batches|
  {
    && (builder.current == [] || !builder.IsFull()) && |acc.all| == |BatchRows(batches)|
    && InStep(st, acc, builder, pre, out, partition, firstId, done, BatchRows(batches[..i]))
  }

  method FeedNext<R>(st: StagingState<R>, acc: RowIdAccumulator, builder: StreamingRowGroupBuilder<R>,
                     partition: nat, batches: seq<Batch<R>>, i: nat, ghost pre: seq<Fragment<R>>,
                     ghost out: seq<Fragment<R>>, ghost firstId: nat, ghost done: seq<R>)
    returns (ghost out': seq<Fragment<R>>, ghost done': seq<R>, ghost groups: seq<RowGroup<R>>,
             ghost mid: RowGroup<R>)
    requires i < |batches| && FedTo(st, acc, builder, pre, out, partition, batches, i, firstId, done)
    modifies st, acc`cursor, builder
    ensures FedTo(st, acc, builder, pre, out', partition, batches, i + 1, firstId, done')
    ensures Turn(out, out', groups, old(builder.current), mid, builder.current, batches[i],
                 builder.targetRows, builder.targetBytes)
    ensures st.outputRows - |done'| == old(st.outputRows) - |done|
  {
    PrefixRows(batches, i);
    out', done', groups, mid := FeedBatch(st, acc, builder, partition, batches[i], pre, out, firstId, done,
                                          BatchRows(batches[..i]));
  }

  lemma {:induction false} NothingWritten<R>(partition: nat, firstId: nat, targetRows: nat, targetBytes: nat,
                                             ids: seq<RowId>, costs: seq<nat>)
    ensures Written<R>([], partition, firstId, targetRows, ids[..0], [])
    ensures Packed<R>([], costs, 0, [], targetRows, targetBytes)
  {
    assert ids[..0] == [] && costs[..0] == [];
  }

  /** The feeding loop. */
  method FeedAll<R>(st: StagingState<R>, acc: RowIdAccumulator, builder: StreamingRowGroupBuilder<R>,
                    partition: nat, batches: seq<Batch<R>>, ghost pre: seq<Fragment<R>>, ghost firstId: nat,
                    ghost costs: seq<nat>)
    returns (ghost out: seq<Fragment<R>>, ghost done: seq<R>)
    requires FedTo(st, acc, builder, pre, [], partition, batches, 0, firstId, []) && costs == RowCosts(batches)
    requires Packed<R>([], costs, 0, builder.current, builder.targetRows, builder.targetBytes)
    modifies st, acc`cursor, builder
    ensures InStep(st, acc, builder, pre, out, partition, firstId, done, BatchRows(batches))
    ensures Packed(out, costs, |done|, builder.current, builder.targetRows, builder.targetBytes)
    ensures st.outputRows == old(st.outputRows) + |done|
  {
    out, done := [], [];
    for i := 0 to |batches|
      invariant FedTo(st, acc, builder, pre, out, partition, batches, i, firstId, done)
      invariant Packed(out, costs, |done|, builder.current, builder.targetRows, builder.targetBytes)
      invariant st.outputRows == old(st.outputRows) + |done|
    {
      ghost var before, at, buffer, groups, mid := out, |done|, builder.current, [], [];
      out, done, groups, mid := FeedNext(st, acc, builder, partition, batches, i, pre, out, firstId, done);
      PackNext(before, out, groups, buffer, mid, builder.current, batches, i, costs, at, |done|,
               builder.targetRows, builder.targetBytes);
    }
    assert batches[..|batches|] == batches;
  }

  /** What is left in the builder at the end becomes the last fragment. */
  method FlushLast<R>(st: StagingState<R>, acc: RowIdAccumulator, builder: StreamingRowGroupBuilder<R>,
                      partition: nat, ghost pre: seq<Fragment<R>>, ghost out: seq<Fragment<R>>, ghost firstId: nat,
                      ghost done: seq<R>, ghost fed: seq<R>, ghost costs: seq<nat>)
    returns (ghost out': seq<Fragment<R>>)
    requires InStep(st, acc, builder, pre, out, partition, firstId, done, fed) && |fed| == |costs| == |acc.all|
    requires Packed(out, costs, |done|, builder.current, builder.targetRows, builder.targetBytes)
    modifies st, acc`cursor, builder
    ensures st.newEntries == pre + out' && st.nextFragmentId == firstId + |out'|
    ensures Written(out', partition, firstId, builder.targetRows, acc.all, fed)
    ensures Chunked(out', costs, builder.targetRows, builder.targetBytes)
    ensures st.outputRows - |fed| == old(st.outputRows) - |done|
  {
    ghost var g := builder.current;
    out' := FlushAndStage(st, acc, builder, partition, pre, out, firstId, done, fed);
    LastChunk(out, out', costs, |done|, g, builder.targetRows, builder.targetBytes);
    assert acc.all[..|acc.all|] == acc.all;
  }

  /** Feed the sorted rows of one partition through the builder and stage every chunk with its ids. */
  method WritePartition<R>(st: StagingState<R>, partition: nat, batches: seq<Batch<R>>, ids: seq<RowId>,
                           targetRows: nat, targetBytes: nat)
    returns (ghost out: seq<Fragment<R>>)
    requires |ids| == |BatchRows(batches)| && Increasing(ids) && targetRows > 0
    requires forall i :: 0 <= i < |ids| ==> ids[i] < U64_MAX
    modifies st
    ensures st.newEntries == old(st.newEntries) + out
    ensures Written(out, partition, old(st.nextFragmentId), targetRows, ids, BatchRows(batches))
    ensures Chunked(out, RowCosts(batches), targetRows, targetBytes)
    ensures st.nextFragmentId == old(st.nextFragmentId) + |out|
    ensures st.outputRows == old(st.outputRows) + |ids|
  {
    ghost var pre, firstId, costs := st.newEntries, st.nextFragmentId, RowCosts(batches);
    var builder := new StreamingRowGroupBuilder<R>(targetRows, targetBytes);
    var acc := new RowIdAccumulator();
    acc.Push(ids);
    EmptyRight(pre);
    NothingWritten<R>(partition, firstId, targetRows, targetBytes, acc.all, costs);
    RowCostsLength(batches);
    ghost var done;
    out, done := FeedAll(st, acc, builder, partition, batches, pre, firstId, costs);
    out := FlushLast(st, acc, builder, partition, pre, out, firstId, done, BatchRows(batches), costs);
  }
}
