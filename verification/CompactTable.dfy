// Compaction of a whole table, partition by partition
// (the group loop of `compact_attempt` in crates/icefalldb-core/src/compaction.rs).
module CompactTable {
  import opened Collections
  import opened RowIds
  import opened Builder
  import opened Permutations
  import opened Compaction
  import opened MachineIntegers

  /** One live row of a table. */
  datatype Entry<R> = Entry(partition: nat, id: RowId, row: R)

  function Tagger<R>(partition: nat): ((RowId, R)) -> Entry<R> {
    (p: (RowId, R)) => Entry(partition, p.0, p.1)
  }

  function Tag<R>(partition: nat, pairs: seq<(RowId, R)>): seq<Entry<R>> { MapSeq(Tagger(partition), pairs) }

  /** What a list of fragments means: the live rows with their ids and partitions. */
  ghost function Contents<R>(fs: seq<Fragment<R>>): multiset<Entry<R>> {
    if fs == [] then multiset{} else multiset(Tag(fs[0].partition, Live(fs[0]))) + Contents(fs[1..])
  }

  function Restrict<R>(fs: seq<Fragment<R>>, keys: set<nat>): seq<Fragment<R>> {
    if fs == [] then []
    else if fs[0].partition in keys then [fs[0]] + Restrict(fs[1..], keys)
    else Restrict(fs[1..], keys)
  }

  function OfPartition<R>(fs: seq<Fragment<R>>, key: nat): seq<Fragment<R>> { Restrict(fs, {key}) }

  /** No two live rows of one partition share a row id. */
  ghost predicate DistinctIds<R>(fs: seq<Fragment<R>>) {
    forall key: nat :: Distinct(FirstOf(LiveOf(OfPartition(fs, key))))
  }

  lemma {:induction false} TagConcat<R>(partition: nat, a: seq<(RowId, R)>, b: seq<(RowId, R)>)
    ensures Tag(partition, a + b) == Tag(partition, a) + Tag(partition, b)
  {
  }

  ghost function Entries<R>(fs: seq<Fragment<R>>): seq<Entry<R>> {
    if fs == [] then [] else Tag(fs[0].partition, Live(fs[0])) + Entries(fs[1..])
  }

  lemma {:induction false} EntriesAreContents<R>(fs: seq<Fragment<R>>)
    ensures multiset(Entries(fs)) == Contents(fs)
  {
    if fs != [] {
      EntriesAreContents(fs[1..]);
    }
  }

  lemma {:induction false} ContentsConcat<R>(a: seq<Fragment<R>>, b: seq<Fragment<R>>)
    ensures Contents(a + b) == Contents(a) + Contents(b)
  {
    if a == [] {
      assert a + b == b;
    } else {
      assert (a + b)[1..] == a[1..] + b;
      ContentsConcat(a[1..], b);
    }
  }

  lemma {:induction false} ContentsOfOnePartition<R>(fs: seq<Fragment<R>>, key: nat)
    requires forall i :: 0 <= i < |fs| ==> fs[i].partition == key
    ensures Contents(fs) == multiset(Tag(key, LiveOf(fs)))
  {
    if fs != [] {
      ContentsOfOnePartition(fs[1..], key);
      TagConcat(key, Live(fs[0]), LiveOf(fs[1..]));
    }
  }

  lemma {:induction false} RestrictMembers<R>(fs: seq<Fragment<R>>, keys: set<nat>)
    ensures forall i :: 0 <= i < |Restrict(fs, keys)| ==>
              Restrict(fs, keys)[i].partition in keys && Restrict(fs, keys)[i] in fs
  {
    if fs != [] {
      RestrictMembers(fs[1..], keys);
    }
  }

  lemma {:induction false} RestrictConcat<R>(a: seq<Fragment<R>>, b: seq<Fragment<R>>, keys: set<nat>)
    ensures Restrict(a + b, keys) == Restrict(a, keys) + Restrict(b, keys)
  {
    if a == [] {
      assert a + b == b;
    } else {
      assert (a + b)[1..] == a[1..] + b;
      RestrictConcat(a[1..], b, keys);
    }
  }

  lemma {:induction false} RestrictSame<R>(fs: seq<Fragment<R>>, keys: set<nat>)
    requires forall i :: 0 <= i < |fs| ==> fs[i].partition in keys
    ensures Restrict(fs, keys) == fs
  {
    if fs != [] {
      RestrictSame(fs[1..], keys);
    }
  }

  lemma {:induction false} RestrictOther<R>(fs: seq<Fragment<R>>, keys: set<nat>)
    requires forall i :: 0 <= i < |fs| ==> fs[i].partition !in keys
    ensures Restrict(fs, keys) == []
  {
    if fs != [] {
      RestrictOther(fs[1..], keys);
    }
  }

  /** Adding one more partition adds exactly its rows. */
  lemma {:induction false} RestrictOneMore<R>(fs: seq<Fragment<R>>, keys: set<nat>, key: nat)
    requires key !in keys
    ensures Contents(Restrict(fs, keys + {key})) == Contents(Restrict(fs, keys)) + Contents(OfPartition(fs, key))
    ensures PhysicalCount(Restrict(fs, keys + {key}))
         == PhysicalCount(Restrict(fs, keys)) + PhysicalCount(OfPartition(fs, key))
  {
    if fs != [] {
      RestrictOneMore(fs[1..], keys, key);
      RestrictHead(fs, keys + {key});
      RestrictHead(fs, keys);
      RestrictHead(fs, {key});
    }
  }

  lemma {:induction false} RestrictHead<R>(fs: seq<Fragment<R>>, keys: set<nat>)
    requires fs != []
    ensures Contents(Restrict(fs, keys))
         == (if fs[0].partition in keys then multiset(Tag(fs[0].partition, Live(fs[0]))) else multiset{})
            + Contents(Restrict(fs[1..], keys))
    ensures PhysicalCount(Restrict(fs, keys))
         == (if fs[0].partition in keys then |PhysicalRows(fs[0])| else 0)
            + PhysicalCount(Restrict(fs[1..], keys))
  {
    if fs[0].partition in keys {
      assert Restrict(fs, keys)[1..] == Restrict(fs[1..], keys);
    }
  }

  // ---- the partition keys, in ascending order ----

  method PartitionKeys<R>(fs: seq<Fragment<R>>) returns (keys: seq<nat>)
    ensures Increasing(keys)
    ensures forall i :: 0 <= i < |fs| ==> fs[i].partition in keys
  {
    keys := [];
    for i := 0 to |fs|
      invariant Increasing(keys)
      invariant forall k :: 0 <= k < i ==> fs[k].partition in keys
    {
      InsertNewSorted(keys, fs[i].partition);
      keys := InsertNew(keys, fs[i].partition);
    }
  }

  // ---- one partition ----

  /** The size, order and encoding promises for the output of a compaction. */
  ghost predicate WellShaped<R>(out: seq<Fragment<R>>, firstId: nat, targetRows: nat) {
    forall i :: 0 <= i < |out| ==>
      && out[i].fragmentId == firstId + i
      && IsOutput(out[i], out[i].partition, Ids(out[i]), PhysicalRows(out[i]))
      && 1 <= |PhysicalRows(out[i])| <= targetRows
  }

  function SecondOf<R>(ps: seq<(RowId, R)>): seq<R> {
    if ps == [] then [] else [ps[0].1] + SecondOf(ps[1..])
  }

  lemma {:induction false} SecondOfPairs<R>(ids: seq<RowId>, rows: seq<R>)
    requires |ids| == |rows|
    ensures SecondOf(Pairs(ids, rows)) == rows
  {
    if ids != [] {
      SecondOfPairs(ids[1..], rows[1..]);
      assert Pairs(ids, rows)[1..] == Pairs(ids[1..], rows[1..]);
    }
  }

  /** The row estimates of a partition whose live rows are, in id order, `rows`: those of the batches as they
      were streamed, if that is id order, and of one batch taken in id order otherwise. */
  ghost function PartitionCosts<R>(fs: seq<Fragment<R>>, key: nat, meter: Meter<R>, rows: seq<R>): seq<nat> {
    if Ascending(FirstOf(LiveOf(fs))) then RowCosts(StreamedOf(fs, meter))
    else BatchCosts(TakenBatch(rows, key, meter))
  }

  /** Every output fragment of a partition but its last is filled, and none is oversized. */
  ghost predicate WellFilled<R>(fs: seq<Fragment<R>>, out: seq<Fragment<R>>, key: nat, meter: Meter<R>,
                                targetRows: nat, targetBytes: nat)
  {
    Chunked(out, PartitionCosts(fs, key, meter, SecondOf(LiveOf(out))), targetRows, targetBytes)
  }

  method CompactPartition<R>(st: StagingState<R>, fs: seq<Fragment<R>>, key: nat, targetRows: nat, targetBytes: nat,
                             meter: Meter<R>)
    returns (inputRows: nat, ghost out: seq<Fragment<R>>)
    requires AllCovered(fs) && targetRows > 0
    requires forall i :: 0 <= i < |fs| ==> fs[i].partition == key
    requires Distinct(FirstOf(LiveOf(fs)))
    modifies st
    ensures inputRows == PhysicalCount(fs)
    ensures st.newEntries == old(st.newEntries) + out && st.nextFragmentId == old(st.nextFragmentId) + |out|
    ensures Contents(out) == Contents(fs) && Increasing(IdsOf(out))
    ensures WellShaped(out, old(st.nextFragmentId), targetRows)
    ensures WellFilled(fs, out, key, meter, targetRows, targetBytes)
    ensures forall i :: 0 <= i < |out| ==> out[i].partition == key
  {
    var batches, ids;
    batches, ids, inputRows := CollectLive(fs, meter);
    FirstOfPairs(ids, BatchRows(batches));
    SmallIds(fs, ids, BatchRows(batches));
    if |batches| == 0 {
      out := [];
      EmptyRight(st.newEntries);
      assert LiveOf(fs) == [];
      ContentsOfOnePartition(fs, key);
      return;
    }
    var sortedBatches, sortedIds := SortByRowId(batches, ids, key, meter);
    DistinctPermuted(ids, sortedIds);
    AscendingDistinct(sortedIds);
    BoundPermuted(ids, sortedIds);
    out := WritePartition(st, key, sortedBatches, sortedIds, targetRows, targetBytes);
    SecondOfPairs(sortedIds, BatchRows(sortedBatches));
    FedCosts(fs, key, meter, batches, ids, sortedBatches);
    MapPermutation(Tagger(key), LiveOf(fs), LiveOf(out));
    ContentsOfOnePartition(fs, key);
    ContentsOfOnePartition(out, key);
  }

  lemma {:induction false} FedCosts<R>(fs: seq<Fragment<R>>, key: nat, meter: Meter<R>, batches: seq<Batch<R>>,
                                       ids: seq<RowId>, sorted: seq<Batch<R>>)
    requires batches == StreamedOf(fs, meter) && ids == FirstOf(LiveOf(fs)) && Distinct(ids)
    requires Ascending(ids) ==> sorted == batches
    requires !Ascending(ids) ==> sorted == [TakenBatch(BatchRows(sorted), key, meter)]
    ensures RowCosts(sorted) == PartitionCosts(fs, key, meter, BatchRows(sorted))
  {
    if !Ascending(ids) {
      assert sorted[1..] == [] && RowCosts(sorted[1..]) == [];
      EmptyRight(BatchCosts(sorted[0]));
    }
  }

  lemma {:induction false} BoundPermuted(a: seq<RowId>, b: seq<RowId>)
    requires multiset(a) == multiset(b) && forall i :: 0 <= i < |a| ==> a[i] < U64_MAX
    ensures forall i :: 0 <= i < |b| ==> b[i] < U64_MAX
  {
    forall i | 0 <= i < |b|
      ensures b[i] < U64_MAX
    {
      assert b[i] in multiset(a);
    }
  }

  lemma {:induction false} SmallLive<R>(pairs: seq<(RowId, R)>, dead: set<nat>, offset: nat)
    requires forall i :: 0 <= i < |pairs| ==> pairs[i].0 < U64_MAX
    ensures forall i :: 0 <= i < |Survivors(pairs, dead, offset)| ==> Survivors(pairs, dead, offset)[i].0 < U64_MAX
  {
    if pairs != [] {
      SmallLive(pairs[1..], dead, offset + 1);
    }
  }

  lemma {:induction false} SmallLiveOf<R>(fs: seq<Fragment<R>>)
    requires AllCovered(fs)
    ensures forall i :: 0 <= i < |LiveOf(fs)| ==> LiveOf(fs)[i].0 < U64_MAX
  {
    if fs != [] {
      assert Covered(fs[0]);
      SmallLiveOf(fs[1..]);
      PairsLength(Ids(fs[0]), PhysicalRows(fs[0]));
      SmallLive(Pairs(Ids(fs[0]), PhysicalRows(fs[0])), Dead(fs[0]), 0);
    }
  }

  lemma {:induction false} SmallIds<R>(fs: seq<Fragment<R>>, ids: seq<RowId>, rows: seq<R>)
    requires AllCovered(fs) && |ids| == |rows| && Pairs(ids, rows) == LiveOf(fs)
    ensures forall i :: 0 <= i < |ids| ==> ids[i] < U64_MAX
  {
    SmallLiveOf(fs);
    PairsLength(ids, rows);
  }

  // ---- the whole table ----

  /** The partitions come one after the other. */
  ghost predicate InPartitionOrder<R>(out: seq<Fragment<R>>) {
    forall i, j :: 0 <= i < j < |out| ==> out[i].partition <= out[j].partition
  }

  ghost predicate PartitionsIncreasing<R>(out: seq<Fragment<R>>) {
    forall key: nat :: Increasing(IdsOf(OfPartition(out, key)))
  }

  lemma {:induction false} AppendPartition<R>(a: seq<Fragment<R>>, b: seq<Fragment<R>>, key: nat)
    requires PartitionsIncreasing(a) && Increasing(IdsOf(b))
    requires forall i :: 0 <= i < |a| ==> a[i].partition != key
    requires forall i :: 0 <= i < |b| ==> b[i].partition == key
    ensures PartitionsIncreasing(a + b)
  {
    forall k: nat
      ensures Increasing(IdsOf(OfPartition(a + b, k)))
    {
      AppendedPartition(a, b, key, k);
    }
  }

  lemma {:induction false} AppendedPartition<R>(a: seq<Fragment<R>>, b: seq<Fragment<R>>, key: nat, k: nat)
    requires forall i :: 0 <= i < |a| ==> a[i].partition != key
    requires forall i :: 0 <= i < |b| ==> b[i].partition == key
    ensures OfPartition(a + b, k) == if k == key then b else OfPartition(a, k)
  {
    RestrictConcat(a, b, {k});
    if k == key {
      RestrictOther(a, {k});
      RestrictSame(b, {k});
    } else {
      RestrictOther(b, {k});
    }
  }

  lemma {:induction false} AppendShaped<R>(a: seq<Fragment<R>>, b: seq<Fragment<R>>, firstId: nat, targetRows: nat)
    requires WellShaped(a, firstId, targetRows) && WellShaped(b, firstId + |a|, targetRows)
    ensures WellShaped(a + b, firstId, targetRows)
  {
  }

  /** What the loop over the partitions has achieved for the keys `done`. */
  ghost predicate Progress<R>(fs: seq<Fragment<R>>, done: set<nat>, out: seq<Fragment<R>>, inputRows: nat,
                              firstId: nat, targetRows: nat, targetBytes: nat, meter: Meter<R>)
  {
    && Contents(out) == Contents(Restrict(fs, done))
    && inputRows == PhysicalCount(Restrict(fs, done))
    && PartitionsIncreasing(out) && WellShaped(out, firstId, targetRows) && InPartitionOrder(out)
    && (forall k :: 0 <= k < |out| ==> out[k].partition in done)
    && forall key: nat :: key in done ==> KeyFilled(fs, out, key, meter, targetRows, targetBytes)
  }

  ghost predicate KeyFilled<R>(fs: seq<Fragment<R>>, out: seq<Fragment<R>>, key: nat, meter: Meter<R>,
                               targetRows: nat, targetBytes: nat)
  {
    WellFilled(OfPartition(fs, key), OfPartition(out, key), key, meter, targetRows, targetBytes)
  }

  lemma {:induction false} ProgressStep<R>(fs: seq<Fragment<R>>, done: set<nat>, a: seq<Fragment<R>>, inputRows: nat,
                                           firstId: nat, targetRows: nat, targetBytes: nat, meter: Meter<R>,
                                           key: nat, b: seq<Fragment<R>>)
    requires Progress(fs, done, a, inputRows, firstId, targetRows, targetBytes, meter)
    requires key !in done && forall k: nat :: k in done ==> k < key
    requires Contents(b) == Contents(OfPartition(fs, key)) && Increasing(IdsOf(b))
    requires WellShaped(b, firstId + |a|, targetRows)
    requires WellFilled(OfPartition(fs, key), b, key, meter, targetRows, targetBytes)
    requires forall i :: 0 <= i < |b| ==> b[i].partition == key
    ensures Progress(fs, done + {key}, a + b, inputRows + PhysicalCount(OfPartition(fs, key)), firstId, targetRows,
                     targetBytes, meter)
  {
    assert Contents(a + b) == Contents(Restrict(fs, done + {key})) by {
      ContentsConcat(a, b);
      RestrictOneMore(fs, done, key);
    }
    RestrictOneMore(fs, done, key);
    assert PartitionsIncreasing(a + b) by {
      AppendPartition(a, b, key);
    }
    assert WellShaped(a + b, firstId, targetRows) by {
      AppendShaped(a, b, firstId, targetRows);
    }
    KeysFilledStep(fs, done, a, targetRows, targetBytes, meter, key, b);
    OrderStep(done, a, key, b);
  }

  lemma {:induction false} OrderStep<R>(done: set<nat>, a: seq<Fragment<R>>, key: nat, b: seq<Fragment<R>>)
    requires InPartitionOrder(a) && forall k :: 0 <= k < |a| ==> a[k].partition in done
    requires (forall k: nat :: k in done ==> k < key) && forall i :: 0 <= i < |b| ==> b[i].partition == key
    ensures InPartitionOrder(a + b)
  {
  }

  lemma {:induction false} KeysFilledStep<R>(fs: seq<Fragment<R>>, done: set<nat>, a: seq<Fragment<R>>,
                                             targetRows: nat, targetBytes: nat, meter: Meter<R>, key: nat,
                                             b: seq<Fragment<R>>)
    requires key !in done && forall k :: 0 <= k < |a| ==> a[k].partition in done
    requires forall k: nat :: k in done ==> KeyFilled(fs, a, k, meter, targetRows, targetBytes)
    requires WellFilled(OfPartition(fs, key), b, key, meter, targetRows, targetBytes)
    requires forall i :: 0 <= i < |b| ==> b[i].partition == key
    ensures forall k: nat :: k in done + {key} ==> KeyFilled(fs, a + b, k, meter, targetRows, targetBytes)
  {
    forall k: nat | k in done + {key}
      ensures KeyFilled(fs, a + b, k, meter, targetRows, targetBytes)
    {
      AppendedPartition(a, b, key, k);
      assert k in done ==> KeyFilled(fs, a, k, meter, targetRows, targetBytes);
    }
  }

  /** Rewrite the table: the output fragments hold exactly the live rows of the input, each under its
      row id and in its partition, in ascending id order per partition, in chunks of the target size of which
      all but a partition's last are full. */
  method Compact<R>(fs: seq<Fragment<R>>, targetRows: nat, targetBytes: nat, nextFragmentId: nat, meter: Meter<R>)
    returns (st: StagingState<R>, inputRows: nat)
    requires AllCovered(fs) && targetRows > 0 && DistinctIds(fs)
    ensures fresh(st)
    ensures Contents(st.newEntries) == Contents(fs)
    ensures PartitionsIncreasing(st.newEntries) && InPartitionOrder(st.newEntries)
    ensures WellShaped(st.newEntries, nextFragmentId, targetRows)
    ensures forall key: nat :: KeyFilled(fs, st.newEntries, key, meter, targetRows, targetBytes)
    ensures st.nextFragmentId == nextFragmentId + |st.newEntries|
    ensures inputRows == PhysicalCount(fs)
  {
    st := new StagingState<R>(nextFragmentId);
    inputRows := 0;
    var keys := PartitionKeys(fs);
    NoProgress(fs, nextFragmentId, targetRows, targetBytes, meter);
    for i := 0 to |keys|
      invariant fresh(st) && st.nextFragmentId == nextFragmentId + |st.newEntries|
      invariant Progress(fs, Keys(keys[..i]), st.newEntries, inputRows, nextFragmentId, targetRows, targetBytes, meter)
    {
      NextKey(keys, i);
      inputRows := CompactKey(st, fs, keys[i], targetRows, targetBytes, meter, inputRows, Keys(keys[..i]),
                              nextFragmentId);
    }
    assert keys[..|keys|] == keys;
    RestrictSame(fs, Keys(keys));
    AllKeysFilled(fs, Keys(keys), st.newEntries, inputRows, nextFragmentId, targetRows, targetBytes, meter);
  }

  lemma {:induction false} AllKeysFilled<R>(fs: seq<Fragment<R>>, done: set<nat>, out: seq<Fragment<R>>,
                                            inputRows: nat, firstId: nat, targetRows: nat, targetBytes: nat,
                                            meter: Meter<R>)
    requires Progress(fs, done, out, inputRows, firstId, targetRows, targetBytes, meter)
    requires forall i :: 0 <= i < |fs| ==> fs[i].partition in done
    ensures forall key: nat :: KeyFilled(fs, out, key, meter, targetRows, targetBytes)
  {
    forall key: nat | key !in done
      ensures KeyFilled(fs, out, key, meter, targetRows, targetBytes)
    {
      RestrictOther(fs, {key});
      RestrictOther(out, {key});
    }
  }

  /** One turn of the partition loop. */
  method CompactKey<R>(st: StagingState<R>, fs: seq<Fragment<R>>, key: nat, targetRows: nat, targetBytes: nat,
                       meter: Meter<R>, soFar: nat, ghost done: set<nat>, ghost firstId: nat)
    returns (inputRows: nat)
    requires AllCovered(fs) && targetRows > 0 && DistinctIds(fs)
    requires key !in done && forall k: nat :: k in done ==> k < key
    requires st.nextFragmentId == firstId + |st.newEntries|
    requires Progress(fs, done, st.newEntries, soFar, firstId, targetRows, targetBytes, meter)
    modifies st
    ensures st.nextFragmentId == firstId + |st.newEntries|
    ensures Progress(fs, done + {key}, st.newEntries, inputRows, firstId, targetRows, targetBytes, meter)
  {
    ghost var before := st.newEntries;
    OnlyPartition(fs, key);
    ghost var out;
    var n;
    n, out := CompactPartition(st, OfPartition(fs, key), key, targetRows, targetBytes, meter);
    ProgressStep(fs, done, before, soFar, firstId, targetRows, targetBytes, meter, key, out);
    inputRows := soFar + n;
  }

  lemma {:induction false} NoProgress<R>(fs: seq<Fragment<R>>, firstId: nat, targetRows: nat, targetBytes: nat,
                                         meter: Meter<R>)
    ensures Progress(fs, Keys([]), [], 0, firstId, targetRows, targetBytes, meter)
  {
    RestrictOther(fs, {});
    assert Keys([]) == {};
  }

  ghost function Keys(keys: seq<nat>): set<nat> { set k | k in keys }

  lemma {:induction false} NextKey(keys: seq<nat>, i: nat)
    requires Increasing(keys) && i < |keys|
    ensures keys[i] !in Keys(keys[..i]) && forall k: nat :: k in Keys(keys[..i]) ==> k < keys[i]
    ensures Keys(keys[..i + 1]) == Keys(keys[..i]) + {keys[i]}
  {
    assert keys[..i + 1] == keys[..i] + [keys[i]];
  }

  lemma {:induction false} OnlyPartition<R>(fs: seq<Fragment<R>>, key: nat)
    requires AllCovered(fs)
    ensures AllCovered(OfPartition(fs, key))
    ensures forall i :: 0 <= i < |OfPartition(fs, key)| ==> OfPartition(fs, key)[i].partition == key
  {
    RestrictMembers(fs, {key});
  }

  // ---- how many fragments there are ----

  /** The fewest chunks of at most `size` that n rows go into. */
  function ChunksFor(n: nat, size: nat): nat
    requires size > 0
  {
    (n + size - 1) / size
  }

  lemma {:induction false} ChunksExact(full: nat, last: nat, size: nat)
    requires 1 <= last <= size
    ensures ChunksFor(full * size + last, size) == full + 1
  {
    assert full * size + last + size - 1 == size * (full + 1) + (last - 1);
    DivUnique(full * size + last + size - 1, size, full + 1, last - 1);
  }

  lemma {:induction false} DivUnique(n: nat, d: nat, q: nat, r: nat)
    requires d > 0 && n == d * q + r && r < d
    ensures n / d == q
  {
    DivBound(n, d, q);
    DivBound(n, d, q + 1);
  }

  /** No row costs so much that the byte target is reached before the row target. */
  ghost predicate RowTargetBinds(costs: seq<nat>, targetRows: nat, targetBytes: nat) {
    targetBytes > 0 && forall i :: 0 <= i < |costs| ==> (targetRows + 1) * costs[i] <= targetBytes
  }

  lemma {:induction false} SumBelow(costs: seq<nat>, n: nat, targetBytes: nat)
    requires forall i :: 0 <= i < |costs| ==> n * costs[i] <= targetBytes
    ensures n * Sum(costs) <= |costs| * targetBytes
  {
    if costs != [] {
      SumBelow(costs[1..], n, targetBytes);
      assert n * Sum(costs) == n * costs[0] + n * Sum(costs[1..]);
      assert |costs| * targetBytes == targetBytes + (|costs| - 1) * targetBytes;
    }
  }

  lemma {:induction false} StaysBelow(size: nat, n: nat, sum: nat, last: nat, bound: nat)
    requires n < size && bound > 0 && (size + 1) * sum <= n * bound && (size + 1) * last <= bound
    ensures sum + last < bound
  {
    var x := sum + last;
    assert (size + 1) * x == (size + 1) * sum + (size + 1) * last;
    assert (size + 1) * x <= n * bound + bound == (n + 1) * bound;
    MulMono(n + 1, size, bound);
    assert (size + 1) * bound == size * bound + bound;
  }

  /** Then a chunk is filled only by rows. */
  lemma {:induction false} FilledByRows(costs: seq<nat>, targetRows: nat, targetBytes: nat)
    requires RowTargetBinds(costs, targetRows, targetBytes)
    requires Sized(costs, targetRows, targetBytes) && Filled(costs, targetRows, targetBytes)
    ensures |costs| == targetRows
  {
    if |costs| < targetRows {
      SumBelow(costs, targetRows + 1, targetBytes);
      StaysBelow(targetRows, |costs|, Sum(costs), costs[|costs| - 1], targetBytes);
    }
  }

  lemma {:induction false} CountFull<R>(out: seq<Fragment<R>>, targetRows: nat)
    requires forall i :: 0 <= i < |out| ==> |PhysicalRows(out[i])| == targetRows
    ensures PhysicalCount(out) == |out| * targetRows
  {
    if out != [] {
      CountFull(out[1..], targetRows);
      assert |out| * targetRows == targetRows + (|out| - 1) * targetRows;
    }
  }

  lemma {:induction false} ChunkOf<R>(out: seq<Fragment<R>>, costs: seq<nat>, i: nat, targetRows: nat,
                                      targetBytes: nat)
    requires i < |out| && |costs| == PhysicalCount(out)
    ensures |ChunkCosts(out, costs, i)| == |PhysicalRows(out[i])|
    ensures RowTargetBinds(costs, targetRows, targetBytes) ==>
              RowTargetBinds(ChunkCosts(out, costs, i), targetRows, targetBytes)
  {
    CountsUpTo(out, i);
    var a := PhysicalCount(out[..i]);
    assert forall k :: 0 <= k < |ChunkCosts(out, costs, i)| ==> ChunkCosts(out, costs, i)[k] == costs[a + k];
  }

  lemma {:induction false} FullByRows<R>(out: seq<Fragment<R>>, costs: seq<nat>, targetRows: nat, targetBytes: nat,
                                         i: nat)
    requires Chunked(out, costs, targetRows, targetBytes) && RowTargetBinds(costs, targetRows, targetBytes)
    requires i < |out|
    ensures 1 <= |PhysicalRows(out[i])| <= targetRows
    ensures i < |out| - 1 ==> |PhysicalRows(out[i])| == targetRows
  {
    var chunk := ChunkCosts(out, costs, i);
    ChunkOf(out, costs, i, targetRows, targetBytes);
    assert Sized(chunk, targetRows, targetBytes);
    if i < |out| - 1 {
      assert Filled(chunk, targetRows, targetBytes);
      FilledByRows(chunk, targetRows, targetBytes);
    }
  }

  lemma {:induction false} CountChunks<R>(out: seq<Fragment<R>>, targetRows: nat)
    requires out != [] && forall i :: 0 <= i < |out| - 1 ==> |PhysicalRows(out[i])| == targetRows
    requires 1 <= |PhysicalRows(out[|out| - 1])| <= targetRows
    ensures |out| == ChunksFor(PhysicalCount(out), targetRows)
  {
    var last := |out| - 1;
    CountFull(out[..last], targetRows);
    assert out == out[..last] + [out[last]];
    LiveOfSnoc(out[..last], out[last]);
    ChunksExact(last, |PhysicalRows(out[last])|, targetRows);
  }

  /** When the byte target does not bind, every fragment but the last has the target's rows, and there are as
      few as possible. */
  lemma {:induction false} FewestFragments<R>(out: seq<Fragment<R>>, costs: seq<nat>, targetRows: nat,
                                              targetBytes: nat)
    requires Chunked(out, costs, targetRows, targetBytes) && targetRows > 0
    requires RowTargetBinds(costs, targetRows, targetBytes)
    ensures forall i :: 0 <= i < |out| - 1 ==> |PhysicalRows(out[i])| == targetRows
    ensures |out| == ChunksFor(PhysicalCount(out), targetRows)
  {
    forall i | 0 <= i < |out|
      ensures 1 <= |PhysicalRows(out[i])| <= targetRows
      ensures i < |out| - 1 ==> |PhysicalRows(out[i])| == targetRows
    {
      FullByRows(out, costs, targetRows, targetBytes, i);
    }
    if out == [] {
      DivUnique(targetRows - 1, targetRows, 0, targetRows - 1);
    } else {
      CountChunks(out, targetRows);
    }
  }

  function PartitionOf<R>(): Entry<R> -> nat { (e: Entry<R>) => e.partition }

  /** The partitions of the entries of a table, one by one. */
  ghost function EntryPartitions<R>(fs: seq<Fragment<R>>): seq<nat> { MapSeq(PartitionOf(), Entries(fs)) }

  lemma {:induction false} CountCopies(n: nat, x: nat, y: nat)
    ensures multiset(Copies(n, x))[y] == if x == y then n else 0
  {
    if n > 0 {
      assert Copies(n, x) == [x] + Copies(n - 1, x);
      CountCopies(n - 1, x, y);
    }
  }

  lemma {:induction false} HeadPartitions<R>(fs: seq<Fragment<R>>)
    requires fs != []
    ensures EntryPartitions(fs) == Copies(|Live(fs[0])|, fs[0].partition) + EntryPartitions(fs[1..])
  {
  }

  /** The live rows of a partition are counted by the contents of the table. */
  lemma {:induction false} CountPartition<R>(fs: seq<Fragment<R>>, key: nat)
    ensures |LiveOf(OfPartition(fs, key))| == multiset(EntryPartitions(fs))[key]
  {
    if fs != [] {
      CountPartition(fs[1..], key);
      HeadPartitions(fs);
      CountCopies(|Live(fs[0])|, fs[0].partition, key);
      if fs[0].partition == key {
        assert OfPartition(fs, key)[1..] == OfPartition(fs[1..], key);
      }
    }
  }

  lemma {:induction false} SamePartition<R>(fs: seq<Fragment<R>>, out: seq<Fragment<R>>, key: nat)
    requires Contents(out) == Contents(fs)
    ensures |LiveOf(OfPartition(out, key))| == |LiveOf(OfPartition(fs, key))|
  {
    EntriesAreContents(fs);
    EntriesAreContents(out);
    MapPermutation(PartitionOf(), Entries(fs), Entries(out));
    CountPartition(fs, key);
    CountPartition(out, key);
  }

  /** Output fragments have no deleted rows. */
  lemma {:induction false} OutputIsLive<R>(out: seq<Fragment<R>>)
    requires forall i :: 0 <= i < |out| ==> IsOutput(out[i], out[i].partition, Ids(out[i]), PhysicalRows(out[i]))
    ensures PhysicalCount(out) == |LiveOf(out)|
  {
    if out != [] {
      var ids, rows := Ids(out[0]), PhysicalRows(out[0]);
      OutputMeaning(out[0], out[0].partition, ids, rows);
      PairsLength(ids, rows);
      OutputIsLive(out[1..]);
    }
  }

  /** When the byte target does not bind, each partition is rewritten into as few fragments as its live rows
      can go into. */
  lemma {:induction false} CompactMerges<R>(fs: seq<Fragment<R>>, out: seq<Fragment<R>>, firstId: nat, key: nat,
                                            meter: Meter<R>, targetRows: nat, targetBytes: nat)
    requires Contents(out) == Contents(fs) && WellShaped(out, firstId, targetRows) && targetRows > 0
    requires KeyFilled(fs, out, key, meter, targetRows, targetBytes)
    requires var rows := SecondOf(LiveOf(OfPartition(out, key)));
             RowTargetBinds(PartitionCosts(OfPartition(fs, key), key, meter, rows), targetRows, targetBytes)
    ensures |OfPartition(out, key)| == ChunksFor(|LiveOf(OfPartition(fs, key))|, targetRows)
  {
    var chunks := OfPartition(out, key);
    var costs := PartitionCosts(OfPartition(fs, key), key, meter, SecondOf(LiveOf(chunks)));
    FewestFragments(chunks, costs, targetRows, targetBytes);
    RestrictMembers(out, {key});
    OutputIsLive(chunks);
    SamePartition(fs, out, key);
  }
}
