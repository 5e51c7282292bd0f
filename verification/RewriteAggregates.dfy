// Aggregates are the same before and after a compaction: the retracted partials of the input
// fragments and the fresh partials of the output fragments add up to the same totals
// (crates/icefalldb-core/src/compaction.rs, crates/icefalldb-core/src/agg_cache.rs; the totals are
// added up by `collect_col_partials` in crates/icefalldb-query/src/rules/metadata_aggregate.rs).
module RewriteAggregates {
  import opened Collections
  import opened RowIds
  import opened Permutations
  import opened Selection
  import opened Compaction
  import opened CompactTable
  import opened AggPartials
  import opened AggState
  import opened GroupedAgg
  import opened GroupedMerge
  import opened MachineIntegers

  type Frag = Fragment<Row>

  // ---- the deletion vector of a fragment, as a set and as its iterator ----

  ghost predicate Lists(offs: Offsets, dead: set<nat>, rows: nat) {
    ValidOffsets(offs, rows) && forall k: nat :: k in offs <==> k in dead
  }

  lemma {:induction false} SurvivorsPrefix<T>(xs: seq<T>, dead: set<nat>, offs: Offsets, n: nat)
    requires Lists(offs, dead, |xs|) && n <= |xs|
    ensures InRange(LiveBelow(offs, n), |xs|)
    ensures Survivors(xs[..n], dead, 0) == Take(xs, LiveBelow(offs, n))
  {
    LiveIncreasing(offs, n);
    if n > 0 {
      SurvivorsPrefix(xs, dead, offs, n - 1);
      assert xs[..n] == xs[..n - 1] + [xs[n - 1]];
      SurvivorsConcat(xs[..n - 1], [xs[n - 1]], dead, 0);
      assert [xs[n - 1]][1..] == [];
      if n - 1 !in dead {
        TakeConcat(xs, LiveBelow(offs, n - 1), [n - 1]);
        assert Take(xs, [n - 1]) == [xs[n - 1]];
      }
    }
  }

  /** Compaction and retraction agree on which rows are live. */
  lemma {:induction false} SurvivorsAreLiveRows<T>(xs: seq<T>, dead: set<nat>, offs: Offsets)
    requires Lists(offs, dead, |xs|)
    ensures Survivors(xs, dead, 0) == LiveRows(xs, offs)
  {
    SurvivorsPrefix(xs, dead, offs, |xs|);
    assert xs[..|xs|] == xs;
  }

  // ---- the live rows of a table, without their ids ----

  function RowsOnly<R>(ps: seq<(RowId, R)>): seq<R> { MapSeq((p: (RowId, R)) => p.1, ps) }

  lemma {:induction false} RowsOnlyOfPairs<R>(ids: seq<RowId>, rows: seq<R>)
    requires |ids| == |rows|
    ensures RowsOnly(Pairs(ids, rows)) == rows
  {
    PairsLength(ids, rows);
  }

  lemma {:induction false} FragmentRows(f: Frag, offs: Offsets)
    requires Covered(f) && Lists(offs, Dead(f), |PhysicalRows(f)|)
    ensures RowsOnly(Live(f)) == LiveRows(PhysicalRows(f), offs)
  {
    var ids, rows := Ids(f), PhysicalRows(f);
    SurvivorsOfPairs(ids, rows, Dead(f), 0);
    RowsOnlyOfPairs(Survivors(ids, Dead(f), 0), Survivors(rows, Dead(f), 0));
    SurvivorsAreLiveRows(rows, Dead(f), offs);
  }

  function TableRows(fs: seq<Frag>): seq<seq<Row>> {
    if fs == [] then [] else [RowsOnly(Live(fs[0]))] + TableRows(fs[1..])
  }

  lemma {:induction false} TableRowsAt(fs: seq<Frag>)
    ensures |TableRows(fs)| == |fs|
    ensures forall i :: 0 <= i < |fs| ==> TableRows(fs)[i] == RowsOnly(Live(fs[i]))
  {
    if fs != [] {
      TableRowsAt(fs[1..]);
    }
  }

  // ---- the contents determine the rows ----

  function RowOf(): Entry<Row> -> Row { (e: Entry<Row>) => e.row }

  function EntryRows(es: seq<Entry<Row>>): seq<Row> { MapSeq(RowOf(), es) }

  lemma {:induction false} TagRows(partition: nat, ps: seq<(RowId, Row)>)
    ensures EntryRows(Tag(partition, ps)) == RowsOnly(ps)
  {
  }

  lemma {:induction false} EntryRowsConcat(a: seq<Entry<Row>>, b: seq<Entry<Row>>)
    ensures EntryRows(a + b) == EntryRows(a) + EntryRows(b)
  {
  }

  lemma {:induction false} FlattenCons<T>(x: seq<T>, xs: seq<seq<T>>)
    ensures Flatten([x] + xs) == x + Flatten(xs)
  {
    assert ([x] + xs)[1..] == xs;
  }

  lemma {:induction false} EntriesRows(fs: seq<Frag>)
    ensures EntryRows(Entries(fs)) == Flatten(TableRows(fs))
  {
    if fs != [] {
      EntriesRows(fs[1..]);
      TagRows(fs[0].partition, Live(fs[0]));
      EntryRowsConcat(Tag(fs[0].partition, Live(fs[0])), Entries(fs[1..]));
      FlattenCons(RowsOnly(Live(fs[0])), TableRows(fs[1..]));
    }
  }

  /** Tables with the same contents have the same rows, up to order. */
  lemma {:induction false} SameContentsSameRows(a: seq<Frag>, b: seq<Frag>)
    requires Contents(a) == Contents(b)
    ensures multiset(Flatten(TableRows(a))) == multiset(Flatten(TableRows(b)))
  {
    EntriesAreContents(a);
    EntriesAreContents(b);
    MapPermutation(RowOf(), Entries(a), Entries(b));
    EntriesRows(a);
    EntriesRows(b);
  }

  // ---- adding up the partials of the fragments ----

  /** The partials of all fragments, added up. */
  ghost function PartsCount(ps: seq<ColAgg>): nat { if ps == [] then 0 else ps[0].count + PartsCount(ps[1..]) }
  ghost function PartsSum(ps: seq<ColAgg>): int { if ps == [] then 0 else Num(ps[0].sum) + PartsSum(ps[1..]) }
  ghost function PartsSq(ps: seq<ColAgg>): int { if ps == [] then 0 else Num(ps[0].sumsq) + PartsSq(ps[1..]) }

  ghost predicate AddUp(ps: seq<ColAgg>, t: Totals) {
    PartsCount(ps) == t.count && PartsSum(ps) == t.sum && PartsSq(ps) == t.sumsq
  }

  /** Partials that each represent their fragment's column add up to the table's column. */
  lemma {:induction false} PartsAddUp(fragments: seq<seq<Row>>, ps: seq<ColAgg>, c: Name)
    requires |ps| == |fragments|
    requires forall i :: 0 <= i < |ps| ==> Represents(ps[i], Tot(ColumnOf(fragments[i], c)))
    ensures AddUp(ps, Tot(ColumnOf(Flatten(fragments), c)))
  {
    if ps == [] {
      assert ColumnOf(Flatten(fragments), c) == [];
    } else {
      PartsAddUp(fragments[1..], ps[1..], c);
      ColumnConcat(fragments[0], Flatten(fragments[1..]), c);
      TotConcat(ColumnOf(fragments[0], c), ColumnOf(Flatten(fragments[1..]), c));
    }
  }

  lemma {:induction false} TotalsOfSameRows(a: seq<Row>, b: seq<Row>, c: Name)
    requires multiset(a) == multiset(b)
    ensures Same(Tot(ColumnOf(a, c)), Tot(ColumnOf(b, c)))
  {
    var cell := (r: Row) => Cell(r, c);
    MapPermutation(cell, a, b);
    assert ColumnOf(a, c) == MapSeq(cell, a) && ColumnOf(b, c) == MapSeq(cell, b);
    TotPermutation(ColumnOf(a, c), ColumnOf(b, c));
  }

  /** `before[i]` is the retracted partial of input fragment i. */
  ghost predicate Retracts(fs: seq<Frag>, offs: seq<Offsets>, c: Name, before: seq<ColAgg>) {
    && |offs| == |fs| && |before| == |fs|
    && forall i :: 0 <= i < |fs| ==>
         && Covered(fs[i]) && Lists(offs[i], Dead(fs[i]), |PhysicalRows(fs[i])|)
         && Represents(before[i], Tot(LiveRows(ColumnOf(PhysicalRows(fs[i]), c), offs[i])))
  }

  /** `after[i]` is what the fold computes for output fragment i. */
  ghost predicate Recomputes(out: seq<Frag>, c: Name, after: seq<Option<ColAgg>>) {
    && |after| == |out|
    && forall i :: 0 <= i < |out| ==> IsComputed(ColumnOf(PhysicalRows(out[i]), c), after[i])
  }

  function Values(after: seq<Option<ColAgg>>): (r: seq<ColAgg>)
    requires forall i :: 0 <= i < |after| ==> after[i].Some?
    ensures |r| == |after| && forall i :: 0 <= i < |r| ==> r[i] == after[i].value
  {
    seq(|after|, i requires 0 <= i < |after| => after[i].value)
  }

  lemma {:induction false} LiveColumn(rows: seq<Row>, offs: Offsets, c: Name)
    ensures LiveRows(ColumnOf(rows, c), offs) == ColumnOf(LiveRows(rows, offs), c)
  {
    LiveIncreasing(offs, |rows|);
  }

  /** Every fragment's column is part of the table's column. */
  lemma {:induction false} FragmentFits(fragments: seq<seq<Row>>, i: nat, c: Name)
    requires i < |fragments|
    ensures Tot(ColumnOf(fragments[i], c)).sumsq <= Tot(ColumnOf(Flatten(fragments), c)).sumsq
  {
    ColumnConcat(fragments[0], Flatten(fragments[1..]), c);
    TotConcat(ColumnOf(fragments[0], c), ColumnOf(Flatten(fragments[1..]), c));
    if i > 0 {
      FragmentFits(fragments[1..], i - 1, c);
    }
  }

  lemma {:induction false} OutputRows(out: seq<Frag>, firstId: nat, targetRows: nat, i: nat)
    requires WellShaped(out, firstId, targetRows) && i < |out|
    ensures |TableRows(out)| == |out| && TableRows(out)[i] == PhysicalRows(out[i])
  {
    TableRowsAt(out);
    var ids, rows := Ids(out[i]), PhysicalRows(out[i]);
    OutputMeaning(out[i], out[i].partition, ids, rows);
    RowsOnlyOfPairs(ids, rows);
  }

  lemma {:induction false} InputAddsUp(fs: seq<Frag>, offs: seq<Offsets>, c: Name, before: seq<ColAgg>)
    requires Retracts(fs, offs, c, before)
    ensures AddUp(before, Tot(ColumnOf(Flatten(TableRows(fs)), c)))
  {
    TableRowsAt(fs);
    forall i | 0 <= i < |before|
      ensures Represents(before[i], Tot(ColumnOf(TableRows(fs)[i], c)))
    {
      FragmentRows(fs[i], offs[i]);
      LiveColumn(PhysicalRows(fs[i]), offs[i], c);
    }
    PartsAddUp(TableRows(fs), before, c);
  }

  lemma {:induction false} OutputAddsUp(out: seq<Frag>, firstId: nat, targetRows: nat, c: Name,
                                        after: seq<Option<ColAgg>>)
    requires WellShaped(out, firstId, targetRows) && Recomputes(out, c, after)
    requires Fits(Tot(ColumnOf(Flatten(TableRows(out)), c)))
    ensures forall i :: 0 <= i < |after| ==> after[i].Some?
    ensures AddUp(Values(after), Tot(ColumnOf(Flatten(TableRows(out)), c)))
  {
    TableRowsAt(out);
    forall i | 0 <= i < |after|
      ensures after[i].Some? && Represents(after[i].value, Tot(ColumnOf(TableRows(out)[i], c)))
    {
      OutputRows(out, firstId, targetRows, i);
      FragmentFits(TableRows(out), i, c);
    }
    PartsAddUp(TableRows(out), Values(after), c);
  }

  /** Aggregates survive compaction: when the live sum of squares fits i128, no fresh partial
      overflows, and the fresh partials add up to what the retracted ones added up to. */
  lemma {:induction false} AggregatesSurvive(fs: seq<Frag>, offs: seq<Offsets>, out: seq<Frag>, firstId: nat,
                                             targetRows: nat, c: Name, before: seq<ColAgg>,
                                             after: seq<Option<ColAgg>>)
    requires Contents(out) == Contents(fs) && WellShaped(out, firstId, targetRows)
    requires Retracts(fs, offs, c, before) && Recomputes(out, c, after)
    requires PartsSq(before) <= I128_MAX
    ensures SameTotals(before, after)
  {
    InputAddsUp(fs, offs, c, before);
    SameContentsSameRows(out, fs);
    TotalsOfSameRows(Flatten(TableRows(out)), Flatten(TableRows(fs)), c);
    OutputAddsUp(out, firstId, targetRows, c, after);
  }

  /** So do grouped aggregates, group by group. */
  lemma {:induction false} GroupsSurvive(fs: seq<Frag>, out: seq<Frag>, before: seq<Groups>, after: seq<Groups>,
                                         k: Key, c: Name)
    requires Contents(out) == Contents(fs) && |before| == |fs| && |after| == |out|
    requires |TableRows(fs)| == |fs| && |TableRows(out)| == |out|
    requires forall i :: 0 <= i < |fs| ==> Stands(TableRows(fs)[i], k, c, before[i]) && CellInI128(k, c, before[i])
    requires forall i :: 0 <= i < |out| ==> Stands(TableRows(out)[i], k, c, after[i]) && CellInI128(k, c, after[i])
    requires Fits(Tot(GroupColumn(Flatten(TableRows(fs)), k, c)))
    ensures Stands(Flatten(TableRows(fs)), k, c, MergeParts(map[], before))
    ensures Stands(Flatten(TableRows(fs)), k, c, MergeParts(map[], after))
  {
    var table := Flatten(TableRows(fs));
    SameContentsSameRows(out, fs);
    MergeIsGroupBy(table, TableRows(fs), before, k, c);
    MergeIsGroupBy(table, TableRows(out), after, k, c);
  }

  // ---- a compaction with its aggregates ----

  function ColumnsOf(rows: seq<Row>, names: set<Name>): Columns {
    map c | c in names :: ColumnOf(rows, c)
  }

  /** The retracted partial of one input fragment, from the full one that was kept. */
  method RetractedPartial(f: Frag, offs: Offsets, names: set<Name>, c: Name) returns (live: ColAgg)
    requires |PhysicalRows(f)| <= 0x1_0000_0000 && ValidOffsets(offs, |PhysicalRows(f)|)
    requires c in names && Fits(Tot(ColumnOf(PhysicalRows(f), c)))
    ensures Represents(live, Tot(LiveRows(ColumnOf(PhysicalRows(f), c), offs)))
  {
    var rows := PhysicalRows(f);
    var data := ColumnsOf(rows, names);
    var full := ComputeAggState(data, |rows|);
    assert c in full;
    var state := LivePartials(data, |rows|, offs, full);
    live := state[c];
  }

  /** The fresh partial of one output fragment. */
  method FreshPartial(f: Frag, names: set<Name>, c: Name) returns (r: Option<ColAgg>)
    requires |PhysicalRows(f)| <= 0x1_0000_0000 && c in names
    ensures IsComputed(ColumnOf(PhysicalRows(f), c), r)
  {
    var rows := PhysicalRows(f);
    var data := ColumnsOf(rows, names);
    var state := ComputeAggState(data, |rows|);
    r := if c in state then Some(state[c]) else None;
  }

  /** What the input must satisfy: every full partial was kept. */
  ghost predicate KeptInput(fs: seq<Frag>, offs: seq<Offsets>, c: Name) {
    && |offs| == |fs| && AllCovered(fs)
    && forall i :: 0 <= i < |fs| ==>
         && Lists(offs[i], Dead(fs[i]), |PhysicalRows(fs[i])|) && |PhysicalRows(fs[i])| <= 0x1_0000_0000
         && Fits(Tot(ColumnOf(PhysicalRows(fs[i]), c)))
  }

  method RetractInput(fs: seq<Frag>, offs: seq<Offsets>, names: set<Name>, c: Name) returns (before: seq<ColAgg>)
    requires KeptInput(fs, offs, c) && c in names
    ensures Retracts(fs, offs, c, before)
  {
    before := [];
    for i := 0 to |fs|
      invariant |before| == i
      invariant forall j :: 0 <= j < i ==>
        Represents(before[j], Tot(LiveRows(ColumnOf(PhysicalRows(fs[j]), c), offs[j])))
    {
      var live := RetractedPartial(fs[i], offs[i], names, c);
      before := before + [live];
    }
  }

  method RecomputeOutput(out: seq<Frag>, names: set<Name>, c: Name) returns (after: seq<Option<ColAgg>>)
    requires c in names && forall i :: 0 <= i < |out| ==> |PhysicalRows(out[i])| <= 0x1_0000_0000
    ensures Recomputes(out, c, after)
  {
    after := [];
    for i := 0 to |out|
      invariant |after| == i
      invariant forall j :: 0 <= j < i ==> IsComputed(ColumnOf(PhysicalRows(out[j]), c), after[j])
    {
      var computed := FreshPartial(out[i], names, c);
      after := after + [computed];
    }
  }

  /** Retract the input fragments, compact, and recompute the output fragments: the partials before and
      after add up to the same, and none is missing, when the live sum of squares fits i128. */
  method CompactWithAggregates(fs: seq<Frag>, offs: seq<Offsets>, names: set<Name>, c: Name,
                               targetRows: nat, targetBytes: nat, nextFragmentId: nat, meter: Meter<Row>)
    returns (out: seq<Frag>, before: seq<ColAgg>, after: seq<Option<ColAgg>>)
    requires KeptInput(fs, offs, c) && DistinctIds(fs) && 0 < targetRows <= 0x1_0000_0000 && c in names
    ensures Contents(out) == Contents(fs) && |before| == |fs| && |after| == |out|
    ensures PartsSq(before) <= I128_MAX ==> SameTotals(before, after)
  {
    before := RetractInput(fs, offs, names, c);
    var st, inputRows := Compact(fs, targetRows, targetBytes, nextFragmentId, meter);
    out := st.newEntries;
    after := RecomputeOutput(out, names, c);
    if PartsSq(before) <= I128_MAX {
      AggregatesSurvive(fs, offs, out, nextFragmentId, targetRows, c, before, after);
    }
  }

  /** No partial is missing, and they add up to the same. */
  ghost predicate SameTotals(before: seq<ColAgg>, after: seq<Option<ColAgg>>) {
    && (forall i :: 0 <= i < |after| ==> after[i].Some?)
    && PartsCount(Values(after)) == PartsCount(before)
    && PartsSum(Values(after)) == PartsSum(before)
    && PartsSq(Values(after)) == PartsSq(before)
  }

  /** The groups recomputed from the output fragments are the GROUP BY of the live input. */
  method RegroupOutput(fs: seq<Frag>, out: seq<Frag>, names: set<Name>) returns (r: Option<Groups>)
    requires Contents(out) == Contents(fs)
    requires forall i :: 0 <= i < |TableRows(out)| ==> Kept(TableRows(out)[i], names)
    ensures r.Some? ==> forall k, c :: c in names ==> ExactlyIfFits(Flatten(TableRows(fs)), k, c, r.value)
  {
    SameContentsSameRows(out, fs);
    r := GroupBy(TableRows(out), names, Flatten(TableRows(fs)));
  }

  // ---- what a query reads ----

  /** The cached totals are used when some fragment answers for the type of the column: the first
      fragment's partial decides between the integer and the float path. */
  predicate Usable(ps: seq<ColAgg>) {
    ps == [] || ps[0].sum.Int? || forall i :: 0 <= i < |ps| ==> ps[i].sum.Null?
  }

  lemma {:induction false} PartsSnoc(ps: seq<ColAgg>, p: ColAgg)
    ensures PartsCount(ps + [p]) == PartsCount(ps) + p.count
    ensures PartsSum(ps + [p]) == PartsSum(ps) + Num(p.sum)
    ensures PartsSq(ps + [p]) == PartsSq(ps) + Num(p.sumsq)
  {
    if ps == [] {
      assert ps + [p] == [p] && [p][1..] == [];
    } else {
      assert (ps + [p])[1..] == ps[1..] + [p];
      PartsSnoc(ps[1..], p);
    }
  }

  /** Partials whose running totals stay within i128. */
  ghost predicate PrefixesFit(ps: seq<ColAgg>) {
    forall i :: 0 <= i <= |ps| ==> InI128(PartsSum(ps[..i])) && InI128(PartsSq(ps[..i]))
  }

  ghost predicate Paired(ps: seq<ColAgg>) {
    forall i :: 0 <= i < |ps| ==> (ps[i].sum.Null? <==> ps[i].sumsq.Null?)
  }

  datatype ColumnTotal = ColumnTotal(count: nat, sum: int, sumsq: int)

  /** A row group of the scan plan: its aggregate state, if it could be loaded, and what decides whether
      the state is current. */
  datatype FragmentState = FragmentState(contentHash: string, cols: ColAggs)

  datatype Planned = Planned(fallback: bool, state: Option<FragmentState>, deletedCount: nat, checksum: string)

  /** A clean fragment's state must carry the fragment's checksum; that of a dirty one was retracted. */
  predicate HasPartial(rg: Planned, c: Name) {
    && !rg.fallback && rg.state.Some?
    && (rg.deletedCount == 0 ==> rg.state.value.contentHash == rg.checksum)
    && c in rg.state.value.cols
  }

  ghost predicate HaveAll(rgs: seq<Planned>, c: Name) {
    forall i :: 0 <= i < |rgs| ==> HasPartial(rgs[i], c)
  }

  function PartialsOf(rgs: seq<Planned>, c: Name): (ps: seq<ColAgg>)
    requires HaveAll(rgs, c)
    ensures |ps| == |rgs| && forall i :: 0 <= i < |ps| ==> ps[i] == rgs[i].state.value.cols[c]
  {
    seq(|rgs|, i requires 0 <= i < |rgs| => rgs[i].state.value.cols[c])
  }

  /** Sum and sum of squares of a partial are null together. */
  ghost predicate PairedStates(rgs: seq<Planned>) {
    forall i, c :: 0 <= i < |rgs| && HasPartial(rgs[i], c) ==>
      (rgs[i].state.value.cols[c].sum.Null? <==> rgs[i].state.value.cols[c].sumsq.Null?)
  }

  /** `collect_col_partials`: it answers exactly when every row group has a current partial of the column,
      the partials are usable and no running total overflows, and then with the totals. */
  method CollectColumn(rgs: seq<Planned>, c: Name) returns (r: Option<ColumnTotal>)
    requires PairedStates(rgs)
    ensures !HaveAll(rgs, c) ==> r.None?
    ensures r.Some? ==> forall i :: 0 <= i < |rgs| ==>
              && !rgs[i].fallback && rgs[i].state.Some? && c in rgs[i].state.value.cols
              && (rgs[i].deletedCount > 0 || rgs[i].state.value.contentHash == rgs[i].checksum)
    ensures r.None? && HaveAll(rgs, c) ==> !Usable(PartialsOf(rgs, c)) || !PrefixesFit(PartialsOf(rgs, c))
    ensures (forall i :: 0 <= i < |rgs| ==>
               && !rgs[i].fallback && rgs[i].state.Some? && c in rgs[i].state.value.cols
               && (rgs[i].deletedCount > 0 || rgs[i].state.value.contentHash == rgs[i].checksum)) ==> HaveAll(rgs, c)
    ensures HaveAll(rgs, c) ==>
              var ps := PartialsOf(rgs, c);
              && (r.Some? <==> Usable(ps) && PrefixesFit(ps))
              && (r.Some? ==> r.value == ColumnTotal(PartsCount(ps), PartsSum(ps), PartsSq(ps)))
  {
    for i := 0 to |rgs|
      invariant forall j :: 0 <= j < i ==> HasPartial(rgs[j], c)
    {
      if !HasPartial(rgs[i], c) {
        return None;
      }
    }
    r := CollectPartials(PartialsOf(rgs, c));
  }

  /** The second pass: add up, with the first partial deciding between the integer and the float path. */
  method CollectPartials(ps: seq<ColAgg>) returns (r: Option<ColumnTotal>)
    requires Paired(ps)
    ensures r.Some? <==> Usable(ps) && PrefixesFit(ps)
    ensures r.Some? ==> r.value == ColumnTotal(PartsCount(ps), PartsSum(ps), PartsSq(ps))
  {
    var n: nat, sum: int, sumsq: int := 0, 0, 0;
    assert ps[..0] == [];
    var isInt := |ps| > 0 && ps[0].sum.Int?;
    for i := 0 to |ps|
      invariant n == PartsCount(ps[..i]) && sum == PartsSum(ps[..i]) && sumsq == PartsSq(ps[..i])
      invariant forall j :: 0 <= j <= i ==> InI128(PartsSum(ps[..j])) && InI128(PartsSq(ps[..j]))
      invariant !isInt ==> forall j :: 0 <= j < i ==> ps[j].sum.Null?
    {
      assert ps[..i + 1] == ps[..i] + [ps[i]];
      PartsSnoc(ps[..i], ps[i]);
      n := n + ps[i].count;
      if ps[i].sum.Int? {
        if !isInt {
          assert !Usable(ps);
          return None;
        }
        if !InI128(sum + ps[i].sum.v) || !InI128(sumsq + ps[i].sumsq.v) {
          assert i + 1 <= |ps|;
          return None;
        }
        sum, sumsq := sum + ps[i].sum.v, sumsq + ps[i].sumsq.v;
      }
    }
    assert ps[..|ps|] == ps;
    return Some(ColumnTotal(n, sum, sumsq));
  }
}