// Per-group partials across fragments and under deletions
// (`merge_grouped` and `retract_grouped` in crates/icefalldb-core/src/agg_cache.rs).
module GroupedMerge {
  import opened Collections
  import opened Permutations
  import opened Selection
  import opened AggPartials
  import opened AggState
  import opened GroupedAgg
  import opened MachineIntegers

  // ---- the meaning of a cell ----

  /** The partial of one measure in one group, if there is one. */
  function Slot(cols: ColAggs, c: Name): Option<ColAgg> {
    if c in cols then Some(cols[c]) else None
  }

  /** The groups carry measure `c` of group `k`, with the totals of exactly these rows. A group
      without rows may be present (every row deleted) or absent. */
  ghost predicate Stands(rows: seq<Row>, k: Key, c: Name, groups: Groups) {
    && (k in KeysOf(rows) ==> k in groups)
    && (k in groups ==> c in groups[k] && Represents(groups[k][c], Tot(GroupColumn(rows, k, c))))
  }

  lemma {:induction false} GroupedStands(rows: seq<Row>, names: set<Name>, groups: Groups, k: Key, c: Name)
    requires IsGrouped(rows, names, groups) && c in names
    ensures Stands(rows, k, c, groups)
  {
    if k in groups {
      assert IsGroup(rows, names, k, groups[k]);
    }
  }

  predicate ScalarInI128(s: AggScalar) { InI128(Num(s)) }

  ghost predicate CellInI128(k: Key, c: Name, groups: Groups) {
    k in groups && c in groups[k] ==> ScalarInI128(groups[k][c].sum) && ScalarInI128(groups[k][c].sumsq)
  }

  // ---- merging ----

  function MergeSlot(existing: Option<ColAgg>, incoming: Option<ColAgg>): Option<ColAgg> {
    if existing.None? then incoming
    else if incoming.None? then existing
    else MergeCols(existing.value, incoming.value)
  }

  function MergeInto(entry: ColAggs, cols: ColAggs): (r: ColAggs)
    ensures forall c :: Slot(r, c) == MergeSlot(Slot(entry, c), Slot(cols, c))
  {
    map c | c in entry.Keys + cols.Keys && MergeSlot(Slot(entry, c), Slot(cols, c)).Some? ::
      MergeSlot(Slot(entry, c), Slot(cols, c)).value
  }

  function EntryOf(merged: Groups, k: Key): ColAggs {
    if k in merged then merged[k] else map[]
  }

  function MergePart(merged: Groups, part: Groups): Groups {
    map k | k in merged.Keys + part.Keys ::
      if k in part then MergeInto(EntryOf(merged, k), part[k]) else merged[k]
  }

  function MergeParts(merged: Groups, parts: seq<Groups>): Groups
    decreases |parts|
  {
    if parts == [] then merged else MergeParts(MergePart(merged, parts[0]), parts[1..])
  }

  method MergeColumns(entry: ColAggs, cols: ColAggs) returns (r: ColAggs)
    ensures r == MergeInto(entry, cols)
  {
    r := entry;
    var todo := cols.Keys;
    while todo != {}
      invariant todo <= cols.Keys
      invariant forall c :: Slot(r, c) == if c in todo then Slot(entry, c) else MergeSlot(Slot(entry, c), Slot(cols, c))
      decreases todo
    {
      var c :| c in todo;
      if c !in r {
        r := r[c := cols[c]];
      } else {
        var merged := MergeCols(r[c], cols[c]);
        if merged.Some? {
          r := r[c := merged.value];
        } else {
          r := r - {c};
        }
      }
      todo := todo - {c};
    }
    SameSlots(r, MergeInto(entry, cols));
  }

  lemma {:induction false} SameSlots(a: ColAggs, b: ColAggs)
    requires forall c :: Slot(a, c) == Slot(b, c)
    ensures a == b
  {
    forall c
      ensures c in a <==> c in b
      ensures c in a ==> a[c] == b[c]
    {
      assert Slot(a, c) == Slot(b, c);
    }
  }

  method MergeOnePart(merged: Groups, part: Groups) returns (r: Groups)
    ensures r == MergePart(merged, part)
  {
    r := merged;
    var todo := part.Keys;
    while todo != {}
      invariant todo <= part.Keys && r.Keys == merged.Keys + (part.Keys - todo)
      invariant forall k :: k in part && k !in todo ==> r[k] == MergeInto(EntryOf(merged, k), part[k])
      invariant forall k :: k in merged && (k !in part || k in todo) ==> r[k] == merged[k]
      decreases todo
    {
      var k :| k in todo;
      var entry := MergeColumns(EntryOf(r, k), part[k]);
      r := r[k := entry];
      todo := todo - {k};
    }
    IsMergePart(merged, part, r);
  }

  lemma {:induction false} IsMergePart(merged: Groups, part: Groups, r: Groups)
    requires r.Keys == merged.Keys + part.Keys
    requires forall k :: k in part ==> r[k] == MergeInto(EntryOf(merged, k), part[k])
    requires forall k :: k in merged && k !in part ==> r[k] == merged[k]
    ensures r == MergePart(merged, part)
  {
    var m := MergePart(merged, part);
    assert m.Keys == r.Keys;
    forall k | k in r
      ensures r[k] == m[k]
    {
    }
  }

  /** `merge_grouped`. */
  method MergeGrouped(parts: seq<Groups>) returns (merged: Groups)
    ensures merged == MergeParts(map[], parts)
  {
    merged := map[];
    for i := 0 to |parts|
      invariant MergeParts(map[], parts) == MergeParts(merged, parts[i..])
    {
      assert parts[i..][1..] == parts[i + 1..];
      merged := MergeOnePart(merged, parts[i]);
    }
  }

  lemma {:induction false} AbsentGroup(rows: seq<Row>, k: Key, c: Name)
    requires k !in KeysOf(rows)
    ensures GroupColumn(rows, k, c) == []
  {
    NoRows(rows, k);
  }

  lemma {:induction false} KeysConcat(a: seq<Row>, b: seq<Row>)
    ensures KeysOf(a + b) == KeysOf(a) + KeysOf(b)
  {
    forall r | r in a + b
      ensures r in a || r in b
    {
    }
    forall k | k in KeysOf(a) + KeysOf(b)
      ensures k in KeysOf(a + b)
    {
      var r :| (r in a || r in b) && r.key == k;
      assert r in a + b;
    }
  }

  lemma {:induction false} GroupTotals(a: seq<Row>, b: seq<Row>, k: Key, c: Name)
    ensures IsSum(Tot(GroupColumn(a + b, k, c)), Tot(GroupColumn(a, k, c)), Tot(GroupColumn(b, k, c)))
    ensures Bounded(Tot(GroupColumn(a, k, c))) && Bounded(Tot(GroupColumn(b, k, c)))
    ensures Bounded(Tot(GroupColumn(a + b, k, c)))
  {
    GroupColumnConcat(a, b, k, c);
    TotConcat(GroupColumn(a, k, c), GroupColumn(b, k, c));
    TotBounds(GroupColumn(a, k, c));
    TotBounds(GroupColumn(b, k, c));
    TotBounds(GroupColumn(a + b, k, c));
  }

  /** One part more: the cell stands for the rows of both. */
  lemma {:induction false} MergePartStands(done: seq<Row>, rows: seq<Row>, k: Key, c: Name, merged: Groups,
                                           part: Groups)
    requires Stands(done, k, c, merged) && Stands(rows, k, c, part)
    requires Fits(Tot(GroupColumn(done + rows, k, c)))
    ensures Stands(done + rows, k, c, MergePart(merged, part))
  {
    KeysConcat(done, rows);
    GroupTotals(done, rows, k, c);
    var r := MergePart(merged, part);
    if k in merged && k in part {
      assert Slot(r[k], c) == MergeSlot(Slot(merged[k], c), Slot(part[k], c));
      MergeColsExact(merged[k][c], part[k][c], Tot(GroupColumn(done, k, c)), Tot(GroupColumn(rows, k, c)),
                     Tot(GroupColumn(done + rows, k, c)));
    } else if k in merged {
      AbsentGroup(rows, k, c);
    } else if k in part {
      AbsentGroup(done, k, c);
      assert Slot(r[k], c) == MergeSlot(Slot(EntryOf(merged, k), c), Slot(part[k], c));
    }
  }

  lemma {:induction false} FirstFragment(done: seq<Row>, fragments: seq<seq<Row>>)
    requires fragments != []
    ensures done + Flatten(fragments) == (done + fragments[0]) + Flatten(fragments[1..])
  {
    assert Flatten(fragments) == fragments[0] + Flatten(fragments[1..]);
  }

  lemma {:induction false} MergePartsStands(done: seq<Row>, fragments: seq<seq<Row>>, k: Key, c: Name, merged: Groups,
                                            parts: seq<Groups>)
    requires |fragments| == |parts| && Stands(done, k, c, merged)
    requires forall i :: 0 <= i < |parts| ==> Stands(fragments[i], k, c, parts[i])
    requires Fits(Tot(GroupColumn(done + Flatten(fragments), k, c)))
    ensures Stands(done + Flatten(fragments), k, c, MergeParts(merged, parts))
    decreases |parts|
  {
    if parts == [] {
      assert done + Flatten(fragments) == done;
    } else {
      var f, rest := fragments[0], fragments[1..];
      FirstFragment(done, fragments);
      assert Fits(Tot(GroupColumn(done + f, k, c))) by {
        GroupTotals(done + f, Flatten(rest), k, c);
      }
      MergePartStands(done, f, k, c, merged, parts[0]);
      assert forall i :: 0 <= i < |rest| ==> rest[i] == fragments[i + 1] && parts[1..][i] == parts[i + 1];
      MergePartsStands(done + f, rest, k, c, MergePart(merged, parts[0]), parts[1..]);
    }
  }

  lemma {:induction false} MergePartInI128(k: Key, c: Name, merged: Groups, part: Groups)
    requires CellInI128(k, c, merged) && CellInI128(k, c, part)
    ensures CellInI128(k, c, MergePart(merged, part))
  {
    if k in part {
      assert Slot(MergePart(merged, part)[k], c) == MergeSlot(Slot(EntryOf(merged, k), c), Slot(part[k], c));
      if k in merged && c in merged[k] && c in part[k] {
        AddExact(merged[k][c].sum, part[k][c].sum);
        AddExact(merged[k][c].sumsq, part[k][c].sumsq);
      }
    }
  }

  lemma {:induction false} MergePartsInI128(k: Key, c: Name, merged: Groups, parts: seq<Groups>)
    requires CellInI128(k, c, merged) && forall i :: 0 <= i < |parts| ==> CellInI128(k, c, parts[i])
    ensures CellInI128(k, c, MergeParts(merged, parts))
    decreases |parts|
  {
    if parts != [] {
      MergePartInI128(k, c, merged, parts[0]);
      MergePartsInI128(k, c, MergePart(merged, parts[0]), parts[1..]);
    }
  }

  ghost predicate InSome(parts: seq<Groups>, k: Key) {
    exists i :: 0 <= i < |parts| && k in parts[i]
  }

  lemma {:induction false} InSomeCons(parts: seq<Groups>, k: Key)
    requires parts != []
    ensures InSome(parts, k) <==> k in parts[0] || InSome(parts[1..], k)
  {
    var rest := parts[1..];
    assert forall i :: 0 <= i < |rest| ==> rest[i] == parts[i + 1];
    if InSome(parts, k) {
      var i :| 0 <= i < |parts| && k in parts[i];
      if i > 0 { assert k in rest[i - 1]; }
    }
    if InSome(rest, k) {
      var i :| 0 <= i < |rest| && k in rest[i];
      assert k in parts[i + 1];
    }
  }

  lemma {:induction false} MergePartsKeys(merged: Groups, parts: seq<Groups>, k: Key)
    ensures k in MergeParts(merged, parts) <==> k in merged || InSome(parts, k)
    decreases |parts|
  {
    if parts != [] {
      MergePartsKeys(MergePart(merged, parts[0]), parts[1..], k);
      InSomeCons(parts, k);
    }
  }

  lemma {:induction false} SameKeys(a: seq<Row>, b: seq<Row>)
    requires multiset(a) == multiset(b)
    ensures KeysOf(a) == KeysOf(b)
  {
    assert forall r :: r in a <==> r in multiset(a);
    assert forall r :: r in b <==> r in multiset(b);
  }

  /** Merging fragments, in any order, gives the group-by of the whole table: for every group and
      every measure that all parts carry, exactly when the group's sum of squares fits i128. */
  lemma {:induction false} MergeIsGroupBy(table: seq<Row>, fragments: seq<seq<Row>>, parts: seq<Groups>, k: Key,
                                          c: Name)
    requires multiset(table) == multiset(Flatten(fragments)) && |fragments| == |parts|
    requires forall i :: 0 <= i < |parts| ==> Stands(fragments[i], k, c, parts[i]) && CellInI128(k, c, parts[i])
    ensures Stands(table, k, c, MergeParts(map[], parts)) <==>
            Fits(Tot(GroupColumn(table, k, c)))
    ensures k in MergeParts(map[], parts) <==> InSome(parts, k)
  {
    var all, merged := Flatten(fragments), MergeParts(map[], parts);
    GroupPermutation(table, all, k, c);
    SameKeys(table, all);
    MergePartsKeys(map[], parts, k);
    MergePartsInI128(k, c, map[], parts);
    if Fits(Tot(GroupColumn(table, k, c))) {
      assert [] + all == all;
      MergePartsStands([], fragments, k, c, map[], parts);
    } else if k !in KeysOf(table) {
      AbsentGroup(table, k, c);
      assert false;
    }
  }

  /** Above the limit the merge does not merely drop the measure: a later part brings it back with
      its own values alone. */
  lemma {:induction false} OverflowedMeasureComesBack(k: Key, c: Name)
    ensures var big := ColAgg(1, Int(1), Int(I128_MAX), None, None);
            var small := ColAgg(1, Int(1), Int(1), None, None);
            var parts := [map[k := map[c := big]], map[k := map[c := big]], map[k := map[c := small]]];
            var merged := MergeParts(map[], parts);
            k in merged && merged[k] == map[c := small]
  {
    var big := ColAgg(1, Int(1), Int(I128_MAX), None, None);
    var small := ColAgg(1, Int(1), Int(1), None, None);
    var b, s := map[k := map[c := big]], map[k := map[c := small]];
    var one := MergePart(map[], b);
    var two := MergePart(one, b);
    var three := MergePart(two, s);
    assert one[k] == map[c := big] by { SameSlots(one[k], map[c := big]); }
    assert MergeCols(big, big) == None;
    assert two[k] == map[] by { SameSlots(two[k], map[]); }
    assert three[k] == map[c := small] by { SameSlots(three[k], map[c := small]); }
    var parts := [b, b, s];
    assert parts[1..] == [b, s] && parts[1..][1..] == [s] && parts[1..][1..][1..] == [];
    assert MergeParts(map[], parts) == MergeParts(one, [b, s]);
    assert MergeParts(one, [b, s]) == MergeParts(two, [s]);
    assert MergeParts(two, [s]) == MergeParts(three, []);
  }

  // ---- retraction ----

  /** One deleted row's effect on one measure of its group; None drops the measure. */
  function RetractSlot(full: Option<ColAgg>, cell: Option<int>): Option<ColAgg> {
    if full.None? || cell.None? || Square(cell.value) > I128_MAX then full
    else
      var r := RetractCol(full.value, ColAgg(1, Int(cell.value), Int(Square(cell.value)), None, None));
      if r.None? then None else Some(r.value.(minOff := None, maxOff := None))
  }

  method RetractRow(full: ColAggs, row: Row, measures: seq<Name>) returns (cols: ColAggs)
    requires Distinct(measures)
    ensures forall c :: c !in measures ==> Slot(cols, c) == Slot(full, c)
    ensures forall c :: c in measures ==> Slot(cols, c) == RetractSlot(Slot(full, c), Cell(row, c))
  {
    cols := full;
    for i := 0 to |measures|
      invariant forall c :: c !in measures[..i] ==> Slot(cols, c) == Slot(full, c)
      invariant forall c :: c in measures[..i] ==> Slot(cols, c) == RetractSlot(Slot(full, c), Cell(row, c))
    {
      var c := measures[i];
      NewMeasure(measures, i);
      assert measures[..i + 1] == measures[..i] + [c];
      var del := FoldRows([Cell(row, c)]);
      TotOne(Cell(row, c));
      if del.Some? && del.value.count != 0 && c in cols {
        var r := RetractCol(cols[c], del.value);
        if r.Some? {
          cols := cols[c := r.value.(minOff := None, maxOff := None)];
        } else {
          cols := cols - {c};
        }
      }
    }
    assert measures[..|measures|] == measures;
  }

  lemma {:induction false} NewMeasure(measures: seq<Name>, i: nat)
    requires Distinct(measures) && i < |measures|
    ensures measures[i] !in measures[..i]
  {
    assert forall j :: 0 <= j < i ==> measures[..i][j] == measures[j] != measures[i];
  }

  lemma {:induction false} RetractSlotExact(full: ColAgg, cell: Option<int>, all: Totals, rest: Totals)
    requires Represents(full, all) && IsSum(all, One(cell), rest) && Fits(all) && Bounded(rest)
    ensures RetractSlot(Some(full), cell).Some?
    ensures Represents(RetractSlot(Some(full), cell).value, rest)
  {
    if cell.Some? {
      RetractColExact(full, ColAgg(1, Int(cell.value), Int(Square(cell.value)), None, None), all, One(cell), rest);
    }
  }

  ghost predicate AllStand(rows: seq<Row>, names: set<Name>, groups: Groups) {
    forall k, c :: k in groups && c in names ==>
      c in groups[k] && Represents(groups[k][c], Tot(GroupColumn(rows, k, c)))
  }

  ghost predicate AllFit(rows: seq<Row>, names: set<Name>) {
    forall k: Key, c :: c in names ==> Fits(Tot(GroupColumn(rows, k, c)))
  }

  /** Subtracting one row from its group moves the meaning of every group to the remaining rows. */
  lemma {:induction false} RetractOneRow(row: Row, rest: seq<Row>, names: set<Name>, before: Groups, after: Groups)
    requires AllStand([row] + rest, names, before) && AllFit([row] + rest, names)
    requires after.Keys == before.Keys
    requires forall k :: k in before && k != row.key ==> after[k] == before[k]
    requires row.key in before ==>
               forall c :: c in names ==> Slot(after[row.key], c) == RetractSlot(Slot(before[row.key], c), Cell(row, c))
    ensures AllStand(rest, names, after) && AllFit(rest, names)
  {
    forall k: Key, c | c in names
      ensures Fits(Tot(GroupColumn(rest, k, c)))
      ensures k in after ==> c in after[k] && Represents(after[k][c], Tot(GroupColumn(rest, k, c)))
    {
      GroupCons(row, rest, k, c);
      if k in before && k == row.key {
        TotBounds(GroupColumn(rest, k, c));
        assert Slot(after[k], c) == RetractSlot(Slot(before[k], c), Cell(row, c));
        var all := Tot(GroupColumn([row] + rest, k, c));
        RetractSlotExact(before[k][c], Cell(row, c), all, Tot(GroupColumn(rest, k, c)));
      }
    }
  }

  ghost predicate OthersUnchanged(full: Groups, live: Groups, measures: seq<Name>)
    requires live.Keys == full.Keys
  {
    forall k, c :: k in full && c !in measures ==> Slot(live[k], c) == Slot(full[k], c)
  }

  method RetractStep(ghost full: Groups, before: Groups, row: Row, measures: seq<Name>, ghost rest: seq<Row>,
                     ghost wanted: set<Name>)
    returns (live: Groups)
    requires Distinct(measures) && wanted == (set c | c in measures) && before.Keys == full.Keys
    requires AllStand([row] + rest, wanted, before) && AllFit([row] + rest, wanted)
    requires OthersUnchanged(full, before, measures)
    ensures live.Keys == full.Keys && AllStand(rest, wanted, live) && AllFit(rest, wanted)
    ensures OthersUnchanged(full, live, measures)
  {
    live := before;
    if row.key in live {
      var cols := RetractRow(live[row.key], row, measures);
      live := live[row.key := cols];
    }
    RetractOneRow(row, rest, wanted, before, live);
  }

  /** The loop over the deleted rows. */
  method RetractAll(full: Groups, deleted: seq<Row>, measures: seq<Name>, ghost rest: seq<Row>, ghost wanted: set<Name>)
    returns (live: Groups)
    requires Distinct(measures) && wanted == (set c | c in measures)
    requires AllStand(deleted + rest, wanted, full) && AllFit(deleted + rest, wanted)
    ensures live.Keys == full.Keys && AllStand(rest, wanted, live)
    ensures OthersUnchanged(full, live, measures)
  {
    live := full;
    assert deleted[0..] == deleted;
    for i := 0 to |deleted|
      invariant live.Keys == full.Keys && OthersUnchanged(full, live, measures)
      invariant AllStand(deleted[i..] + rest, wanted, live) && AllFit(deleted[i..] + rest, wanted)
    {
      assert deleted[i..] + rest == [deleted[i]] + (deleted[i + 1..] + rest);
      live := RetractStep(full, live, deleted[i], measures, deleted[i + 1..] + rest, wanted);
    }
    assert deleted[|deleted|..] + rest == rest;
  }

  /** `retract_grouped`: the group-by of the live rows, for the requested measures. Emptied groups stay. */
  method RetractGrouped(rows: seq<Row>, ghost names: set<Name>, full: Groups, offs: Offsets, measures: seq<Name>)
    returns (live: Groups)
    requires IsGrouped(rows, names, full) && Kept(rows, names) && ValidOffsets(offs, |rows|)
    requires Distinct(measures) && forall c :: c in measures ==> c in names
    ensures live.Keys == full.Keys
    ensures forall k, c :: c in measures ==> Stands(LiveRows(rows, offs), k, c, live)
    ensures OthersUnchanged(full, live, measures)
  {
    ghost var wanted := set c | c in measures;
    ghost var liveRows := LiveRows(rows, offs);
    RowsSplit(rows, offs);
    var deleted := ReadDeleted(rows, offs);
    StartRetract(rows, names, full, deleted, liveRows, wanted);
    live := RetractAll(full, deleted, measures, liveRows, wanted);
    LiveKeys(rows, offs);
    LiveStands(liveRows, live, measures, wanted);
  }

  lemma {:induction false} LiveStands(rows: seq<Row>, live: Groups, measures: seq<Name>, wanted: set<Name>)
    requires AllStand(rows, wanted, live) && KeysOf(rows) <= live.Keys
    requires forall c :: c in measures ==> c in wanted
    ensures forall k, c :: c in measures ==> Stands(rows, k, c, live)
  {
  }

  lemma {:induction false} StartRetract(rows: seq<Row>, names: set<Name>, full: Groups, deleted: seq<Row>,
                                        live: seq<Row>, wanted: set<Name>)
    requires IsGrouped(rows, names, full) && Kept(rows, names) && wanted <= names
    requires multiset(deleted + live) == multiset(rows)
    ensures AllStand(deleted + live, wanted, full) && AllFit(deleted + live, wanted)
  {
    forall k: Key, c | c in wanted
      ensures Fits(Tot(GroupColumn(deleted + live, k, c)))
      ensures k in full ==> c in full[k] && Represents(full[k][c], Tot(GroupColumn(deleted + live, k, c)))
    {
      GroupPermutation(rows, deleted + live, k, c);
      GroupIsPart(rows, k, c);
      if k in full {
        assert IsGroup(rows, names, k, full[k]);
      }
    }
  }

  lemma {:induction false} LiveKeys(rows: seq<Row>, offs: Offsets)
    requires ValidOffsets(offs, |rows|)
    ensures KeysOf(LiveRows(rows, offs)) <= KeysOf(rows)
  {
    RowsSplit(rows, offs);
    forall r | r in LiveRows(rows, offs)
      ensures r in rows
    {
      assert r in multiset(DeletedRows(rows, offs) + LiveRows(rows, offs));
    }
  }

  // ---- a warm GROUP BY over a table with deletions ----

  /** A fragment as the scan planner sees it: its rows, its full per-group partials, its deletion vector. */
  datatype Part = Part(rows: seq<Row>, full: Groups, offs: Offsets)

  ghost predicate PartOk(p: Part, names: set<Name>) {
    IsGrouped(p.rows, names, p.full) && Kept(p.rows, names) && ValidOffsets(p.offs, |p.rows|)
  }

  function LiveParts(ps: seq<Part>): (r: seq<seq<Row>>)
    ensures |r| == |ps| && forall i :: 0 <= i < |ps| ==> r[i] == LiveRows(ps[i].rows, ps[i].offs)
  {
    seq(|ps|, i requires 0 <= i < |ps| => LiveRows(ps[i].rows, ps[i].offs))
  }

  ghost predicate PartStands(p: Part, measures: seq<Name>, live: Groups) {
    forall k, c :: c in measures ==> Stands(LiveRows(p.rows, p.offs), k, c, live)
  }

  lemma {:induction false} StandsInI128(p: Part, names: set<Name>, k: Key, c: Name, live: Groups)
    requires PartOk(p, names) && c in names && Stands(LiveRows(p.rows, p.offs), k, c, live)
    ensures CellInI128(k, c, live)
  {
    RowsSplit(p.rows, p.offs);
    var gone, rest := DeletedRows(p.rows, p.offs), LiveRows(p.rows, p.offs);
    GroupPermutation(p.rows, gone + rest, k, c);
    GroupTotals(gone, rest, k, c);
    GroupIsPart(p.rows, k, c);
  }

  method RetractPart(p: Part, ghost names: set<Name>, measures: seq<Name>) returns (live: Groups)
    requires PartOk(p, names) && Distinct(measures) && forall c :: c in measures ==> c in names
    ensures PartStands(p, measures, live)
  {
    live := RetractGrouped(p.rows, names, p.full, p.offs, measures);
  }

  /** Retract every fragment, then merge: the GROUP BY of the live table, for every group whose sum
      of squares fits i128. */
  method WarmGroupBy(ps: seq<Part>, ghost names: set<Name>, measures: seq<Name>) returns (merged: Groups)
    requires forall i :: 0 <= i < |ps| ==> PartOk(ps[i], names)
    requires Distinct(measures) && forall c :: c in measures ==> c in names
    ensures forall k, c :: c in measures ==> ExactlyIfFits(Flatten(LiveParts(ps)), k, c, merged)
  {
    var parts: seq<Groups> := [];
    for i := 0 to |ps|
      invariant |parts| == i
      invariant forall j :: 0 <= j < i ==> PartStands(ps[j], measures, parts[j])
    {
      var live := RetractPart(ps[i], names, measures);
      parts := parts + [live];
    }
    merged := MergeGrouped(parts);
    WarmCells(ps, names, measures, parts);
  }

  /** The cell is there with the right totals exactly when they fit. */
  ghost predicate ExactlyIfFits(table: seq<Row>, k: Key, c: Name, merged: Groups) {
    Stands(table, k, c, merged) <==> Fits(Tot(GroupColumn(table, k, c)))
  }

  lemma {:induction false} WarmCells(ps: seq<Part>, names: set<Name>, measures: seq<Name>, parts: seq<Groups>)
    requires |parts| == |ps| && forall c :: c in measures ==> c in names
    requires forall i :: 0 <= i < |ps| ==> PartOk(ps[i], names)
    requires forall i :: 0 <= i < |ps| ==> PartStands(ps[i], measures, parts[i])
    ensures forall k, c :: c in measures ==> ExactlyIfFits(Flatten(LiveParts(ps)), k, c, MergeParts(map[], parts))
  {
    forall k, c | c in measures
      ensures ExactlyIfFits(Flatten(LiveParts(ps)), k, c, MergeParts(map[], parts))
    {
      WarmCell(ps, names, measures, parts, k, c);
    }
  }

  lemma {:induction false} WarmCell(ps: seq<Part>, names: set<Name>, measures: seq<Name>, parts: seq<Groups>, k: Key,
                                    c: Name)
    requires |parts| == |ps| && c in measures && c in names
    requires forall i :: 0 <= i < |ps| ==> PartOk(ps[i], names)
    requires forall i :: 0 <= i < |ps| ==> PartStands(ps[i], measures, parts[i])
    ensures ExactlyIfFits(Flatten(LiveParts(ps)), k, c, MergeParts(map[], parts))
  {
    forall i | 0 <= i < |parts|
      ensures Stands(LiveParts(ps)[i], k, c, parts[i]) && CellInI128(k, c, parts[i])
    {
      assert PartOk(ps[i], names) && PartStands(ps[i], measures, parts[i]);
      StandsInI128(ps[i], names, k, c, parts[i]);
    }
    MergeIsGroupBy(Flatten(LiveParts(ps)), LiveParts(ps), parts, k, c);
  }

  // ---- a GROUP BY from fresh partials ----

  lemma {:induction false} GroupedInI128(rows: seq<Row>, names: set<Name>, groups: Groups, k: Key, c: Name)
    requires IsGrouped(rows, names, groups) && Kept(rows, names) && c in names
    ensures CellInI128(k, c, groups)
  {
    if k in groups {
      assert IsGroup(rows, names, k, groups[k]);
      GroupIsPart(rows, k, c);
      TotBounds(GroupColumn(rows, k, c));
      RepresentsInI128(groups[k][c], Tot(GroupColumn(rows, k, c)));
    }
  }

  lemma {:induction false} RepresentsInI128(a: ColAgg, t: Totals)
    requires Represents(a, t) && Fits(t) && Bounded(t)
    ensures ScalarInI128(a.sum) && ScalarInI128(a.sumsq)
  {
  }

  ghost predicate AllGrouped(fragments: seq<seq<Row>>, names: set<Name>, parts: seq<Groups>) {
    |parts| == |fragments| && forall i :: 0 <= i < |parts| ==> IsGrouped(fragments[i], names, parts[i])
  }

  method GroupFragments(fragments: seq<seq<Row>>, names: set<Name>) returns (r: Option<seq<Groups>>)
    requires forall i :: 0 <= i < |fragments| ==> Kept(fragments[i], names)
    ensures r.Some? <==> forall i :: 0 <= i < |fragments| ==> |KeysOf(fragments[i])| <= MAX_DECLARED_GROUPS
    ensures r.Some? ==> AllGrouped(fragments, names, r.value)
  {
    var parts: seq<Groups> := [];
    for i := 0 to |fragments|
      invariant |parts| == i && forall j :: 0 <= j < i ==> IsGrouped(fragments[j], names, parts[j])
      invariant forall j :: 0 <= j < i ==> |KeysOf(fragments[j])| <= MAX_DECLARED_GROUPS
    {
      var groups := ComputeGrouped(fragments[i], names);
      if groups.None? {
        return None;
      }
      parts := parts + [groups.value];
    }
    return Some(parts);
  }

  /** Compute every fragment's groups and merge them: the GROUP BY of the table, in whatever order the
      fragments hold its rows. There is no answer exactly when a fragment has too many groups. */
  method GroupBy(fragments: seq<seq<Row>>, names: set<Name>, ghost table: seq<Row>) returns (r: Option<Groups>)
    requires multiset(table) == multiset(Flatten(fragments))
    requires forall i :: 0 <= i < |fragments| ==> Kept(fragments[i], names)
    ensures r.Some? <==> forall i :: 0 <= i < |fragments| ==> |KeysOf(fragments[i])| <= MAX_DECLARED_GROUPS
    ensures r.Some? ==> forall k, c :: c in names ==> ExactlyIfFits(table, k, c, r.value)
  {
    var parts := GroupFragments(fragments, names);
    if parts.None? {
      return None;
    }
    var merged := MergeGrouped(parts.value);
    MergedGroups(fragments, names, table, parts.value);
    return Some(merged);
  }

  lemma {:induction false} MergedGroups(fragments: seq<seq<Row>>, names: set<Name>, table: seq<Row>, parts: seq<Groups>)
    requires multiset(table) == multiset(Flatten(fragments)) && AllGrouped(fragments, names, parts)
    requires forall i :: 0 <= i < |fragments| ==> Kept(fragments[i], names)
    ensures forall k, c :: c in names ==> ExactlyIfFits(table, k, c, MergeParts(map[], parts))
  {
    forall k, c | c in names
      ensures ExactlyIfFits(table, k, c, MergeParts(map[], parts))
    {
      MergedGroup(fragments, names, table, parts, k, c);
    }
  }

  lemma {:induction false} MergedGroup(fragments: seq<seq<Row>>, names: set<Name>, table: seq<Row>,
                                       parts: seq<Groups>, k: Key, c: Name)
    requires multiset(table) == multiset(Flatten(fragments)) && AllGrouped(fragments, names, parts) && c in names
    requires forall i :: 0 <= i < |fragments| ==> Kept(fragments[i], names)
    ensures ExactlyIfFits(table, k, c, MergeParts(map[], parts))
  {
    forall i | 0 <= i < |parts|
      ensures Stands(fragments[i], k, c, parts[i]) && CellInI128(k, c, parts[i])
    {
      GroupedStands(fragments[i], names, parts[i], k, c);
      GroupedInI128(fragments[i], names, parts[i], k, c);
    }
    MergeIsGroupBy(table, fragments, parts, k, c);
  }
}
