// Per-group partials: computed per fragment, merged across fragments, retracted for deletions
// (`compute_agg_state_with_key`, `merge_grouped` and `retract_grouped` in
// crates/icefalldb-core/src/agg_cache.rs).
module GroupedAgg {
  import opened Collections
  import opened Permutations
  import opened Selection
  import opened AggPartials
  import opened AggState

  const MAX_DECLARED_GROUPS: nat := 4096

  type Key = string

  /** A row: its group key in canonical form and its measure cells. */
  datatype Row = Row(key: Key, cells: map<Name, Option<int>>)

  type Groups = map<Key, ColAggs>

  function Cell(r: Row, c: Name): Option<int> {
    if c in r.cells then r.cells[c] else None
  }

  function ColumnOf(rows: seq<Row>, c: Name): (col: Column)
    ensures |col| == |rows| && forall i :: 0 <= i < |rows| ==> col[i] == Cell(rows[i], c)
  {
    seq(|rows|, i requires 0 <= i < |rows| => Cell(rows[i], c))
  }

  function RowsOf(rows: seq<Row>, k: Key): seq<Row> {
    if rows == [] then []
    else if rows[0].key == k then [rows[0]] + RowsOf(rows[1..], k)
    else RowsOf(rows[1..], k)
  }

  /** The measure column of one group. */
  function GroupColumn(rows: seq<Row>, k: Key, c: Name): Column {
    ColumnOf(RowsOf(rows, k), c)
  }

  /** The column of a group holds exactly the values its rows have for the measure. */
  lemma {:induction false} GroupColumnHas(rows: seq<Row>, k: Key, c: Name, v: int)
    ensures Some(v) in GroupColumn(rows, k, c) <==>
            exists i :: 0 <= i < |rows| && rows[i].key == k && c in rows[i].cells && rows[i].cells[c] == Some(v)
    ensures |GroupColumn(rows, k, c)| == |RowsOf(rows, k)|
  {
    var group := RowsOf(rows, k);
    RowsOfMembers(rows, k);
    if Some(v) in GroupColumn(rows, k, c) {
      var j :| 0 <= j < |group| && GroupColumn(rows, k, c)[j] == Some(v);
      assert group[j] in group && group[j] in rows;
      var i :| 0 <= i < |rows| && rows[i] == group[j];
    }
    if i :| 0 <= i < |rows| && rows[i].key == k && c in rows[i].cells && rows[i].cells[c] == Some(v) {
      assert rows[i] in group;
      var j :| 0 <= j < |group| && group[j] == rows[i];
      assert GroupColumn(rows, k, c)[j] == Some(v);
    }
  }

  lemma {:induction false} RowsOfMembers(rows: seq<Row>, k: Key)
    ensures forall r :: r in RowsOf(rows, k) <==> r in rows && r.key == k
  {
    if rows != [] {
      RowsOfMembers(rows[1..], k);
      assert forall r :: r in rows <==> r == rows[0] || r in rows[1..];
    }
  }

  function KeysOf(rows: seq<Row>): set<Key> { set r | r in rows :: r.key }

  // ---- lemmas about the vocabulary ----

  lemma {:induction false} ColumnConcat(a: seq<Row>, b: seq<Row>, c: Name)
    ensures ColumnOf(a + b, c) == ColumnOf(a, c) + ColumnOf(b, c)
  {
  }

  lemma {:induction false} RowsOfConcat(a: seq<Row>, b: seq<Row>, k: Key)
    ensures RowsOf(a + b, k) == RowsOf(a, k) + RowsOf(b, k)
  {
    if a == [] {
      assert a + b == b;
    } else {
      assert (a + b)[1..] == a[1..] + b;
      RowsOfConcat(a[1..], b, k);
    }
  }

  lemma {:induction false} GroupColumnConcat(a: seq<Row>, b: seq<Row>, k: Key, c: Name)
    ensures GroupColumn(a + b, k, c) == GroupColumn(a, k, c) + GroupColumn(b, k, c)
  {
    RowsOfConcat(a, b, k);
    ColumnConcat(RowsOf(a, k), RowsOf(b, k), c);
  }

  /** A group's column holds no rows exactly when the key does not occur. */
  lemma {:induction false} NoRows(rows: seq<Row>, k: Key)
    ensures k in KeysOf(rows) <==> RowsOf(rows, k) != []
  {
    if rows != [] {
      NoRows(rows[1..], k);
      assert rows == [rows[0]] + rows[1..];
      assert rows[0] in rows;
      assert forall r :: r in rows[1..] ==> r in rows;
    }
  }

  lemma {:induction false} GroupColumnRemove(rows: seq<Row>, k: Key, c: Name, i: nat)
    requires i < |rows|
    ensures var rest := rows[..i] + rows[i + 1..];
            if rows[i].key == k
            then IsSum(Tot(GroupColumn(rows, k, c)), Tot(GroupColumn(rest, k, c)), One(Cell(rows[i], c)))
            else Same(Tot(GroupColumn(rows, k, c)), Tot(GroupColumn(rest, k, c)))
  {
    var a, b := rows[..i], rows[i + 1..];
    assert rows == a + ([rows[i]] + b);
    GroupColumnConcat(a, [rows[i]] + b, k, c);
    GroupColumnConcat([rows[i]], b, k, c);
    GroupColumnConcat(a, b, k, c);
    TotConcat(GroupColumn(a, k, c), GroupColumn([rows[i]] + b, k, c));
    TotConcat(GroupColumn([rows[i]], k, c), GroupColumn(b, k, c));
    TotConcat(GroupColumn(a, k, c), GroupColumn(b, k, c));
    GroupOfOne(rows[i], k, c);
  }

  lemma {:induction false} GroupOfOne(r: Row, k: Key, c: Name)
    ensures GroupColumn([r], k, c) == if r.key == k then [Cell(r, c)] else []
    ensures r.key == k ==> Same(Tot(GroupColumn([r], k, c)), One(Cell(r, c)))
    ensures r.key != k ==> Same(Tot(GroupColumn([r], k, c)), Totals(0, 0, 0))
  {
    assert [r][1..] == [];
    assert RowsOf([r], k) == if r.key == k then [r] else [];
    TotOne(Cell(r, c));
  }

  /** Removing equal rows changes a group's totals alike. */
  lemma {:induction false} RemoveBoth(a: seq<Row>, i: nat, b: seq<Row>, j: nat, k: Key, c: Name)
    requires i < |a| && j < |b| && a[i] == b[j]
    requires Same(Tot(GroupColumn(a[..i] + a[i + 1..], k, c)), Tot(GroupColumn(b[..j] + b[j + 1..], k, c)))
    ensures Same(Tot(GroupColumn(a, k, c)), Tot(GroupColumn(b, k, c)))
  {
    GroupColumnRemove(a, k, c, i);
    GroupColumnRemove(b, k, c, j);
  }

  /** A group's totals do not depend on the order of the rows. */
  lemma {:induction false} GroupPermutation(a: seq<Row>, b: seq<Row>, k: Key, c: Name)
    requires multiset(a) == multiset(b)
    ensures Same(Tot(GroupColumn(a, k, c)), Tot(GroupColumn(b, k, c)))
    decreases |a|
  {
    if a == [] {
      assert |multiset(b)| == 0;
    } else {
      assert a[0] in multiset(b);
      var i :| 0 <= i < |b| && b[i] == a[0];
      var a', b' := a[..0] + a[1..], b[..i] + b[i + 1..];
      assert multiset(a') == multiset(b') by {
        RemoveAt(a, 0);
        RemoveAt(b, i);
      }
      GroupPermutation(a', b', k, c);
      RemoveBoth(a, 0, b, i, k, c);
    }
  }

  /** A group is part of its column, so its sum of squares is no larger. */
  lemma {:induction false} GroupIsPart(rows: seq<Row>, k: Key, c: Name)
    ensures Tot(GroupColumn(rows, k, c)).sumsq <= Tot(ColumnOf(rows, c)).sumsq
  {
    if rows == [] {
      assert GroupColumn(rows, k, c) == [];
    } else {
      GroupIsPart(rows[1..], k, c);
      assert rows == [rows[0]] + rows[1..];
      GroupColumnConcat([rows[0]], rows[1..], k, c);
      ColumnConcat([rows[0]], rows[1..], c);
      TotConcat(GroupColumn([rows[0]], k, c), GroupColumn(rows[1..], k, c));
      TotConcat(ColumnOf([rows[0]], c), ColumnOf(rows[1..], c));
      GroupOfOne(rows[0], k, c);
      assert ColumnOf([rows[0]], c) == [Cell(rows[0], c)];
      TotOne(Cell(rows[0], c));
    }
  }

  // ---- the groups of one fragment ----

  /** The partials of one group: every measure, folded over exactly the group's rows. */
  ghost predicate IsGroup(rows: seq<Row>, names: set<Name>, k: Key, cols: ColAggs) {
    && cols.Keys == names
    && forall c :: c in names ==> IsPartial(cols[c], Tot(GroupColumn(rows, k, c)))
  }

  /** A folded partial without extremal offsets. */
  ghost predicate IsPartial(a: ColAgg, t: Totals) {
    IsFolded(a, t) && a.minOff == None && a.maxOff == None
  }

  ghost predicate IsGrouped(rows: seq<Row>, names: set<Name>, groups: Groups) {
    && groups.Keys == KeysOf(rows)
    && forall k :: k in groups ==> IsGroup(rows, names, k, groups[k])
  }

  /** Measures are the columns the ungrouped state kept. */
  ghost predicate Kept(rows: seq<Row>, names: set<Name>) {
    forall c :: c in names ==> Fits(Tot(ColumnOf(rows, c)))
  }

  method BucketRows(rows: seq<Row>) returns (buckets: map<Key, seq<Row>>)
    ensures buckets.Keys == KeysOf(rows)
    ensures forall k :: k in buckets ==> buckets[k] == RowsOf(rows, k)
  {
    buckets := map[];
    for i := 0 to |rows|
      invariant buckets.Keys == KeysOf(rows[..i])
      invariant forall k :: k in buckets ==> buckets[k] == RowsOf(rows[..i], k)
    {
      NextBucket(rows, i);
      var k := rows[i].key;
      NoRows(rows[..i], k);
      buckets := buckets[k := (if k in buckets then buckets[k] else []) + [rows[i]]];
    }
    assert rows[..|rows|] == rows;
  }

  lemma {:induction false} NextBucket(rows: seq<Row>, i: nat)
    requires i < |rows|
    ensures KeysOf(rows[..i + 1]) == KeysOf(rows[..i]) + {rows[i].key}
    ensures forall k :: RowsOf(rows[..i + 1], k) == RowsOf(rows[..i], k) + if rows[i].key == k then [rows[i]] else []
  {
    assert rows[..i + 1] == rows[..i] + [rows[i]];
    forall k
      ensures RowsOf(rows[..i + 1], k) == RowsOf(rows[..i], k) + if rows[i].key == k then [rows[i]] else []
    {
      RowsOfConcat(rows[..i], [rows[i]], k);
      assert [rows[i]][1..] == [];
    }
  }

  /** One group: no measure overflows, because the whole column did not. */
  method FoldGroup(rows: seq<Row>, names: set<Name>, k: Key, bucket: seq<Row>) returns (cols: ColAggs)
    requires Kept(rows, names) && bucket == RowsOf(rows, k)
    ensures IsGroup(rows, names, k, cols)
  {
    cols := map[];
    var todo := names;
    while todo != {}
      invariant todo <= names && cols.Keys == names - todo
      invariant forall c :: c in cols ==> IsPartial(cols[c], Tot(GroupColumn(rows, k, c)))
      decreases todo
    {
      var c :| c in todo;
      var agg := FoldRows(ColumnOf(bucket, c));
      GroupIsPart(rows, k, c);
      assert ColumnOf(bucket, c) == GroupColumn(rows, k, c);
      cols := cols[c := agg.value];
      todo := todo - {c};
    }
  }

  /** The grouped part of `compute_agg_state_with_key`: absent exactly above the cardinality guard. */
  method ComputeGrouped(rows: seq<Row>, names: set<Name>) returns (r: Option<Groups>)
    requires Kept(rows, names)
    ensures r.Some? <==> |KeysOf(rows)| <= MAX_DECLARED_GROUPS
    ensures r.Some? ==> IsGrouped(rows, names, r.value)
  {
    var buckets := BucketRows(rows);
    assert |buckets| == |buckets.Keys|;
    if |buckets| > MAX_DECLARED_GROUPS {
      return None;
    }
    var groups: Groups := map[];
    var todo := buckets.Keys;
    while todo != {}
      invariant todo <= buckets.Keys && groups.Keys == buckets.Keys - todo
      invariant forall k :: k in groups ==> IsGroup(rows, names, k, groups[k])
      decreases todo
    {
      var k :| k in todo;
      var cols := FoldGroup(rows, names, k, buckets[k]);
      groups := groups[k := cols];
      todo := todo - {k};
    }
    return Some(groups);
  }

  // ---- groups partition the fragment ----

  /** The columns of the listed groups, one after the other. */
  ghost function Regrouped(rows: seq<Row>, ks: seq<Key>, c: Name): Column {
    if ks == [] then [] else GroupColumn(rows, ks[0], c) + Regrouped(rows, ks[1..], c)
  }

  /** What one more row adds to one group. */
  function Share(r: Row, k: Key, c: Name): Totals {
    if r.key == k then One(Cell(r, c)) else Totals(0, 0, 0)
  }

  lemma {:induction false} GroupCons(r: Row, rest: seq<Row>, k: Key, c: Name)
    ensures IsSum(Tot(GroupColumn([r] + rest, k, c)), Share(r, k, c), Tot(GroupColumn(rest, k, c)))
  {
    GroupColumnConcat([r], rest, k, c);
    GroupOfOne(r, k, c);
    TotConcat(GroupColumn([r], k, c), GroupColumn(rest, k, c));
  }

  /** What one more row adds to the listed groups. */
  function ShareOfAll(r: Row, ks: seq<Key>, c: Name): Totals {
    if r.key in ks then One(Cell(r, c)) else Totals(0, 0, 0)
  }

  lemma {:induction false} ShareSplits(r: Row, ks: seq<Key>, c: Name)
    requires ks != [] && Distinct(ks)
    ensures IsSum(ShareOfAll(r, ks, c), Share(r, ks[0], c), ShareOfAll(r, ks[1..], c))
  {
    assert ks == [ks[0]] + ks[1..];
  }

  lemma {:induction false} RegroupedCons(r: Row, rest: seq<Row>, ks: seq<Key>, c: Name)
    requires Distinct(ks)
    ensures IsSum(Tot(Regrouped([r] + rest, ks, c)), ShareOfAll(r, ks, c), Tot(Regrouped(rest, ks, c)))
  {
    if ks != [] {
      RegroupedCons(r, rest, ks[1..], c);
      ShareSplits(r, ks, c);
      GroupCons(r, rest, ks[0], c);
      TotConcat(GroupColumn([r] + rest, ks[0], c), Regrouped([r] + rest, ks[1..], c));
      TotConcat(GroupColumn(rest, ks[0], c), Regrouped(rest, ks[1..], c));
    }
  }

  /** Listing every group once, in any order, covers the column exactly. */
  lemma {:induction false} GroupsPartition(rows: seq<Row>, ks: seq<Key>, c: Name)
    requires Distinct(ks)
    requires forall r :: r in rows ==> r.key in ks
    ensures Same(Tot(Regrouped(rows, ks, c)), Tot(ColumnOf(rows, c)))
  {
    if rows == [] {
      RegroupedNone(ks, c);
    } else {
      assert rows[0] in rows;
      GroupsPartition(rows[1..], ks, c);
      PartitionCons(rows[0], rows[1..], ks, c);
      assert rows == [rows[0]] + rows[1..];
    }
  }

  lemma {:induction false} PartitionCons(r: Row, rest: seq<Row>, ks: seq<Key>, c: Name)
    requires Distinct(ks)
    requires r.key in ks && Same(Tot(Regrouped(rest, ks, c)), Tot(ColumnOf(rest, c)))
    ensures Same(Tot(Regrouped([r] + rest, ks, c)), Tot(ColumnOf([r] + rest, c)))
  {
    RegroupedCons(r, rest, ks, c);
    ColumnCons(r, rest, c);
    SameSums(Tot(Regrouped([r] + rest, ks, c)), Tot(ColumnOf([r] + rest, c)), One(Cell(r, c)),
             Tot(Regrouped(rest, ks, c)), Tot(ColumnOf(rest, c)));
  }

  lemma {:induction false} ColumnCons(r: Row, rest: seq<Row>, c: Name)
    ensures IsSum(Tot(ColumnOf([r] + rest, c)), One(Cell(r, c)), Tot(ColumnOf(rest, c)))
  {
    assert ColumnOf([r] + rest, c) == [Cell(r, c)] + ColumnOf(rest, c);
    TotCons(Cell(r, c), ColumnOf(rest, c));
  }

  lemma {:induction false} SameSums(x: Totals, y: Totals, a: Totals, p: Totals, q: Totals)
    requires IsSum(x, a, p) && IsSum(y, a, q) && Same(p, q)
    ensures Same(x, y)
  {
  }

  lemma {:induction false} RegroupedNone(ks: seq<Key>, c: Name)
    ensures Regrouped([], ks, c) == []
  {
    if ks != [] {
      RegroupedNone(ks[1..], c);
    }
  }

  /** Merge the partials of one measure over the listed groups. */
  ghost function MergeListed(groups: Groups, ks: seq<Key>, c: Name): Option<ColAgg>
    requires forall k :: k in ks ==> k in groups && c in groups[k]
  {
    if ks == [] then Some(ColAgg(0, Null, Null, None, None))
    else
      var rest := MergeListed(groups, ks[1..], c);
      if rest.None? then None else MergeCols(groups[ks[0]][c], rest.value)
  }

  lemma {:induction false} MergeListedExact(rows: seq<Row>, names: set<Name>, groups: Groups, ks: seq<Key>, c: Name)
    requires IsGrouped(rows, names, groups) && c in names
    requires forall k :: k in ks ==> k in groups && c in groups[k]
    requires Fits(Tot(Regrouped(rows, ks, c)))
    ensures MergeListed(groups, ks, c).Some?
    ensures IsFolded(MergeListed(groups, ks, c).value, Tot(Regrouped(rows, ks, c)))
  {
    if ks != [] {
      var k, t := ks[0], ks[1..];
      var g, rest := GroupColumn(rows, k, c), Regrouped(rows, t, c);
      TotConcat(g, rest);
      assert ks[0] in ks;
      MergeListedExact(rows, names, groups, t, c);
      TotBounds(g);
      TotBounds(rest);
      TotBounds(g + rest);
      MergeColsExact(groups[k][c], MergeListed(groups, t, c).value, Tot(g), Tot(rest), Tot(g + rest));
    }
  }

  /** Merging all groups of a fragment, in any order, gives the ungrouped partial of the column. */
  lemma {:induction false} GroupsMergeToColumn(rows: seq<Row>, names: set<Name>, groups: Groups, ks: seq<Key>, c: Name)
    requires IsGrouped(rows, names, groups) && Kept(rows, names) && c in names
    requires Distinct(ks)
    requires forall k :: k in ks <==> k in groups
    ensures forall k :: k in ks ==> k in groups && c in groups[k]
    ensures MergeListed(groups, ks, c).Some?
    ensures IsFolded(MergeListed(groups, ks, c).value, Tot(ColumnOf(rows, c)))
  {
    forall r | r in rows
      ensures r.key in ks
    {
      assert r.key in KeysOf(rows);
    }
    forall k | k in ks
      ensures k in groups && c in groups[k]
    {
      assert IsGroup(rows, names, k, groups[k]);
    }
    GroupsPartition(rows, ks, c);
    MergeListedExact(rows, names, groups, ks, c);
  }
}
