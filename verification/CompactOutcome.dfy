// What an attempt of compaction means for the table: every row stays under its id, the output can be
// compacted again, and only a table without physical rows is left as it is
// (`compact_attempt` in crates/icefalldb-core/src/compaction.rs). This ties the rows of `CompactTable` to the
// manifests of `CommitProtocol`.
module CompactOutcome {
  import opened Collections
  import opened RowIds
  import opened Permutations
  import opened Compaction
  import opened CompactTable
  import opened MachineIntegers
  import CommitProtocol

  // ---- the rows of a table by id ----

  function RowMap<R>(ps: seq<(RowId, R)>): map<RowId, R> {
    if ps == [] then map[] else RowMap(ps[1..])[ps[0].0 := ps[0].1]
  }

  function TableMap<R>(fs: seq<Fragment<R>>): map<RowId, R> { RowMap(LiveOf(fs)) }

  /** No two live rows of the table share a row id. */
  ghost predicate UniqueIds<R>(fs: seq<Fragment<R>>) { Distinct(FirstOf(LiveOf(fs))) }

  lemma {:induction false} FirstOfAt<R>(ps: seq<(RowId, R)>)
    ensures |FirstOf(ps)| == |ps| && forall i :: 0 <= i < |ps| ==> FirstOf(ps)[i] == ps[i].0
  {
    if ps != [] {
      FirstOfAt(ps[1..]);
    }
  }

  lemma {:induction false} DistinctTail<R>(ps: seq<(RowId, R)>)
    requires ps != [] && Distinct(FirstOf(ps))
    ensures Distinct(FirstOf(ps[1..])) && forall p :: p in ps[1..] ==> p.0 != ps[0].0
  {
    FirstOfAt(ps);
    assert FirstOf(ps)[1..] == FirstOf(ps[1..]);
    FirstOfAt(ps[1..]);
  }

  /** The map holds exactly the pairs. */
  lemma {:induction false} RowMapHas<R>(ps: seq<(RowId, R)>, id: RowId, row: R)
    requires Distinct(FirstOf(ps))
    ensures id in RowMap(ps) && RowMap(ps)[id] == row <==> (id, row) in ps
  {
    if ps != [] {
      DistinctTail(ps);
      RowMapHas(ps[1..], id, row);
      assert (id, row) in ps <==> (id, row) == ps[0] || (id, row) in ps[1..];
    }
  }

  /** The map of a table holds exactly its live rows, each under its id. */
  lemma {:induction false} TableMapHas<R>(fs: seq<Fragment<R>>, id: RowId, row: R)
    requires UniqueIds(fs)
    ensures id in TableMap(fs) && TableMap(fs)[id] == row <==>
            exists i :: 0 <= i < |fs| && (id, row) in Live(fs[i])
  {
    RowMapHas(LiveOf(fs), id, row);
    LiveOfMember(fs, (id, row));
  }

  lemma {:induction false} LiveOfMember<R>(fs: seq<Fragment<R>>, p: (RowId, R))
    ensures p in LiveOf(fs) <==> exists i :: 0 <= i < |fs| && p in Live(fs[i])
  {
    if fs != [] {
      LiveOfMember(fs[1..], p);
      if p in LiveOf(fs[1..]) {
        var i :| 0 <= i < |fs[1..]| && p in Live(fs[1..][i]);
        assert p in Live(fs[i + 1]);
      }
      if i :| 0 <= i < |fs| && p in Live(fs[i]) {
        if i > 0 { assert p in Live(fs[1..][i - 1]); }
      }
    }
  }

  lemma {:induction false} SameRowMap<R>(a: seq<(RowId, R)>, b: seq<(RowId, R)>)
    requires multiset(a) == multiset(b) && Distinct(FirstOf(a))
    ensures Distinct(FirstOf(b)) && RowMap(a) == RowMap(b)
  {
    SameFirsts(a, b);
    DistinctPermuted(FirstOf(a), FirstOf(b));
    SubMap(a, b);
    SubMap(b, a);
  }

  lemma {:induction false} SameFirsts<R>(a: seq<(RowId, R)>, b: seq<(RowId, R)>)
    requires multiset(a) == multiset(b)
    ensures multiset(FirstOf(a)) == multiset(FirstOf(b))
  {
    var first := (p: (RowId, R)) => p.0;
    FirstOfAt(a);
    FirstOfAt(b);
    MapPermutation(first, a, b);
    assert MapSeq(first, a) == FirstOf(a) && MapSeq(first, b) == FirstOf(b);
  }

  lemma {:induction false} SubMap<R>(a: seq<(RowId, R)>, b: seq<(RowId, R)>)
    requires multiset(a) == multiset(b) && Distinct(FirstOf(a)) && Distinct(FirstOf(b))
    ensures forall id :: id in RowMap(a) ==> id in RowMap(b) && RowMap(b)[id] == RowMap(a)[id]
  {
    forall id | id in RowMap(a)
      ensures id in RowMap(b) && RowMap(b)[id] == RowMap(a)[id]
    {
      RowMapHas(a, id, RowMap(a)[id]);
      assert (id, RowMap(a)[id]) in multiset(b);
      RowMapHas(b, id, RowMap(a)[id]);
    }
  }

  function Untag<R>(): Entry<R> -> (RowId, R) { (e: Entry<R>) => (e.id, e.row) }

  lemma {:induction false} UntagEntries<R>(fs: seq<Fragment<R>>)
    ensures MapSeq(Untag(), Entries(fs)) == LiveOf(fs)
  {
    if fs != [] {
      UntagEntries(fs[1..]);
      assert MapSeq(Untag(), Tag(fs[0].partition, Live(fs[0]))) == Live(fs[0]);
      MapConcat(Untag(), Tag(fs[0].partition, Live(fs[0])), Entries(fs[1..]));
    }
  }

  lemma {:induction false} MapConcat<A, B>(f: A -> B, a: seq<A>, b: seq<A>)
    ensures MapSeq(f, a + b) == MapSeq(f, a) + MapSeq(f, b)
  {
  }

  lemma {:induction false} SameLiveRows<R>(a: seq<Fragment<R>>, b: seq<Fragment<R>>)
    requires Contents(a) == Contents(b)
    ensures multiset(LiveOf(a)) == multiset(LiveOf(b))
  {
    EntriesAreContents(a);
    EntriesAreContents(b);
    MapPermutation(Untag(), Entries(a), Entries(b));
    UntagEntries(a);
    UntagEntries(b);
  }

  /** Tables with the same contents hold the same row under every id. */
  lemma {:induction false} SameTable<R>(fs: seq<Fragment<R>>, out: seq<Fragment<R>>)
    requires Contents(out) == Contents(fs) && UniqueIds(fs)
    ensures UniqueIds(out) && TableMap(out) == TableMap(fs)
  {
    SameLiveRows(fs, out);
    SameRowMap(LiveOf(fs), LiveOf(out));
  }

  /** The manifest that a compaction publishes holds what its fragments hold, when these are a compaction of
      the fragments of the manifest in place. */
  lemma {:induction false} PublishedRows(s: CommitProtocol.State, s': CommitProtocol.State, c: nat,
                                         fs: seq<Fragment<string>>, out: seq<Fragment<string>>)
    requires CommitProtocol.Inv(s) && CommitProtocol.ScansOk(s) && CommitProtocol.IndexesOk(s)
    requires CommitProtocol.Publishes(s, s', c)
    requires s.pointer in s.manifests ==> s.manifests[s.pointer].rows == TableMap(fs)
    requires UniqueIds(fs) && Contents(out) == Contents(fs)
    ensures s'.pointer in s'.manifests && s'.manifests[s'.pointer].rows == TableMap(out)
  {
    CommitProtocol.PublishesOnPredecessor(s, s', c);
    SameTable(fs, out);
  }

  // ---- unique ids are distinct in every partition ----

  lemma {:induction false} FirstOfConcat<R>(a: seq<(RowId, R)>, b: seq<(RowId, R)>)
    ensures FirstOf(a + b) == FirstOf(a) + FirstOf(b)
  {
    FirstOfAt(a);
    FirstOfAt(b);
    FirstOfAt(a + b);
  }

  lemma {:induction false} RestrictIds<R>(fs: seq<Fragment<R>>, keys: set<nat>)
    requires UniqueIds(fs)
    ensures UniqueIds(Restrict(fs, keys))
    ensures forall id :: id in FirstOf(LiveOf(Restrict(fs, keys))) ==> id in FirstOf(LiveOf(fs))
  {
    if fs != [] {
      var a, b := FirstOf(Live(fs[0])), FirstOf(LiveOf(fs[1..]));
      FirstOfConcat(Live(fs[0]), LiveOf(fs[1..]));
      DistinctParts(a, b);
      RestrictIds(fs[1..], keys);
      if fs[0].partition in keys {
        var rest := Restrict(fs[1..], keys);
        assert Restrict(fs, keys)[1..] == rest;
        FirstOfConcat(Live(fs[0]), LiveOf(rest));
        DistinctJoin(a, FirstOf(LiveOf(rest)));
      }
    }
  }

  lemma {:induction false} DistinctParts<T>(a: seq<T>, b: seq<T>)
    requires Distinct(a + b)
    ensures Distinct(a) && Distinct(b) && forall x :: x in a ==> x !in b
  {
    assert forall i :: 0 <= i < |a| ==> (a + b)[i] == a[i];
    assert forall i :: 0 <= i < |b| ==> (a + b)[|a| + i] == b[i];
  }

  lemma {:induction false} DistinctJoin<T>(a: seq<T>, b: seq<T>)
    requires Distinct(a) && Distinct(b) && forall x :: x in a ==> x !in b
    ensures Distinct(a + b)
  {
    assert forall i :: 0 <= i < |a| ==> (a + b)[i] in a;
    assert forall i :: |a| <= i < |a + b| ==> (a + b)[i] in b;
  }

  lemma {:induction false} UniqueIsDistinct<R>(fs: seq<Fragment<R>>)
    requires UniqueIds(fs)
    ensures DistinctIds(fs)
  {
    forall key: nat
      ensures Distinct(FirstOf(LiveOf(OfPartition(fs, key))))
    {
      RestrictIds(fs, {key});
    }
  }

  // ---- the output can be compacted again ----

  lemma {:induction false} LiveInTable<R>(fs: seq<Fragment<R>>, i: nat, p: (RowId, R))
    requires i < |fs| && p in Live(fs[i])
    ensures p in LiveOf(fs)
  {
    if i > 0 {
      LiveInTable(fs[1..], i - 1, p);
    }
  }

  /** Ids of the output are ids of the input, so they stay below the limit. */
  lemma {:induction false} OutputCovered<R>(fs: seq<Fragment<R>>, out: seq<Fragment<R>>, firstId: nat, targetRows: nat)
    requires AllCovered(fs) && Contents(out) == Contents(fs) && WellShaped(out, firstId, targetRows)
    ensures AllCovered(out)
  {
    SmallLiveOf(fs);
    SameLiveRows(fs, out);
    forall i | 0 <= i < |out|
      ensures Covered(out[i])
    {
      var ids, rows := Ids(out[i]), PhysicalRows(out[i]);
      OutputMeaning(out[i], out[i].partition, ids, rows);
      PairsLength(ids, rows);
      forall k | 0 <= k < |ids|
        ensures ids[k] < U64_MAX
      {
        LiveInTable(out, i, Live(out[i])[k]);
        assert Live(out[i])[k] in multiset(LiveOf(fs));
      }
    }
  }

  // ---- when nothing is committed ----

  ghost predicate HasPhysicalRow<R>(fs: seq<Fragment<R>>) {
    exists i :: 0 <= i < |fs| && PhysicalRows(fs[i]) != []
  }

  /** Every physical row is deleted. */
  ghost predicate AllDeleted<R>(fs: seq<Fragment<R>>) {
    forall i, k: nat :: 0 <= i < |fs| && k < |PhysicalRows(fs[i])| ==> k in Dead(fs[i])
  }

  lemma {:induction false} CountsPhysicalRows<R>(fs: seq<Fragment<R>>)
    ensures PhysicalCount(fs) > 0 <==> HasPhysicalRow(fs)
  {
    if fs != [] {
      CountsPhysicalRows(fs[1..]);
      if HasPhysicalRow(fs) && PhysicalRows(fs[0]) == [] {
        var i :| 0 <= i < |fs| && PhysicalRows(fs[i]) != [];
        assert PhysicalRows(fs[1..][i - 1]) != [];
      }
      if HasPhysicalRow(fs[1..]) {
        var i :| 0 <= i < |fs[1..]| && PhysicalRows(fs[1..][i]) != [];
        assert PhysicalRows(fs[i + 1]) != [];
      }
    }
  }

  lemma {:induction false} NoSurvivorsIff<T>(xs: seq<T>, dead: set<nat>, offset: nat)
    ensures Survivors(xs, dead, offset) == [] <==> forall k: nat :: offset <= k < offset + |xs| ==> k in dead
  {
    if xs != [] {
      NoSurvivorsIff(xs[1..], dead, offset + 1);
    }
  }

  lemma {:induction false} NoLiveRowsIff<R>(fs: seq<Fragment<R>>)
    requires AllCovered(fs)
    ensures LiveOf(fs) == [] <==> AllDeleted(fs)
  {
    if fs != [] {
      assert Covered(fs[0]);
      NoLiveRowsIff(fs[1..]);
      PairsLength(Ids(fs[0]), PhysicalRows(fs[0]));
      NoSurvivorsIff(Pairs(Ids(fs[0]), PhysicalRows(fs[0])), Dead(fs[0]), 0);
      assert AllDeleted(fs) <==> AllDeleted(fs[..1]) && AllDeleted(fs[1..]) by { DeletedParts(fs); }
    }
  }

  lemma {:induction false} DeletedParts<R>(fs: seq<Fragment<R>>)
    requires fs != []
    ensures AllDeleted(fs) <==> AllDeleted(fs[..1]) && AllDeleted(fs[1..])
  {
    if AllDeleted(fs) {
      assert forall i :: 0 <= i < |fs[1..]| ==> fs[1..][i] == fs[i + 1];
    }
    if AllDeleted(fs[..1]) && AllDeleted(fs[1..]) {
      assert forall i :: 0 < i < |fs| ==> fs[i] == fs[1..][i - 1];
    }
  }

  /** The count that decides about the empty outcome is of physical rows: it agrees with the number of live
      rows about being zero if and only if there is a live row or no physical row. */
  lemma {:induction false} EmptyMeansAllDeletedIff<R>(fs: seq<Fragment<R>>)
    requires AllCovered(fs)
    ensures (PhysicalCount(fs) == 0 <==> LiveOf(fs) == []) <==> !AllDeleted(fs) || !HasPhysicalRow(fs)
  {
    CountsPhysicalRows(fs);
    NoLiveRowsIff(fs);
  }

  /** A table of one row, which is deleted. */
  function DeletedRow(): seq<Fragment<string>> {
    [Fragment(0, 0, [["x"]], [Range(7, 1)], Some({0}))]
  }

  /** It holds nothing, and yet its compaction counts a row. */
  lemma {:induction false} DeletedRowCounts()
    ensures AllCovered(DeletedRow()) && UniqueIds(DeletedRow())
    ensures Contents(DeletedRow()) == multiset{} && PhysicalCount(DeletedRow()) == 1
  {
    var f := DeletedRow()[0];
    FlattenSnoc([], ["x"]);
    assert f.batches == [] + [["x"]] && PhysicalRows(f) == ["x"];
    assert f.rowIds[1..] == [] && Ids(f) == [7];
    assert Pairs(Ids(f), PhysicalRows(f)) == [(7, "x")];
    assert Live(f) == Survivors([(7, "x")], {0}, 0) == [];
    assert DeletedRow()[1..] == [];
  }

  /** One attempt without sort keys: the table is left as it is when no physical row was read, and otherwise
      replaced by fragments that hold the same row under every id and can be compacted again. */
  method Attempt<R>(fs: seq<Fragment<R>>, targetRows: nat, targetBytes: nat, nextFragmentId: nat,
                    meter: Meter<R>)
    returns (committed: bool, out: seq<Fragment<R>>)
    requires AllCovered(fs) && UniqueIds(fs) && targetRows > 0
    ensures committed <==> HasPhysicalRow(fs)
    ensures !committed ==> out == fs
    ensures AllCovered(out) && UniqueIds(out) && TableMap(out) == TableMap(fs)
    ensures committed && AllDeleted(fs) ==> out == []
    ensures committed ==> !AllDeleted(out) || out == []
  {
    UniqueIsDistinct(fs);
    CountsPhysicalRows(fs);
    var st, inputRows := Compact(fs, targetRows, targetBytes, nextFragmentId, meter);
    if inputRows == 0 {
      return false, fs;
    }
    out := st.newEntries;
    SameTable(fs, out);
    SameLiveRows(fs, out);
    OutputCovered(fs, out, nextFragmentId, targetRows);
    NoLiveRowsIff(fs);
    NoLiveRowsIff(out);
    NothingLiveNothingWritten(out, nextFragmentId, targetRows);
    return true, out;
  }

  lemma {:induction false} NothingLiveNothingWritten<R>(out: seq<Fragment<R>>, firstId: nat, targetRows: nat)
    requires WellShaped(out, firstId, targetRows)
    ensures LiveOf(out) == [] <==> out == []
  {
    if out != [] {
      var ids, rows := Ids(out[0]), PhysicalRows(out[0]);
      OutputMeaning(out[0], out[0].partition, ids, rows);
      PairsLength(ids, rows);
    }
  }
}
