// Incremental maintenance of a unique index against a full rebuild
// (`check_unique_adds`, `maintain_on_insert`, `maintain_on_update`, `append_tombstones` and
// `build_btree_index_from_adds` in crates/icefalldb-core/src/index.rs).
module UniqueIndex {
  import opened Collections
  import opened IndexDeltas
  import opened Permutations

  /** The indexed cell of a row; nulls are not indexed. */
  type Cell = Option<Key>

  /** The live rows of a snapshot, seen through the indexed column. */
  type Rows = map<RowId, Cell>

  datatype IndexRef = IndexRef(base: Option<Entries>, deltas: seq<DeltaFile>)

  predicate HasKey(rows: Rows, id: RowId, v: Key) {
    id in rows && rows[id] == Some(v)
  }

  /** The constraint a unique index stands for. */
  ghost predicate UniqueRows(rows: Rows) {
    forall a: RowId, b: RowId, v: Key :: HasKey(rows, a, v) && HasKey(rows, b, v) ==> a == b
  }

  /** The entries say exactly which row carries which key, one row per key. */
  ghost predicate Exact(e: Entries, rows: Rows) {
    && (forall v: Key :: v in e ==> |e[v]| == 1)
    && (forall v: Key, id: RowId :: id in Lookup(e, v) <==> HasKey(rows, id, v))
  }

  /** Exact entries map each key to one row id and each row id to one key. */
  lemma {:induction false} ExactIsInjective(e: Entries, rows: Rows)
    requires Exact(e, rows)
    ensures UniqueRows(rows)
    ensures forall v: Key, w: Key, id: RowId :: id in Lookup(e, v) && id in Lookup(e, w) ==> v == w
  {
    forall a: RowId, b: RowId, v: Key | HasKey(rows, a, v) && HasKey(rows, b, v)
      ensures a == b
    {
      assert a in Lookup(e, v) && b in Lookup(e, v);
    }
  }

  /** Exact entries are determined by the rows. */
  lemma {:induction false} ExactIsUnique(e: Entries, e': Entries, rows: Rows)
    requires Exact(e, rows) && Exact(e', rows)
    ensures e == e'
  {
    forall v: Key
      ensures v in e <==> v in e'
      ensures v in e && v in e' ==> e[v] == e'[v]
    {
      if v in e { assert e[v][0] in Lookup(e, v); assert e[v][0] in Lookup(e', v); }
      if v in e' { assert e'[v][0] in Lookup(e', v); assert e'[v][0] in Lookup(e, v); }
    }
    assert e.Keys == e'.Keys;
  }

  // ---- changes ----

  type Change = (RowId, Cell)

  function ChangedIds(changes: seq<Change>): seq<RowId> {
    if changes == [] then [] else [changes[0].0] + ChangedIds(changes[1..])
  }

  /** The keys of the changed rows, nulls skipped. */
  function CollectAdds(changes: seq<Change>): seq<(Key, RowId)> {
    if changes == [] then []
    else if changes[0].1.Some? then [(changes[0].1.value, changes[0].0)] + CollectAdds(changes[1..])
    else CollectAdds(changes[1..])
  }

  function Put(rows: Rows, changes: seq<Change>): Rows {
    if changes == [] then rows else Put(rows, changes[1..])[changes[0].0 := changes[0].1]
  }

  ghost predicate DistinctChanges(changes: seq<Change>) {
    forall i, j :: 0 <= i < j < |changes| ==> changes[i].0 != changes[j].0
  }

  lemma {:induction false} ChangedIdsMembers(changes: seq<Change>)
    ensures |ChangedIds(changes)| == |changes|
    ensures forall i :: 0 <= i < |changes| ==> ChangedIds(changes)[i] == changes[i].0
  {
    if changes != [] {
      ChangedIdsMembers(changes[1..]);
    }
  }

  lemma {:induction false} AddsAreChanges(changes: seq<Change>, v: Key, id: RowId)
    ensures (v, id) in CollectAdds(changes) <==> (id, Some(v)) in changes
  {
    if changes != [] {
      AddsAreChanges(changes[1..], v, id);
      assert changes == [changes[0]] + changes[1..];
    }
  }

  lemma {:induction false} AddedToMembers(adds: seq<(Key, RowId)>, v: Key, id: RowId)
    ensures id in AddedTo(adds, v) <==> (v, id) in adds
  {
    if adds != [] {
      AddedToMembers(adds[1..], v, id);
      assert adds == [adds[0]] + adds[1..];
    }
  }

  lemma {:induction false} PutMeaning(rows: Rows, changes: seq<Change>, id: RowId, v: Key)
    requires DistinctChanges(changes)
    ensures HasKey(Put(rows, changes), id, v) <==>
            (id, Some(v)) in changes || (HasKey(rows, id, v) && id !in ChangedIds(changes))
  {
    ChangedIdsMembers(changes);
    if changes != [] {
      var rest := changes[1..];
      PutMeaning(rows, rest, id, v);
      ChangedIdsMembers(rest);
      assert changes == [changes[0]] + rest;
      assert ChangedIds(changes) == [changes[0].0] + ChangedIds(rest);
      assert forall k :: 0 <= k < |rest| ==> rest[k] == changes[k + 1];
    }
  }

  // ---- the uniqueness check ----

  /** Two adds of one key must be the same row, and every row already under the key must be on its way out. */
  ghost predicate Accepts(e: Entries, adds: seq<(Key, RowId)>, dead: set<RowId>) {
    && (forall i, j :: 0 <= i < j < |adds| && adds[i].0 == adds[j].0 ==> adds[i].1 == adds[j].1)
    && (forall i :: 0 <= i < |adds| ==> Ids(Lookup(e, adds[i].0)) <= dead)
  }

  /** `check_unique_adds`, with its map of the keys seen in the batch. */
  method CheckUniqueAdds(e: Entries, adds: seq<(Key, RowId)>, tombstones: seq<RowId>) returns (ok: bool)
    ensures ok <==> Accepts(e, adds, Ids(tombstones))
  {
    var dead := Ids(tombstones);
    var seen: map<Key, RowId> := map[];
    for i := 0 to |adds|
      invariant forall k :: 0 <= k < i ==> adds[k].0 in seen && seen[adds[k].0] == adds[k].1
      invariant forall v: Key :: v in seen ==> exists k :: 0 <= k < i && adds[k] == (v, seen[v])
      invariant forall k :: 0 <= k < i ==> Ids(Lookup(e, adds[k].0)) <= dead
    {
      var (v, id) := adds[i];
      if v in seen {
        if seen[v] != id {
          return false;
        }
      } else {
        seen := seen[v := id];
      }
      if v in e && exists k :: 0 <= k < |e[v]| && e[v][k] !in dead {
        ghost var k :| 0 <= k < |e[v]| && e[v][k] !in dead;
        assert e[v][k] in Ids(Lookup(e, adds[i].0));
        return false;
      }
    }
    return true;
  }

  /** A change of rows: `changes` replace rows of `dead` or add new ones; the rest of `dead` goes. */
  ghost predicate ValidChange(rows: Rows, dead: set<RowId>, changes: seq<Change>) {
    && DistinctChanges(changes)
    && forall i :: 0 <= i < |changes| ==> changes[i].0 in dead || changes[i].0 !in rows
  }

  ghost function After(rows: Rows, dead: set<RowId>, changes: seq<Change>): Rows {
    Put(rows - dead, changes)
  }

  lemma {:induction false} AfterMeaning(rows: Rows, dead: set<RowId>, changes: seq<Change>, id: RowId, v: Key)
    requires ValidChange(rows, dead, changes)
    ensures HasKey(After(rows, dead, changes), id, v) <==>
            (v, id) in CollectAdds(changes) || (HasKey(rows, id, v) && id !in dead)
  {
    PutMeaning(rows - dead, changes, id, v);
    AddsAreChanges(changes, v, id);
    ChangedIdsMembers(changes);
  }

  lemma {:induction false} DeltaMembers(e: Entries, rows: Rows, d: Delta, changes: seq<Change>, v: Key, id: RowId)
    requires Exact(e, rows) && ValidChange(rows, Ids(d.tombstones), changes) && d.adds == CollectAdds(changes)
    ensures id in Lookup(ApplyDelta(e, d), v) <==> HasKey(After(rows, Ids(d.tombstones), changes), id, v)
  {
    LookupApplyDelta(e, d, v);
    WithoutMembers(Lookup(e, v), Ids(d.tombstones));
    AddedToMembers(d.adds, v, id);
    AfterMeaning(rows, Ids(d.tombstones), changes, id, v);
  }

  lemma {:induction false} AddsOfDistinct(changes: seq<Change>, i: nat, j: nat)
    requires DistinctChanges(changes) && i < j < |CollectAdds(changes)|
    ensures CollectAdds(changes)[i].1 != CollectAdds(changes)[j].1
  {
    var rest := changes[1..];
    var c := CollectAdds(rest);
    if changes[0].1.None? {
      AddsOfDistinct(rest, i, j);
    } else if i > 0 {
      AddsOfDistinct(rest, i - 1, j - 1);
    } else {
      var (v, id) := c[j - 1];
      assert (v, id) in c;
      AddsAreChanges(rest, v, id);
      var k :| 0 <= k < |rest| && rest[k] == (id, Some(v));
      assert changes[k + 1].0 != changes[0].0;
    }
  }

  lemma {:induction false} AtMostOneAdded(adds: seq<(Key, RowId)>, v: Key)
    requires forall i, j :: 0 <= i < j < |adds| ==> adds[i].0 != adds[j].0
    ensures |AddedTo(adds, v)| <= 1
    ensures (forall i :: 0 <= i < |adds| ==> adds[i].0 != v) ==> AddedTo(adds, v) == []
  {
    if adds != [] {
      AtMostOneAdded(adds[1..], v);
    }
  }

  /** Accepted adds of distinct rows have pairwise distinct keys. */
  lemma {:induction false} AcceptedKeysDiffer(e: Entries, dead: set<RowId>, changes: seq<Change>)
    requires DistinctChanges(changes) && Accepts(e, CollectAdds(changes), dead)
    ensures forall i, j :: 0 <= i < j < |CollectAdds(changes)| ==>
              CollectAdds(changes)[i].0 != CollectAdds(changes)[j].0
  {
    var adds := CollectAdds(changes);
    forall i, j | 0 <= i < j < |adds|
      ensures adds[i].0 != adds[j].0
    {
      AddsOfDistinct(changes, i, j);
    }
  }

  lemma {:induction false} WithoutSubset(ids: seq<RowId>, dead: set<RowId>)
    ensures |Without(ids, dead)| <= |ids|
    ensures Ids(ids) <= dead ==> Without(ids, dead) == []
  {
    WithoutShorter(ids, dead);
    if ids != [] && Ids(ids) <= dead {
      assert ids == [ids[0]] + ids[1..];
      WithoutSubset(ids[1..], dead);
    }
  }

  lemma {:induction false} WithoutShorter(ids: seq<RowId>, dead: set<RowId>)
    ensures |Without(ids, dead)| <= |ids|
  {
    if ids != [] {
      WithoutShorter(ids[1..], dead);
    }
  }

  /** Every key of the new entries has exactly one row. */
  lemma {:induction false} DeltaSingletons(e: Entries, rows: Rows, d: Delta, changes: seq<Change>, v: Key)
    requires Exact(e, rows) && DistinctChanges(changes) && d.adds == CollectAdds(changes)
    requires Accepts(e, d.adds, Ids(d.tombstones)) && v in ApplyDelta(e, d)
    ensures |ApplyDelta(e, d)[v]| == 1
  {
    LookupApplyDelta(e, d, v);
    WithoutSubset(Lookup(e, v), Ids(d.tombstones));
    AcceptedKeysDiffer(e, Ids(d.tombstones), changes);
    AtMostOneAdded(d.adds, v);
    NonEmptyEntries(e, d, v);
    if k :| 0 <= k < |d.adds| && d.adds[k].0 == v {
      assert Ids(Lookup(e, d.adds[k].0)) <= Ids(d.tombstones);
    }
  }

  lemma {:induction false} AddAllNonEmpty(e: Entries, adds: seq<(Key, RowId)>)
    requires forall v :: v in e ==> e[v] != []
    ensures forall v :: v in AddAll(e, adds) ==> AddAll(e, adds)[v] != []
  {
    if adds != [] {
      AddAllNonEmpty(e, adds[..|adds| - 1]);
    }
  }

  lemma {:induction false} NonEmptyEntries(e: Entries, d: Delta, v: Key)
    requires (forall w :: w in e ==> |e[w]| == 1) && v in ApplyDelta(e, d)
    ensures ApplyDelta(e, d)[v] != []
  {
    AddAllNonEmpty(if d.tombstones == [] then e else Retain(e, Ids(d.tombstones)), d.adds);
  }

  /** The heart: an accepted delta keeps the index exact, and the check accepts exactly the changes
      after which no two rows share a key. */
  lemma {:induction false} DeltaKeepsExact(e: Entries, rows: Rows, d: Delta, changes: seq<Change>)
    requires Exact(e, rows) && ValidChange(rows, Ids(d.tombstones), changes) && d.adds == CollectAdds(changes)
    ensures Accepts(e, d.adds, Ids(d.tombstones)) ==>
              Exact(ApplyDelta(e, d), After(rows, Ids(d.tombstones), changes))
    ensures Accepts(e, d.adds, Ids(d.tombstones)) <==> UniqueRows(After(rows, Ids(d.tombstones), changes))
  {
    var dead := Ids(d.tombstones);
    var rows' := After(rows, dead, changes);
    if Accepts(e, d.adds, dead) {
      forall v: Key | v in ApplyDelta(e, d)
        ensures |ApplyDelta(e, d)[v]| == 1
      {
        DeltaSingletons(e, rows, d, changes, v);
      }
      forall v: Key, id: RowId
        ensures id in Lookup(ApplyDelta(e, d), v) <==> HasKey(rows', id, v)
      {
        DeltaMembers(e, rows, d, changes, v, id);
      }
      ExactIsInjective(ApplyDelta(e, d), rows');
    } else {
      RejectedBreaksUniqueness(e, rows, dead, changes);
    }
  }

  lemma {:induction false} RejectedBreaksUniqueness(e: Entries, rows: Rows, dead: set<RowId>, changes: seq<Change>)
    requires Exact(e, rows) && ValidChange(rows, dead, changes) && !Accepts(e, CollectAdds(changes), dead)
    ensures !UniqueRows(After(rows, dead, changes))
  {
    var adds := CollectAdds(changes);
    var rows' := After(rows, dead, changes);
    if i, j :| 0 <= i < j < |adds| && adds[i].0 == adds[j].0 && adds[i].1 != adds[j].1 {
      AfterMeaning(rows, dead, changes, adds[i].1, adds[i].0);
      AfterMeaning(rows, dead, changes, adds[j].1, adds[j].0);
      assert HasKey(rows', adds[i].1, adds[i].0) && HasKey(rows', adds[j].1, adds[i].0);
    } else {
      var i :| 0 <= i < |adds| && !(Ids(Lookup(e, adds[i].0)) <= dead);
      var (v, id) := adds[i];
      var former :| former in Ids(Lookup(e, v)) && former !in dead;
      assert HasKey(rows, former, v);
      AfterMeaning(rows, dead, changes, id, v);
      AfterMeaning(rows, dead, changes, former, v);
      assert (v, id) in adds;
      AddsAreChanges(changes, v, id);
      assert HasKey(rows', id, v) && HasKey(rows', former, v);
    }
  }

  // ---- the full build ----

  /** Ascending row ids without repetition, as `sort_unstable` and `dedup` leave them. */
  function SortDedup(ids: seq<RowId>): (r: seq<RowId>)
    ensures forall id: RowId :: id in r <==> id in ids
  {
    if ids == [] then []
    else
      assert ids == ids[..|ids| - 1] + [ids[|ids| - 1]];
      InsertNew(SortDedup(ids[..|ids| - 1]), ids[|ids| - 1])
  }

  lemma {:induction false} SortDedupIncreasing(ids: seq<RowId>)
    ensures Increasing(SortDedup(ids))
  {
    if ids != [] {
      SortDedupIncreasing(ids[..|ids| - 1]);
      InsertNewSorted(SortDedup(ids[..|ids| - 1]), ids[|ids| - 1]);
    }
  }

  function Built(scan: seq<(Key, RowId)>): Entries {
    var raw := AddAll(map[], scan);
    map v | v in raw :: SortDedup(raw[v])
  }

  ghost predicate AtMostOnePerKey(e: Entries) {
    forall v: Key :: v in e ==> |e[v]| <= 1
  }

  /** `build_btree_index_from_adds` for a unique definition. */
  method BuildFromAdds(scan: seq<(Key, RowId)>) returns (built: Option<Entries>)
    ensures built == if AtMostOnePerKey(Built(scan)) then Some(Built(scan)) else None
  {
    var index := new BTreeIndex(map[]);
    index.PushAdds(scan);
    var entries := map v | v in index.entries :: SortDedup(index.entries[v]);
    if exists v :: v in entries && |entries[v]| > 1 {
      return None;
    }
    return Some(entries);
  }

  /** A scan of a snapshot: every live non-null row, in some order. */
  ghost predicate Scans(scan: seq<(Key, RowId)>, rows: Rows) {
    forall v: Key, id: RowId :: (v, id) in scan <==> HasKey(rows, id, v)
  }

  lemma {:induction false} BuiltMembers(scan: seq<(Key, RowId)>, v: Key, id: RowId)
    ensures id in Lookup(Built(scan), v) <==> (v, id) in scan
  {
    LookupAddAll(map[], scan, v);
    AddedToMembers(scan, v, id);
    assert Lookup(map[], v) + AddedTo(scan, v) == AddedTo(scan, v);
  }

  /** The build succeeds exactly on unique rows, and then it is exact. */
  lemma {:induction false} BuildIsExact(scan: seq<(Key, RowId)>, rows: Rows)
    requires Scans(scan, rows)
    ensures AtMostOnePerKey(Built(scan)) <==> UniqueRows(rows)
    ensures AtMostOnePerKey(Built(scan)) ==> Exact(Built(scan), rows)
  {
    var e := Built(scan);
    forall v: Key, id: RowId
      ensures id in Lookup(e, v) <==> HasKey(rows, id, v)
    {
      BuiltMembers(scan, v, id);
    }
    AddAllNonEmpty(map[], scan);
    forall v: Key | v in e
      ensures |e[v]| >= 1 && (|e[v]| > 1 ==> !UniqueRows(rows))
    {
      var raw := AddAll(map[], scan)[v];
      assert raw[0] in SortDedup(raw);
      SortDedupIncreasing(raw);
      if |e[v]| > 1 {
        assert e[v][0] in Lookup(e, v) && e[v][1] in Lookup(e, v) && e[v][0] != e[v][1];
      }
    }
    if AtMostOnePerKey(e) {
      ExactIsInjective(e, rows);
    }
  }

  // ---- runs of maintenance ----

  /** A snapshot: the table and the index generation its manifest names, if any. */
  datatype Snapshot = Snapshot(rows: Rows, index: Option<IndexRef>)

  /** A committed statement. `scan` is what a full scan of the resulting snapshot would collect. */
  datatype Op =
    | Insert(newRows: seq<Change>, scan: seq<(Key, RowId)>)
    | Update(changes: seq<Change>)
    | Delete(ids: seq<RowId>)
    | Rebuild(scan: seq<(Key, RowId)>)

  datatype Outcome = Rejected | Accepted(index: Option<IndexRef>)

  ghost predicate HasBase(s: Snapshot) {
    s.index.Some? && s.index.value.base.Some?
  }

  function Resolve(r: IndexRef): Option<Entries> {
    if r.base.Some? then Some(ApplyDeltas(r.base.value, r.deltas)) else None
  }

  function Push(r: IndexRef, d: Delta): IndexRef {
    r.(deltas := r.deltas + [Some(d)])
  }

  function Gone(op: Op): seq<RowId> {
    match op
    case Insert(_, _) => []
    case Update(changes) => ChangedIds(changes)
    case Delete(ids) => ids
    case Rebuild(_) => []
  }

  function Changes(op: Op): seq<Change> {
    match op
    case Insert(newRows, _) => newRows
    case Update(changes) => changes
    case Delete(_) => []
    case Rebuild(_) => []
  }

  ghost function RowsAfter(rows: Rows, op: Op): Rows {
    After(rows, Ids(Gone(op)), Changes(op))
  }

  ghost function FullBuild(scan: seq<(Key, RowId)>): Outcome {
    if AtMostOnePerKey(Built(scan)) then Accepted(Some(IndexRef(Some(Built(scan)), []))) else Rejected
  }

  /** The index generation after a statement, or the refusal of the statement. */
  ghost function Maintain(index: Option<IndexRef>, op: Op): Outcome {
    var current := if index.Some? then index.value else IndexRef(None, []);
    match op
    case Insert(newRows, scan) =>
      var adds := CollectAdds(newRows);
      if current.base.None? then FullBuild(scan)
      else if adds != [] && !Accepts(Resolve(current).value, adds, {}) then Rejected
      else Accepted(Some(Push(current, Delta([], adds))))
    case Update(changes) =>
      var adds := CollectAdds(changes);
      var ids := ChangedIds(changes);
      if adds != [] && (current.base.None? || !Accepts(Resolve(current).value, adds, Ids(ids))) then Rejected
      else Accepted(Some(Push(current, Delta(ids, adds))))
    case Delete(ids) =>
      if ids == [] || index.None? then Accepted(index) else Accepted(Some(Push(current, Delta(ids, []))))
    case Rebuild(scan) => FullBuild(scan)
  }

  /** What the writer guarantees: fresh ids on insert, existing distinct rows on update. */
  ghost predicate Legal(rows: Rows, op: Op) {
    && DistinctChanges(Changes(op))
    && match op
       case Insert(newRows, scan) =>
         (forall i :: 0 <= i < |newRows| ==> newRows[i].0 !in rows) && Scans(scan, RowsAfter(rows, op))
       case Update(changes) => forall i :: 0 <= i < |changes| ==> changes[i].0 in rows
       case Delete(ids) => true
       case Rebuild(scan) => Scans(scan, RowsAfter(rows, op))
  }

  lemma {:induction false} LegalIsValid(rows: Rows, op: Op)
    requires Legal(rows, op)
    ensures ValidChange(rows, Ids(Gone(op)), Changes(op))
  {
    if op.Update? {
      ChangedIdsMembers(op.changes);
      forall i | 0 <= i < |op.changes|
        ensures op.changes[i].0 in Ids(Gone(op))
      {
        assert ChangedIds(op.changes)[i] in ChangedIds(op.changes);
      }
    }
  }

  /** The invariant: whenever the index has a base, it is exact for the snapshot. */
  ghost predicate Good(s: Snapshot) {
    HasBase(s) ==> Exact(Resolve(s.index.value).value, s.rows)
  }

  lemma {:induction false} PushResolves(r: IndexRef, d: Delta)
    requires r.base.Some?
    ensures Resolve(Push(r, d)) == Some(ApplyDelta(Resolve(r).value, d))
  {
    assert (r.deltas + [Some(d)])[..|r.deltas|] == r.deltas;
  }

  /** The incremental path: the delta that a statement appends to an index with a base. */
  lemma {:induction false} IncrementalStep(s: Snapshot, op: Op)
    requires Good(s) && HasBase(s) && Legal(s.rows, op) && !op.Rebuild?
    ensures Maintain(s.index, op).Rejected? <==> !UniqueRows(RowsAfter(s.rows, op))
    ensures Maintain(s.index, op).Accepted? ==>
              && Good(Snapshot(RowsAfter(s.rows, op), Maintain(s.index, op).index))
              && HasBase(Snapshot(s.rows, Maintain(s.index, op).index))
  {
    LegalIsValid(s.rows, op);
    var r := s.index.value;
    var e := Resolve(r).value;
    var d := Delta(Gone(op), CollectAdds(Changes(op)));
    DeltaKeepsExact(e, s.rows, d, Changes(op));
    PushResolves(r, d);
    if d.adds == [] {
      assert Accepts(e, d.adds, Ids(d.tombstones));
    }
    assert Ids([]) == {};
    if op.Delete? && op.ids == [] {
      assert s.rows - Ids([]) == s.rows;
    }
  }

  /** A statement that leaves an index whatever there was before. */
  ghost predicate Builds(op: Op) { op.Insert? || op.Rebuild? }

  /** Every accepted statement keeps the index exact; with a base, or when one is being built, a statement is
      refused exactly when it would make two rows share a key. An accepted insert or rebuild leaves an exact
      index with a base, whatever there was before; a base, once there, stays; and without one an update that
      would add keys is refused. */
  lemma {:induction false} MaintainStep(s: Snapshot, op: Op)
    requires Good(s) && Legal(s.rows, op)
    ensures Maintain(s.index, op).Accepted? ==> Good(Snapshot(RowsAfter(s.rows, op), Maintain(s.index, op).index))
    ensures HasBase(s) || Builds(op) ==>
              (Maintain(s.index, op).Rejected? <==> !UniqueRows(RowsAfter(s.rows, op)))
    ensures Maintain(s.index, op).Accepted? ==>
              (HasBase(Snapshot(RowsAfter(s.rows, op), Maintain(s.index, op).index)) <==> HasBase(s) || Builds(op))
    ensures !HasBase(s) && op.Update? ==> (Maintain(s.index, op).Rejected? <==> CollectAdds(op.changes) != [])
    ensures op.Delete? ==> Maintain(s.index, op).Accepted?
  {
    if HasBase(s) && !op.Rebuild? {
      IncrementalStep(s, op);
    } else if Builds(op) {
      BuildIsExact(op.scan, RowsAfter(s.rows, op));
    }
  }

  /** Run a list of statements; a refused one leaves the snapshot as it was. */
  ghost function Run(s: Snapshot, ops: seq<Op>): Snapshot {
    if ops == [] then s
    else
      var s' := Run(s, ops[..|ops| - 1]);
      var op := ops[|ops| - 1];
      match Maintain(s'.index, op)
      case Rejected => s'
      case Accepted(index) => Snapshot(RowsAfter(s'.rows, op), index)
  }

  ghost predicate LegalRun(s: Snapshot, ops: seq<Op>) {
    forall i :: 0 <= i < |ops| ==> Legal(Run(s, ops[..i]).rows, ops[i])
  }

  /** The i-th statement is an accepted insert or rebuild. */
  ghost predicate Establishes(s: Snapshot, ops: seq<Op>, i: nat)
    requires i < |ops|
  {
    Builds(ops[i]) && Maintain(Run(s, ops[..i]).index, ops[i]).Accepted?
  }

  ghost predicate Established(s: Snapshot, ops: seq<Op>) {
    HasBase(s) || exists i: nat :: i < |ops| && Establishes(s, ops, i)
  }

  /** Over every run of maintenance: there is an index with a base if and only if there was one before or an
      insert or a rebuild has been accepted, and then the resolved index is exact, and it is, entry for entry,
      what a full rebuild over the live rows gives. */
  lemma {:induction false} EveryRunKeepsIndexExact(s: Snapshot, ops: seq<Op>, scan: seq<(Key, RowId)>)
    requires Good(s) && LegalRun(s, ops)
    ensures HasBase(Run(s, ops)) <==> Established(s, ops)
    ensures Established(s, ops) ==>
              UniqueRows(Run(s, ops).rows) && Exact(Resolve(Run(s, ops).index.value).value, Run(s, ops).rows)
    ensures Established(s, ops) && Scans(scan, Run(s, ops).rows) ==>
              Resolve(Run(s, ops).index.value) == Some(Built(scan))
  {
    RunIsGood(s, ops);
    var t := Run(s, ops);
    if HasBase(t) {
      ExactIsInjective(Resolve(t.index.value).value, t.rows);
      if Scans(scan, t.rows) {
        BuildIsExact(scan, t.rows);
        ExactIsUnique(Resolve(t.index.value).value, Built(scan), t.rows);
      }
    }
  }

  lemma {:induction false} PrefixAt(s: Snapshot, ops: seq<Op>, i: nat)
    requires i + 1 < |ops|
    ensures var init := ops[..|ops| - 1];
            && init[..i] == ops[..i] && init[i] == ops[i]
            && (Establishes(s, init, i) <==> Establishes(s, ops, i))
  {
  }

  lemma {:induction false} PrefixLegal(s: Snapshot, ops: seq<Op>)
    requires ops != [] && LegalRun(s, ops)
    ensures LegalRun(s, ops[..|ops| - 1])
  {
    forall i: nat | i + 1 < |ops|
      ensures ops[..|ops| - 1][..i] == ops[..i]
    {
      PrefixAt(s, ops, i);
    }
  }

  lemma {:induction false} PrefixEstablished(s: Snapshot, ops: seq<Op>)
    requires ops != [] && !HasBase(s)
    ensures Established(s, ops) <==> Established(s, ops[..|ops| - 1]) || Establishes(s, ops, |ops| - 1)
  {
    var init := ops[..|ops| - 1];
    if Established(s, init) {
      var i: nat :| i < |init| && Establishes(s, init, i);
      PrefixAt(s, ops, i);
    }
    if Established(s, ops) {
      var i: nat :| i < |ops| && Establishes(s, ops, i);
      if i < |init| { PrefixAt(s, ops, i); }
    }
  }

  lemma {:induction false} RunIsGood(s: Snapshot, ops: seq<Op>)
    requires Good(s) && LegalRun(s, ops)
    ensures Good(Run(s, ops)) && (HasBase(Run(s, ops)) <==> Established(s, ops))
  {
    if ops != [] {
      PrefixLegal(s, ops);
      if !HasBase(s) { PrefixEstablished(s, ops); }
      RunIsGood(s, ops[..|ops| - 1]);
      MaintainStep(Run(s, ops[..|ops| - 1]), ops[|ops| - 1]);
    }
  }

  /** The manifest's slot for one unique index, maintained in place. */
  class UniqueIndexSlot {
    var index: Option<IndexRef>

    constructor (index: Option<IndexRef>)
      ensures this.index == index
    {
      this.index := index;
    }

    method Load() returns (e: Option<Entries>)
      ensures e == if index.Some? then Resolve(index.value) else None
    {
      if index.None? || index.value.base.None? {
        return None;
      }
      var tree := new BTreeIndex(index.value.base.value);
      tree.ReplayDeltas(index.value.deltas);
      return Some(tree.entries);
    }

    /** The full build that establishes a base. */
    method Establish(scan: seq<(Key, RowId)>) returns (ok: bool)
      modifies this
      ensures ok <==> FullBuild(scan).Accepted?
      ensures index == if ok then FullBuild(scan).index else old(index)
    {
      var built := BuildFromAdds(scan);
      if built.None? {
        return false;
      }
      index := Some(IndexRef(built, []));
      return true;
    }

    method OnInsert(newRows: seq<Change>, scan: seq<(Key, RowId)>) returns (ok: bool)
      modifies this
      ensures ok <==> Maintain(old(index), Insert(newRows, scan)).Accepted?
      ensures index == if ok then Maintain(old(index), Insert(newRows, scan)).index else old(index)
    {
      var existing := Load();
      if existing.None? {
        ok := Establish(scan);
        return;
      }
      var adds := CollectAdds(newRows);
      if |adds| > 0 {
        ok := CheckUniqueAdds(existing.value, adds, []);
        assert Ids([]) == {};
        if !ok {
          return;
        }
      }
      index := Some(Push(index.value, Delta([], adds)));
      ok := true;
    }

    method OnUpdate(changes: seq<Change>) returns (ok: bool)
      modifies this
      ensures ok <==> Maintain(old(index), Update(changes)).Accepted?
      ensures index == if ok then Maintain(old(index), Update(changes)).index else old(index)
    {
      var current := if index.Some? then index.value else IndexRef(None, []);
      var adds := CollectAdds(changes);
      var ids := ChangedIds(changes);
      if |adds| > 0 {
        var existing := Load();
        if existing.None? {
          return false;
        }
        ok := CheckUniqueAdds(existing.value, adds, ids);
        if !ok {
          return;
        }
      }
      index := Some(Push(current, Delta(ids, adds)));
      ok := true;
    }

    method OnDelete(ids: seq<RowId>)
      modifies this
      ensures Maintain(old(index), Delete(ids)) == Accepted(index)
    {
      if |ids| > 0 && index.Some? {
        index := Some(Push(index.value, Delta(ids, [])));
      }
    }
  }
}
