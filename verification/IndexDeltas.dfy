// Index generations: a base plus tombstone/add deltas, resolved two ways
// (`apply_deltas`, `IndexDeltaOverlay` and `load_index_overlay` in crates/icefalldb-core/src/index.rs).
module IndexDeltas {
  import opened Collections

  type RowId = nat
  type Key = string

  /** Value key to the row ids that carry it, in insertion order. */
  type Entries = map<Key, seq<RowId>>

  datatype Delta = Delta(tombstones: seq<RowId>, adds: seq<(Key, RowId)>)

  /** What reading a listed delta file gives; a missing file is skipped. */
  type DeltaFile = Option<Delta>

  function Lookup(e: Entries, v: Key): seq<RowId> {
    if v in e then e[v] else []
  }

  function Ids(s: seq<RowId>): set<RowId> { set id | id in s }

  /** `ids` without the dead ones, order kept. */
  function Without(ids: seq<RowId>, dead: set<RowId>): seq<RowId> {
    if ids == [] then []
    else if ids[0] in dead then Without(ids[1..], dead)
    else [ids[0]] + Without(ids[1..], dead)
  }

  /** The row ids that `adds` appends to the key `v`, in order. */
  function AddedTo(adds: seq<(Key, RowId)>, v: Key): seq<RowId> {
    if adds == [] then []
    else if adds[0].0 == v then [adds[0].1] + AddedTo(adds[1..], v)
    else AddedTo(adds[1..], v)
  }

  function Retain(e: Entries, dead: set<RowId>): Entries {
    map v | v in e && Without(e[v], dead) != [] :: Without(e[v], dead)
  }

  function AddOne(e: Entries, v: Key, id: RowId): Entries {
    e[v := Lookup(e, v) + [id]]
  }

  function AddAll(e: Entries, adds: seq<(Key, RowId)>): Entries {
    if adds == [] then e
    else
      var last := adds[|adds| - 1];
      AddOne(AddAll(e, adds[..|adds| - 1]), last.0, last.1)
  }

  function ApplyDelta(e: Entries, d: Delta): Entries {
    AddAll(if d.tombstones == [] then e else Retain(e, Ids(d.tombstones)), d.adds)
  }

  function ApplyDeltas(e: Entries, ds: seq<DeltaFile>): Entries {
    if ds == [] then e
    else
      var e' := ApplyDeltas(e, ds[..|ds| - 1]);
      match ds[|ds| - 1]
      case None => e'
      case Some(d) => ApplyDelta(e', d)
  }

  // ---- lemmas about the vocabulary ----

  lemma {:induction false} WithoutConcat(a: seq<RowId>, b: seq<RowId>, dead: set<RowId>)
    ensures Without(a + b, dead) == Without(a, dead) + Without(b, dead)
  {
    if a == [] {
      assert a + b == b;
    } else {
      assert (a + b)[1..] == a[1..] + b;
      WithoutConcat(a[1..], b, dead);
    }
  }

  lemma {:induction false} WithoutTwice(ids: seq<RowId>, a: set<RowId>, b: set<RowId>)
    ensures Without(Without(ids, a), b) == Without(ids, a + b)
  {
    if ids != [] {
      WithoutTwice(ids[1..], a, b);
      if ids[0] !in a {
        assert Without(ids, a)[1..] == Without(ids[1..], a);
      }
    }
  }

  lemma {:induction false} WithoutNone(ids: seq<RowId>)
    ensures Without(ids, {}) == ids
  {
    if ids != [] {
      WithoutNone(ids[1..]);
    }
  }

  lemma {:induction false} WithoutMembers(ids: seq<RowId>, dead: set<RowId>)
    ensures forall id: RowId :: id in Without(ids, dead) <==> id in ids && id !in dead
  {
    if ids != [] {
      WithoutMembers(ids[1..], dead);
      assert ids == [ids[0]] + ids[1..];
    }
  }

  lemma {:induction false} AddedToSnoc(adds: seq<(Key, RowId)>, a: (Key, RowId), v: Key)
    ensures AddedTo(adds + [a], v) == AddedTo(adds, v) + (if a.0 == v then [a.1] else [])
  {
    if adds == [] {
      assert [a][1..] == [] && adds + [a] == [a];
    } else {
      assert (adds + [a])[1..] == adds[1..] + [a];
      AddedToSnoc(adds[1..], a, v);
    }
  }

  /** Adds append, key by key. */
  lemma {:induction false} LookupAddAll(e: Entries, adds: seq<(Key, RowId)>, v: Key)
    ensures Lookup(AddAll(e, adds), v) == Lookup(e, v) + AddedTo(adds, v)
  {
    if adds != [] {
      var init, last := adds[..|adds| - 1], adds[|adds| - 1];
      assert adds == init + [last];
      LookupAddAll(e, init, v);
      AddedToSnoc(init, last, v);
    }
  }

  /** One delta filters, then appends, key by key. */
  lemma {:induction false} LookupApplyDelta(e: Entries, d: Delta, v: Key)
    ensures Lookup(ApplyDelta(e, d), v) == Without(Lookup(e, v), Ids(d.tombstones)) + AddedTo(d.adds, v)
  {
    if d.tombstones == [] {
      assert Ids([]) == {};
      WithoutNone(Lookup(e, v));
      LookupAddAll(e, d.adds, v);
    } else {
      LookupAddAll(Retain(e, Ids(d.tombstones)), d.adds, v);
    }
  }

  // ---- the materializing resolver ----

  class BTreeIndex {
    var entries: Entries

    constructor (entries: Entries)
      ensures this.entries == entries
    {
      this.entries := entries;
    }

    /** Replay the deltas onto the entries in place, oldest first. */
    method ReplayDeltas(ds: seq<DeltaFile>)
      modifies this
      ensures entries == ApplyDeltas(old(entries), ds)
    {
      for i := 0 to |ds|
        invariant entries == ApplyDeltas(old(entries), ds[..i])
      {
        assert ds[..i + 1][..i] == ds[..i];
        if ds[i].Some? {
          var d := ds[i].value;
          if |d.tombstones| > 0 {
            entries := Retain(entries, Ids(d.tombstones));
          }
          PushAdds(d.adds);
        }
      }
      assert ds[..|ds|] == ds;
    }

    method PushAdds(adds: seq<(Key, RowId)>)
      modifies this
      ensures entries == AddAll(old(entries), adds)
    {
      for i := 0 to |adds|
        invariant entries == AddAll(old(entries), adds[..i])
      {
        assert adds[..i + 1][..i] == adds[..i];
        var (v, id) := adds[i];
        entries := entries[v := Lookup(entries, v) + [id]];
      }
      assert adds[..|adds|] == adds;
    }
  }

  // ---- the overlay ----

  /** What the overlay must say about one key: which base ids it drops and which ids it appends. */
  ghost predicate Overlays(ds: seq<DeltaFile>, tombstones: set<RowId>, adds: Entries) {
    forall base: Entries, v: Key ::
      Lookup(ApplyDeltas(base, ds), v) == Without(Lookup(base, v), tombstones) + Lookup(adds, v)
  }

  /** Drop one id from every pending add list; unlike `Retain`, emptied lists stay. */
  function DropId(adds: Entries, id: RowId): Entries {
    map v | v in adds :: Without(adds[v], {id})
  }

  /** Tombstones processed so far filter the adds that were pending before them. */
  ghost predicate Filtered(before: Entries, after: Entries, dead: set<RowId>) {
    after.Keys == before.Keys && forall v :: v in before ==> after[v] == Without(before[v], dead)
  }

  lemma {:induction false} FilteredMore(before: Entries, after: Entries, dead: set<RowId>, id: RowId)
    requires Filtered(before, after, dead)
    ensures Filtered(before, DropId(after, id), dead + {id})
  {
    forall v | v in before
      ensures DropId(after, id)[v] == Without(before[v], dead + {id})
    {
      WithoutTwice(before[v], dead, {id});
    }
  }

  lemma {:induction false} OverlayStep(ds: seq<DeltaFile>, d: Delta, tombstones: set<RowId>, adds: Entries,
                                       kept: Entries)
    requires Overlays(ds, tombstones, adds) && Filtered(adds, kept, Ids(d.tombstones))
    ensures Overlays(ds + [Some(d)], tombstones + Ids(d.tombstones), AddAll(kept, d.adds))
  {
    var dead := Ids(d.tombstones);
    forall base: Entries, v: Key
      ensures Lookup(ApplyDeltas(base, ds + [Some(d)]), v)
           == Without(Lookup(base, v), tombstones + dead) + Lookup(AddAll(kept, d.adds), v)
    {
      assert (ds + [Some(d)])[..|ds|] == ds;
      LookupApplyDelta(ApplyDeltas(base, ds), d, v);
      WithoutConcat(Without(Lookup(base, v), tombstones), Lookup(adds, v), dead);
      WithoutTwice(Lookup(base, v), tombstones, dead);
      LookupAddAll(kept, d.adds, v);
      assert Lookup(kept, v) == Without(Lookup(adds, v), dead);
      Assoc(Without(Lookup(base, v), tombstones + dead), Lookup(kept, v), AddedTo(d.adds, v));
    }
  }

  class IndexDeltaOverlay {
    var tombstones: set<RowId>
    var adds: Entries

    constructor ()
      ensures tombstones == {} && adds == map[]
    {
      tombstones, adds := {}, map[];
    }

    /** Replay the delta files without the base. */
    method Load(ds: seq<DeltaFile>)
      requires tombstones == {} && adds == map[]
      modifies this
      ensures Overlays(ds, tombstones, adds)
    {
      assert Overlays([], {}, map[]) by {
        forall base: Entries, v: Key
          ensures Lookup(ApplyDeltas(base, []), v) == Without(Lookup(base, v), {}) + Lookup(map[], v)
        {
          WithoutNone(Lookup(base, v));
        }
      }
      assert ds[..0] == [];
      for i := 0 to |ds|
        invariant Overlays(ds[..i], tombstones, adds)
      {
        assert ds[..i + 1] == ds[..i] + [ds[i]];
        match ds[i]
        case None =>
          SkipMissing(ds[..i], tombstones, adds);
        case Some(d) =>
          ghost var before, dead := adds, tombstones;
          DropTombstones(d.tombstones);
          OverlayStep(ds[..i], d, dead, before, adds);
          PushAdds(d.adds);
      }
      assert ds[..|ds|] == ds;
    }

    lemma {:induction false} SkipMissing(ds: seq<DeltaFile>, tombstones: set<RowId>, adds: Entries)
      requires Overlays(ds, tombstones, adds)
      ensures Overlays(ds + [None], tombstones, adds)
    {
      assert (ds + [None])[..|ds|] == ds;
    }

    method DropTombstones(ids: seq<RowId>)
      modifies this
      ensures tombstones == old(tombstones) + Ids(ids)
      ensures Filtered(old(adds), adds, Ids(ids))
    {
      forall v | v in adds
        ensures Without(adds[v], {}) == adds[v]
      {
        WithoutNone(adds[v]);
      }
      assert Ids(ids[..0]) == {};
      for i := 0 to |ids|
        invariant tombstones == old(tombstones) + Ids(ids[..i])
        invariant Filtered(old(adds), adds, Ids(ids[..i]))
      {
        assert Ids(ids[..i + 1]) == Ids(ids[..i]) + {ids[i]} by {
          assert ids[..i + 1] == ids[..i] + [ids[i]];
        }
        FilteredMore(old(adds), adds, Ids(ids[..i]), ids[i]);
        tombstones := tombstones + {ids[i]};
        adds := DropId(adds, ids[i]);
      }
      assert ids[..|ids|] == ids;
    }

    method PushAdds(more: seq<(Key, RowId)>)
      modifies this`adds
      ensures adds == AddAll(old(adds), more)
    {
      for i := 0 to |more|
        invariant adds == AddAll(old(adds), more[..i])
      {
        assert more[..i + 1][..i] == more[..i];
        var (v, id) := more[i];
        adds := adds[v := Lookup(adds, v) + [id]];
      }
      assert more[..|more|] == more;
    }

    /** Base postings minus tombstones, then this key's adds. */
    method Merge(v: Key, base: seq<RowId>) returns (out: seq<RowId>)
      ensures out == Without(base, tombstones) + Lookup(adds, v)
    {
      out := [];
      for i := 0 to |base|
        invariant out == Without(base[..i], tombstones)
      {
        assert base[..i + 1] == base[..i] + [base[i]];
        WithoutConcat(base[..i], [base[i]], tombstones);
        assert [base[i]][1..] == [];
        if base[i] !in tombstones {
          out := out + [base[i]];
        }
      }
      assert base[..|base|] == base;
      if v in adds {
        out := out + adds[v];
      }
    }
  }

  /** The fast form refines the simple one: looking a key up through the overlay gives, in the same
      order, what looking it up after replaying every delta onto the base gives. */
  method OverlayLookup(base: Entries, ds: seq<DeltaFile>, v: Key) returns (out: seq<RowId>)
    ensures out == Lookup(ApplyDeltas(base, ds), v)
  {
    var overlay := new IndexDeltaOverlay();
    overlay.Load(ds);
    out := overlay.Merge(v, Lookup(base, v));
  }
}
