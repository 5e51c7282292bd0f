// Repair of one table (`Doctor::repair` and its helpers in crates/icefalldb-core/src/doctor.rs).
module Repair {
  import opened Collections
  import opened TableStore
  import Gc

  // ---- what the doctor trusts ----

  /** A manifest from before checksums counts as valid, so that its files stay protected. */
  predicate Accepts(m: Manifest, s: nat) {
    m.sequence == s && m.formatVersion == 1 && (m.checksumOk || m.legacy)
  }

  predicate IsValid(files: Files, s: nat) {
    Snapshot(s) in files && files[Snapshot(s)].Doc? && Accepts(files[Snapshot(s)].manifest, s)
  }

  ghost predicate AnyValid(files: Files) {
    exists s: nat :: IsValid(files, s)
  }

  /** The highest valid sequence. */
  ghost predicate IsChosen(files: Files, chosen: nat) {
    IsValid(files, chosen) && forall s: nat :: IsValid(files, s) ==> s <= chosen
  }

  /** Data and metadata files only: `referenced_files`. */
  function DataRefs(m: Manifest): set<Path> {
    (set g | g in m.groups :: g.data) + (set g | g in m.groups :: g.meta)
  }

  ghost predicate Referenced(files: Files, p: Path) {
    exists s: nat :: IsValid(files, s) && p in DataRefs(files[Snapshot(s)].manifest)
  }

  // ---- what is wrong with a table ----

  predicate IsIntent(p: Path) {
    AreaOf(p) == Intents && p.File? && EndsWith(p.name, ".json")
  }

  predicate IsRowGroup(name: string) {
    StartsWith(name, "rg_") && (EndsWith(name, ".parquet") || EndsWith(name, ".meta"))
  }

  /** What `delete_orphans` deletes. */
  predicate Orphan(p: Path, chosen: nat, referenced: bool) {
    match p
    case Snapshot(s) => s > chosen
    case SchemaFile(_) => false
    case File(area, name) =>
      match area
      case Root => IsRowGroup(name) && !referenced
      case Incoming => EndsWith(name, ".part")
      case Compact => EndsWith(name, ".part")
      case Manifests => EndsWith(name, ".json.tmp")
      case _ => false
  }

  /** What `diagnose` reports, for a table with a valid snapshot. */
  datatype Issue = StaleIntent(p: Path) | InvalidPointer | OrphanFile(p: Path) | NewerInvalidManifest(s: nat)

  ghost predicate Diagnosed(files: Files, chosen: nat, issue: Issue) {
    match issue
    case StaleIntent(p) => p in files && IsIntent(p)
    case InvalidPointer => PointerOf(files) != Some(chosen)
    case OrphanFile(p) => p in files && p.File? && p.area != Manifests && Orphan(p, chosen, Referenced(files, p))
    case NewerInvalidManifest(s) => Snapshot(s) in files && s > chosen
  }

  // ---- missing metadata ----

  /** Rebuild the metadata of a row group from its schema, its data file, the checkpoint and its
      position; None when that fails. */
  type Regen = (Content, Content, Option<Content>, nat) -> Option<Content>

  function SchemaOf(files: Files, m: Manifest): Option<Content> {
    if SchemaFile(m.schemaId) in files then Some(files[SchemaFile(m.schemaId)]) else None
  }

  function CheckpointOf(files: Files, m: Manifest): Option<Content> {
    if m.checkpoint.Some? && m.checkpoint.value in files then Some(files[m.checkpoint.value]) else None
  }

  predicate SchemaReadable(files: Files, m: Manifest) {
    SchemaOf(files, m).Some? ==> SchemaOf(files, m).value.Schema?
  }

  function Rebuilt(files: Files, m: Manifest, regen: Regen, i: nat): Option<Content>
    requires i < |m.groups|
  {
    if SchemaOf(files, m).None? || m.groups[i].data !in files then None
    else regen(SchemaOf(files, m).value, files[m.groups[i].data], CheckpointOf(files, m), i)
  }

  /** The content is what `regen` makes of the snapshot's schema file, the row group's data file, the
      snapshot's checkpoint file, if it is there, and the row group's position. */
  ghost predicate IsRegen(files: Files, m: Manifest, regen: Regen, i: nat, content: Content)
    requires i < |m.groups|
  {
    && SchemaFile(m.schemaId) in files && m.groups[i].data in files
    && var checkpoint := match m.checkpoint
                         case Some(p) => (if p in files then Some(files[p]) else None)
                         case None => None;
    regen(files[SchemaFile(m.schemaId)], files[m.groups[i].data], checkpoint, i) == Some(content)
  }

  ghost predicate CanRegen(files: Files, m: Manifest, regen: Regen, i: nat)
    requires i < |m.groups|
  {
    exists content :: IsRegen(files, m, regen, i, content)
  }

  lemma {:induction false} RebuiltIsRegen(files: Files, m: Manifest, regen: Regen, i: nat)
    requires i < |m.groups|
    ensures CanRegen(files, m, regen, i) <==> Rebuilt(files, m, regen, i).Some?
    ensures forall c :: IsRegen(files, m, regen, i, c) <==> Rebuilt(files, m, regen, i) == Some(c)
  {
    var r := Rebuilt(files, m, regen, i);
    assert forall c :: IsRegen(files, m, regen, i, c) <==> r == Some(c);
    if r.Some? { assert IsRegen(files, m, regen, i, r.value); }
  }

  /** Every metadata file is there or cannot be rebuilt. */
  ghost predicate MetasDone(files: Files, m: Manifest, regen: Regen) {
    forall i :: 0 <= i < |m.groups| ==> m.groups[i].meta in files || !CanRegen(files, m, regen, i)
  }

  // ---- naming ----

  predicate IsData(p: Path) { p.File? && p.area == Root && EndsWith(p.name, ".parquet") }
  predicate IsMeta(p: Path) { p.File? && p.area == Root && EndsWith(p.name, ".meta") }

  predicate WellNamed(m: Manifest) {
    && (forall i :: 0 <= i < |m.groups| ==> IsData(m.groups[i].data) && IsMeta(m.groups[i].meta))
    && (m.checkpoint.Some? ==> AreaOf(m.checkpoint.value) == Checkpoints && m.checkpoint.value.File?)
  }

  predicate Listable(p: Path) { p.File? && p != MANIFEST_JSON && p != SCHEMA_JSON }

  /** Manifests name their files by the usual suffixes. */
  ghost predicate WellFormed(files: Files) {
    forall s: nat :: IsValid(files, s) ==> WellNamed(files[Snapshot(s)].manifest)
  }

  /** Intents list no manifest, schema or pointer. */
  ghost predicate PlainIntents(files: Files) {
    forall p, f :: p in files && files[p].Intent? && f in files[p].files ==> Listable(f)
  }

  lemma {:induction false} Suffixes(p: Path)
    requires IsData(p) || IsMeta(p)
    ensures p != MANIFEST_JSON && p != MANIFEST_TMP && p != SCHEMA_JSON && !IsIntent(p)
    ensures !(IsData(p) && IsMeta(p))
  {
    assert ".parquet"[7] == 't' && ".meta"[4] == 'a';
    assert p.name[|p.name| - 1] == (if IsData(p) then 't' else 'a');
    assert MANIFEST_JSON.name[13] == 'n' && MANIFEST_TMP.name[17] == 'p' && SCHEMA_JSON.name[11] == 'n';
  }

  lemma {:induction false} PointersStay(chosen: nat, referenced: bool)
    ensures !Orphan(MANIFEST_JSON, chosen, referenced) && !Orphan(SCHEMA_JSON, chosen, referenced)
    ensures !IsIntent(MANIFEST_JSON) && !IsIntent(SCHEMA_JSON) && !IsIntent(MANIFEST_TMP)
  {
    assert MANIFEST_JSON.name[..3][0] == '_' && SCHEMA_JSON.name[..3][0] == '_';
  }

  /** The files of every kind, by their names. */
  lemma {:induction false} OrphanKinds(n: string, chosen: nat, referenced: bool, s: nat)
    ensures Orphan(File(Root, "rg_" + n + ".parquet"), chosen, referenced) <==> !referenced
    ensures Orphan(File(Root, "rg_" + n + ".meta"), chosen, referenced) <==> !referenced
    ensures Orphan(File(Incoming, n + ".part"), chosen, referenced)
    ensures Orphan(File(Compact, n + ".part"), chosen, referenced)
    ensures Orphan(File(Manifests, n + ".json.tmp"), chosen, referenced)
    ensures Orphan(Snapshot(s), chosen, referenced) <==> s > chosen
    ensures !Orphan(SchemaFile(s), chosen, referenced) && !Orphan(File(Deletions, n), chosen, referenced)
    ensures !Orphan(File(RowIndex, n), chosen, referenced) && !Orphan(File(Indexes, n), chosen, referenced)
    ensures !Orphan(File(Checkpoints, n), chosen, referenced) && !Orphan(File(Elsewhere, n), chosen, referenced)
    ensures IsIntent(File(Intents, n + ".json"))
  {
    assert ("rg_" + n + ".parquet")[..3] == "rg_" && ("rg_" + n + ".meta")[..3] == "rg_";
    Gc.EndsWithIt("rg_" + n, ".parquet");
    Gc.EndsWithIt("rg_" + n, ".meta");
    Gc.EndsWithIt(n, ".part");
    Gc.EndsWithIt(n, ".json.tmp");
    Gc.EndsWithIt(n, ".json");
  }

  // ---- actions ----

  datatype Kind = RolledBack | PointerUpdated | OrphanRemoved | Regenerated | Skipped | Unrepairable

  datatype Action = Action(kind: Kind, path: Path)

  predicate IsMutation(k: Kind) { k.RolledBack? || k.PointerUpdated? || k.OrphanRemoved? || k.Regenerated? }

  predicate Mutates(actions: seq<Action>) {
    exists i :: 0 <= i < |actions| && IsMutation(actions[i].kind)
  }

  lemma {:induction false} MutatesMore(actions: seq<Action>, more: seq<Action>)
    ensures Mutates(actions + more) <==> Mutates(actions) || Mutates(more)
  {
    if Mutates(actions) {
      var i :| 0 <= i < |actions| && IsMutation(actions[i].kind);
      assert (actions + more)[i] == actions[i];
    }
    if Mutates(more) {
      var i :| 0 <= i < |more| && IsMutation(more[i].kind);
      assert (actions + more)[|actions| + i] == more[i];
    }
  }

  lemma {:induction false} MutatesOne(actions: seq<Action>, a: Action)
    ensures Mutates(actions + [a]) <==> Mutates(actions) || IsMutation(a.kind)
  {
    MutatesMore(actions, [a]);
    if IsMutation(a.kind) {
      assert IsMutation([a][0].kind);
    }
  }

  // ---- validation ----

  ghost predicate IsLoaded(files: Files, snaps: map<nat, Manifest>) {
    && (forall s: nat :: s in snaps <==> IsValid(files, s))
    && (forall s: nat :: IsValid(files, s) ==> s in snaps && snaps[s] == files[Snapshot(s)].manifest)
  }

  method ValidateSnapshots(st: Store) returns (snaps: map<nat, Manifest>, invalid: seq<Path>)
    ensures IsLoaded(st.files, snaps)
    ensures forall p :: p in invalid <==> p in st.files && p.Snapshot? && !IsValid(st.files, p.number)
  {
    snaps, invalid := map[], [];
    var todo := st.ListArea(Manifests);
    while todo != {}
      invariant forall p :: p in todo ==> p in st.files
      invariant forall s: nat :: s in snaps <==> IsValid(st.files, s) && Snapshot(s) !in todo
      invariant forall s: nat :: IsValid(st.files, s) && s in snaps ==> snaps[s] == st.files[Snapshot(s)].manifest
      invariant forall p :: p in invalid <==>
        p in st.files && p.Snapshot? && p !in todo && !IsValid(st.files, p.number)
      decreases todo
    {
      var p :| p in todo;
      if p.Snapshot? {
        if st.files[p].Doc? && Accepts(st.files[p].manifest, p.number) {
          snaps := snaps[p.number := st.files[p].manifest];
        } else {
          invalid := invalid + [p];
        }
      }
      todo := todo - {p};
    }
  }

  method CollectRefs(snaps: map<nat, Manifest>) returns (refs: set<Path>)
    ensures forall p :: p in refs <==> exists s: nat :: s in snaps && p in DataRefs(snaps[s])
  {
    refs := {};
    var todo := snaps.Keys;
    while todo != {}
      invariant todo <= snaps.Keys
      invariant forall p :: p in refs <==> exists s: nat :: s in snaps && s !in todo && p in DataRefs(snaps[s])
      decreases todo
    {
      var s :| s in todo;
      refs := refs + DataRefs(snaps[s]);
      todo := todo - {s};
    }
  }

  ghost predicate RefsOf(files: Files, refs: set<Path>) {
    forall p :: p in refs <==> Referenced(files, p)
  }

  lemma {:induction false} RefsMatch(files: Files, snaps: map<nat, Manifest>, refs: set<Path>)
    requires IsLoaded(files, snaps)
    requires forall p :: p in refs <==> exists s: nat :: s in snaps && p in DataRefs(snaps[s])
    ensures RefsOf(files, refs)
  {
    forall p
      ensures p in refs <==> Referenced(files, p)
    {
      if Referenced(files, p) {
        var s: nat :| IsValid(files, s) && p in DataRefs(files[Snapshot(s)].manifest);
        assert s in snaps && p in DataRefs(snaps[s]);
      }
      if p in refs {
        var s: nat :| s in snaps && p in DataRefs(snaps[s]);
        assert IsValid(files, s);
      }
    }
  }

  // ---- rolling back intents ----

  ghost function ListedBy(files: Files): set<Path> {
    set p, f | p in files && files[p].Intent? && f in files[p].files :: f
  }

  /** What a rollback may delete. */
  ghost function RollbackDooms(listed: set<Path>, refs: set<Path>): Path -> bool {
    p => IsIntent(p) || (p in listed && p !in refs)
  }

  ghost predicate NoIntents(files: Files) {
    forall p :: p in files ==> !IsIntent(p)
  }

  /** The files of one intent. */
  method DeleteListed(st: Store, listed: seq<Path>, refs: set<Path>, actions: seq<Action>,
                      ghost start: Files, ghost dooms: Path -> bool)
    returns (actions': seq<Action>)
    requires Between(start, dooms, st.files)
    requires forall f :: f in listed && f !in refs ==> dooms(f)
    modifies st
    ensures Between(start, dooms, st.files)
    ensures forall p :: p in st.files <==> p in old(st.files) && !(p in listed && p !in refs)
    ensures |st.trace| >= |old(st.trace)| && st.trace[..|old(st.trace)|] == old(st.trace)
    ensures AllBetween(st.trace, |old(st.trace)|, start, dooms)
    ensures Mutates(actions') <==> Mutates(actions)
  {
    actions' := actions;
    for i := 0 to |listed|
      invariant Between(start, dooms, st.files)
      invariant forall p :: p in st.files <==> p in old(st.files) && !(p in listed[..i] && p !in refs)
      invariant |st.trace| >= |old(st.trace)| && st.trace[..|old(st.trace)|] == old(st.trace)
      invariant AllBetween(st.trace, |old(st.trace)|, start, dooms)
      invariant Mutates(actions') <==> Mutates(actions)
    {
      var f := listed[i];
      assert listed[..i + 1] == listed[..i] + [f];
      if f in refs {
        MutatesOne(actions', Action(Skipped, f));
        actions' := actions' + [Action(Skipped, f)];
      } else if f in st.files {
        st.Delete(f);
      }
    }
    assert listed[..|listed|] == listed;
  }

  /** No intent lists an intent. */
  ghost predicate NoIntentListed(files: Files) {
    forall p, f :: p in files && files[p].Intent? && f in files[p].files ==> !IsIntent(f)
  }

  /** The intents outside `todo` are rolled back: what they list is gone unless it is referred to. */
  ghost predicate RolledBackBut(start: Files, todo: set<Path>, refs: set<Path>, t: Files) {
    && (forall p :: p in start && IsIntent(p) && p in todo ==> p in t)
    && forall p, f ::
         p in start && IsIntent(p) && p !in todo && start[p].Intent? && f in start[p].files && f !in refs ==> f !in t
  }

  /** Everything the intents list is gone, unless it is referred to. */
  ghost predicate RolledBackAll(start: Files, refs: set<Path>, t: Files) {
    forall p, f :: p in start && IsIntent(p) && start[p].Intent? && f in start[p].files && f !in refs ==> f !in t
  }

  /** `rollback_intents`. */
  method RollbackIntents(st: Store, refs: set<Path>, actions: seq<Action>) returns (actions': seq<Action>)
    modifies st
    ensures Between(old(st.files), RollbackDooms(ListedBy(old(st.files)), refs), st.files) && NoIntents(st.files)
    ensures NoIntentListed(old(st.files)) ==> RolledBackAll(old(st.files), refs, st.files)
    ensures |st.trace| >= |old(st.trace)| && st.trace[..|old(st.trace)|] == old(st.trace)
    ensures AllBetween(st.trace, |old(st.trace)|, old(st.files), RollbackDooms(ListedBy(old(st.files)), refs))
    ensures NoIntents(old(st.files)) ==> st.files == old(st.files) && actions' == actions
    ensures Mutates(actions) ==> Mutates(actions')
    ensures st.files != old(st.files) ==> Mutates(actions')
  {
    ghost var start := st.files;
    ghost var dooms := RollbackDooms(ListedBy(start), refs);
    actions' := actions;
    var todo := st.ListArea(Intents);
    while todo != {}
      invariant Between(start, dooms, st.files)
      invariant forall p :: p in todo ==> p in start && AreaOf(p) == Intents
      invariant forall p :: p in st.files && IsIntent(p) ==> p in todo
      invariant NoIntentListed(start) ==> RolledBackBut(start, todo, refs, st.files)
      invariant |st.trace| >= |old(st.trace)| && st.trace[..|old(st.trace)|] == old(st.trace)
      invariant AllBetween(st.trace, |old(st.trace)|, start, dooms)
      invariant NoIntents(start) ==> st.files == start && actions' == actions
      invariant Mutates(actions) ==> Mutates(actions')
      invariant st.files != start ==> Mutates(actions')
      decreases todo
    {
      var p :| p in todo;
      ghost var before := st.files;
      if IsIntent(p) && p in st.files {
        actions' := RollbackOne(st, p, refs, actions', start);
        if NoIntentListed(start) { RolledBackMore(start, todo, refs, before, p, st.files); }
      }
      todo := todo - {p};
    }
  }

  lemma {:induction false} RolledBackMore(start: Files, todo: set<Path>, refs: set<Path>, t: Files, p: Path, t': Files)
    requires NoIntentListed(start) && RolledBackBut(start, todo, refs, t) && IsIntent(p) && p in t && p in start
    requires t[p] == start[p]
    requires forall q :: q in t' <==> q in t && q != p && !(t[p].Intent? && q in t[p].files && q !in refs)
    ensures RolledBackBut(start, todo - {p}, refs, t')
  {
  }

  method RollbackOne(st: Store, p: Path, refs: set<Path>, actions: seq<Action>, ghost start: Files)
    returns (actions': seq<Action>)
    requires IsIntent(p) && p in st.files && p in start
    requires Between(start, RollbackDooms(ListedBy(start), refs), st.files)
    modifies st
    ensures Between(start, RollbackDooms(ListedBy(start), refs), st.files)
    ensures forall q :: q in st.files <==>
              q in old(st.files) && q != p && !(old(st.files)[p].Intent? && q in old(st.files)[p].files && q !in refs)
    ensures |st.trace| >= |old(st.trace)| && st.trace[..|old(st.trace)|] == old(st.trace)
    ensures AllBetween(st.trace, |old(st.trace)|, start, RollbackDooms(ListedBy(start), refs))
    ensures Mutates(actions')
  {
    ghost var dooms := RollbackDooms(ListedBy(start), refs);
    actions' := actions;
    var content := st.files[p];
    if content.Intent? {
      assert start[p] == content;
      assert forall f :: f in content.files ==> f in ListedBy(start);
      actions' := DeleteListed(st, content.files, refs, actions', start, dooms);
    }
    if p in st.files {
      st.Delete(p);
    }
    MutatesOne(actions', Action(RolledBack, p));
    actions' := actions' + [Action(RolledBack, p)];
  }

  // ---- regenerating metadata ----

  /** A file of `t` is the rebuilt metadata of some row group. */
  ghost predicate IsRebuiltMeta(files: Files, m: Manifest, regen: Regen, p: Path, content: Content) {
    exists i :: 0 <= i < |m.groups| && m.groups[i].meta == p && IsRegen(files, m, regen, i, content)
  }

  /** `t` is `start` with some missing metadata files added, as they are rebuilt. */
  ghost predicate Adds(start: Files, t: Files, m: Manifest, regen: Regen) {
    && (forall p :: p in start ==> p in t && t[p] == start[p])
    && (forall p :: p in t && p !in start ==> IsMeta(p) && IsRebuiltMeta(start, m, regen, p, t[p]))
  }

  ghost predicate AllAdds(trace: seq<Files>, first: nat, start: Files, m: Manifest, regen: Regen) {
    forall i :: first <= i < |trace| ==> Adds(start, trace[i], m, regen)
  }

  /** The row group's metadata is rebuilt to the same. */
  ghost predicate SameRebuild(a: Files, b: Files, m: Manifest, regen: Regen, i: nat) {
    i < |m.groups| ==>
      (forall c :: IsRegen(a, m, regen, i, c) <==> IsRegen(b, m, regen, i, c))
      && (CanRegen(a, m, regen, i) <==> CanRegen(b, m, regen, i))
  }

  /** The files it is rebuilt from are the same. */
  lemma {:induction false} SameRegen(a: Files, b: Files, m: Manifest, regen: Regen, i: nat)
    requires i < |m.groups| && SameAt(SchemaFile(m.schemaId), a, b) && SameAt(m.groups[i].data, a, b)
    requires m.checkpoint.Some? ==> SameAt(m.checkpoint.value, a, b)
    ensures SameRebuild(a, b, m, regen, i)
  {
    RebuiltIsRegen(a, m, regen, i);
    RebuiltIsRegen(b, m, regen, i);
  }

  lemma {:induction false} AddsKeepsRegen(start: Files, t: Files, m: Manifest, regen: Regen, i: nat)
    requires Adds(start, t, m, regen) && WellNamed(m) && i < |m.groups|
    ensures SameRebuild(start, t, m, regen, i)
  {
    Suffixes(m.groups[i].data);
    SameRegen(start, t, m, regen, i);
  }

  /** The actions `more` report exactly the new files as regenerated. */
  ghost predicate Reports(start: Files, t: Files, more: seq<Action>) {
    forall p :: p in t && p !in start <==> Action(Regenerated, p) in more
  }

  /** `repair_row_group_metas`; false when the schema file cannot be parsed. */
  method RepairMetas(st: Store, m: Manifest, regen: Regen, actions: seq<Action>)
    returns (ok: bool, actions': seq<Action>)
    requires WellNamed(m)
    modifies st
    ensures Adds(old(st.files), st.files, m, regen)
    ensures ok <==> m.groups == [] || SchemaReadable(old(st.files), m)
    ensures ok ==> MetasDone(st.files, m, regen)
    ensures |st.trace| >= |old(st.trace)| && st.trace[..|old(st.trace)|] == old(st.trace)
    ensures AllAdds(st.trace, |old(st.trace)|, old(st.files), m, regen)
    ensures |actions'| >= |actions| && actions'[..|actions|] == actions
    ensures Reports(old(st.files), st.files, actions'[|actions|..])
    ensures MetasDone(old(st.files), m, regen) ==> st.files == old(st.files) && (Mutates(actions') ==> Mutates(actions))
    ensures Mutates(actions) ==> Mutates(actions')
    ensures st.files != old(st.files) ==> Mutates(actions')
  {
    ghost var start := st.files;
    actions' := actions;
    if |m.groups| == 0 {
      return true, actions';
    }
    if !SchemaReadable(st.files, m) {
      return false, actions';
    }
    for i := 0 to |m.groups|
      invariant Adds(start, st.files, m, regen)
      invariant forall j :: 0 <= j < i ==> m.groups[j].meta in st.files || !CanRegen(start, m, regen, j)
      invariant |st.trace| >= |old(st.trace)| && st.trace[..|old(st.trace)|] == old(st.trace)
      invariant AllAdds(st.trace, |old(st.trace)|, start, m, regen)
      invariant |actions'| >= |actions| && actions'[..|actions|] == actions
      invariant Reports(start, st.files, actions'[|actions|..])
      invariant MetasDone(start, m, regen) ==> st.files == start && (Mutates(actions') ==> Mutates(actions))
      invariant Mutates(actions) ==> Mutates(actions')
      invariant st.files != start ==> Mutates(actions')
    {
      if m.groups[i].meta !in st.files {
        actions' := RepairMeta(st, m, regen, actions', i, start, |actions|);
      }
    }
    forall i | 0 <= i < |m.groups|
      ensures m.groups[i].meta in st.files || !CanRegen(st.files, m, regen, i)
    {
      AddsKeepsRegen(start, st.files, m, regen, i);
    }
    ok := true;
  }

  /** One missing metadata file. */
  method RepairMeta(st: Store, m: Manifest, regen: Regen, actions: seq<Action>, i: nat, ghost start: Files,
                    ghost first: nat)
    returns (actions': seq<Action>)
    requires WellNamed(m) && i < |m.groups| && m.groups[i].meta !in st.files
    requires Adds(start, st.files, m, regen) && first <= |actions|
    requires Reports(start, st.files, actions[first..])
    modifies st
    ensures Adds(start, st.files, m, regen)
    ensures forall p :: p in old(st.files) ==> p in st.files
    ensures m.groups[i].meta in st.files || !CanRegen(start, m, regen, i)
    ensures if CanRegen(start, m, regen, i) then Mutates(actions') && st.trace == old(st.trace) + [st.files]
            else st.files == old(st.files) && st.trace == old(st.trace) && (Mutates(actions') <==> Mutates(actions))
    ensures |actions'| == |actions| + 1 && actions'[..|actions|] == actions
    ensures Reports(start, st.files, actions'[first..])
    ensures Mutates(actions) ==> Mutates(actions')
  {
    AddsKeepsRegen(start, st.files, m, regen, i);
    RebuiltIsRegen(st.files, m, regen, i);
    var g := m.groups[i];
    var meta := Rebuilt(st.files, m, regen, i);
    var action := Action(if meta.Some? then Regenerated else Unrepairable, g.meta);
    MutatesOne(actions, action);
    actions' := actions + [action];
    assert actions'[first..] == actions[first..] + [action];
    if meta.Some? {
      st.Write(g.meta, meta.value);
      assert IsRebuiltMeta(start, m, regen, g.meta, meta.value);
    }
  }

  // ---- deleting orphans ----

  const ORPHAN_AREAS: seq<Area> := [Root, Incoming, Compact, Manifests]

  function OrphanDooms(chosen: nat, refs: set<Path>): Path -> bool {
    p => Orphan(p, chosen, p in refs)
  }

  ghost predicate NoOrphans(files: Files, chosen: nat, refs: set<Path>) {
    forall p :: p in files ==> !Orphan(p, chosen, p in refs)
  }

  /** `delete_orphans`. */
  method DeleteOrphans(st: Store, chosen: nat, refs: set<Path>, actions: seq<Action>) returns (actions': seq<Action>)
    modifies st
    ensures Between(old(st.files), OrphanDooms(chosen, refs), st.files)
    ensures NoOrphans(st.files, chosen, refs)
    ensures |st.trace| >= |old(st.trace)| && st.trace[..|old(st.trace)|] == old(st.trace)
    ensures AllBetween(st.trace, |old(st.trace)|, old(st.files), OrphanDooms(chosen, refs))
    ensures |actions'| >= |actions| && actions'[..|actions|] == actions
    ensures forall p :: Action(OrphanRemoved, p) in actions'[|actions|..] <==> p in old(st.files) && p !in st.files
    ensures NoOrphans(old(st.files), chosen, refs) ==>
              st.files == old(st.files) && (Mutates(actions') ==> Mutates(actions))
    ensures Mutates(actions) ==> Mutates(actions')
    ensures st.files != old(st.files) ==> Mutates(actions')
  {
    ghost var start := st.files;
    var deleted := SweepAreas(st, ORPHAN_AREAS, OrphanDooms(chosen, refs));
    SweptOrphans(start, chosen, refs, st.files);
    var removed := seq(|deleted|, i requires 0 <= i < |deleted| => Action(OrphanRemoved, deleted[i]));
    actions' := actions + removed;
    RemovedActions(deleted, removed);
    MutatesMore(actions, removed);
    if |deleted| > 0 {
      assert IsMutation(removed[0].kind);
      assert deleted[0] in deleted;
    }
    assert |deleted| == 0 ==> st.files == start by {
      if |deleted| == 0 {
        assert forall p :: p in start ==> p in st.files;
      }
    }
  }

  lemma {:induction false} RemovedActions(deleted: seq<Path>, removed: seq<Action>)
    requires |removed| == |deleted|
    requires forall i :: 0 <= i < |deleted| ==> removed[i] == Action(OrphanRemoved, deleted[i])
    ensures forall p :: Action(OrphanRemoved, p) in removed <==> p in deleted
  {
    forall p | p in deleted
      ensures Action(OrphanRemoved, p) in removed
    {
      var i :| 0 <= i < |deleted| && deleted[i] == p;
      assert removed[i] == Action(OrphanRemoved, p);
    }
  }

  lemma {:induction false} SweptOrphans(start: Files, chosen: nat, refs: set<Path>, after: Files)
    requires IsSwept(start, ORPHAN_AREAS, OrphanDooms(chosen, refs), after)
    ensures Between(start, OrphanDooms(chosen, refs), after) && NoOrphans(after, chosen, refs)
    ensures NoOrphans(start, chosen, refs) ==> after == start
  {
    forall p | p in start
      ensures p in after <==> !Orphan(p, chosen, p in refs)
    {
      assert OrphanDooms(chosen, refs)(p) == Orphan(p, chosen, p in refs);
      assert Orphan(p, chosen, p in refs) ==> AreaOf(p) in ORPHAN_AREAS;
    }
  }

  // ---- what no step may lose ----

  /** Every valid snapshot is still there, with every data and metadata file it has, and no snapshot
      is new. */
  ghost predicate Preserves(before: Files, t: Files) {
    && (forall s: nat :: Snapshot(s) in t ==> Snapshot(s) in before && t[Snapshot(s)] == before[Snapshot(s)])
    && (forall s: nat :: IsValid(before, s) ==> Snapshot(s) in t)
    && (forall p :: Referenced(before, p) && p in before ==> p in t && t[p] == before[p])
  }

  /** Whatever is new or different is the manifest pointer, or the rebuilt metadata of a row group. */
  ghost predicate OnlyRebuilds(before: Files, t: Files, m: Manifest, regen: Regen) {
    forall p :: p in t && !(p in before && t[p] == before[p]) && p != MANIFEST_JSON && p != MANIFEST_TMP ==>
      p !in before && IsRebuiltMeta(t, m, regen, p, t[p])
  }

  ghost predicate Sound(before: Files, t: Files, m: Manifest, regen: Regen) {
    Preserves(before, t) && OnlyRebuilds(before, t, m, regen)
  }

  ghost predicate AllSound(trace: seq<Files>, first: nat, before: Files, m: Manifest, regen: Regen) {
    forall i :: first <= i < |trace| ==> Sound(before, trace[i], m, regen)
  }

  /** Rebuilt metadata is still what its sources give. */
  lemma {:induction false} RebuildsStay(before: Files, start: Files, t: Files, m: Manifest, regen: Regen)
    requires OnlyRebuilds(before, start, m, regen)
    requires forall p :: p in t && !(p in start && t[p] == start[p]) ==> p == MANIFEST_JSON || p == MANIFEST_TMP
    requires forall i: nat :: i < |m.groups| ==> SameRebuild(start, t, m, regen, i)
    ensures OnlyRebuilds(before, t, m, regen)
  {
    forall p | p in t && !(p in before && t[p] == before[p]) && p != MANIFEST_JSON && p != MANIFEST_TMP
      ensures p !in before && IsRebuiltMeta(t, m, regen, p, t[p])
    {
      assert p in start && t[p] == start[p];
      var i :| 0 <= i < |m.groups| && m.groups[i].meta == p && IsRegen(start, m, regen, i, start[p]);
      assert SameRebuild(start, t, m, regen, i) && IsRegen(t, m, regen, i, t[p]);
    }
  }

  /** New metadata is rebuilt from what is there. */
  lemma {:induction false} AddsRebuilds(before: Files, start: Files, t: Files, m: Manifest, regen: Regen)
    requires OnlyRebuilds(before, start, m, regen) && Adds(start, t, m, regen) && WellNamed(m)
    requires forall i :: 0 <= i < |m.groups| ==> (m.groups[i].meta in before ==> m.groups[i].meta in start)
    ensures OnlyRebuilds(before, t, m, regen)
  {
    forall p | p in t && !(p in before && t[p] == before[p]) && p != MANIFEST_JSON && p != MANIFEST_TMP
      ensures p !in before && IsRebuiltMeta(t, m, regen, p, t[p])
    {
      assert IsRebuiltMeta(start, m, regen, p, t[p]);
      var i :| 0 <= i < |m.groups| && m.groups[i].meta == p && IsRegen(start, m, regen, i, t[p]);
      AddsKeepsRegen(start, t, m, regen, i);
    }
  }

  /** In plain terms: every valid snapshot has its manifest and, as far as they were there, the data and
      metadata files of all its row groups. */
  ghost predicate SnapshotsKept(before: Files, t: Files) {
    forall s: nat :: IsValid(before, s) ==>
      && SameAt(Snapshot(s), before, t)
      && forall g :: g in before[Snapshot(s)].manifest.groups ==> Kept(before, t, g.data) && Kept(before, t, g.meta)
  }

  ghost predicate Kept(before: Files, t: Files, p: Path) { p in before ==> p in t && t[p] == before[p] }

  lemma {:induction false} PreservesKeeps(before: Files, t: Files)
    requires Preserves(before, t)
    ensures SnapshotsKept(before, t)
  {
    forall s: nat | IsValid(before, s)
      ensures SameAt(Snapshot(s), before, t)
      ensures forall g :: g in before[Snapshot(s)].manifest.groups ==>
                Kept(before, t, g.data) && Kept(before, t, g.meta)
    {
      var m := before[Snapshot(s)].manifest;
      forall g | g in m.groups
        ensures Kept(before, t, g.data) && Kept(before, t, g.meta)
      {
        assert g.data in DataRefs(m) && g.meta in DataRefs(m);
        assert Referenced(before, g.data) && Referenced(before, g.meta);
      }
    }
  }

  ghost predicate AllKept(trace: seq<Files>, first: nat, before: Files) {
    forall i :: first <= i < |trace| ==> SnapshotsKept(before, trace[i])
  }

  lemma {:induction false} SoundKeeps(trace: seq<Files>, first: nat, before: Files, m: Manifest, regen: Regen)
    requires AllSound(trace, first, before, m, regen)
    ensures AllKept(trace, first, before)
  {
    forall i | first <= i < |trace|
      ensures SnapshotsKept(before, trace[i])
    {
      assert Sound(before, trace[i], m, regen);
      PreservesKeeps(before, trace[i]);
    }
  }

  lemma {:induction false} SameSnapshots(before: Files, t: Files)
    requires Preserves(before, t)
    ensures forall s: nat :: IsValid(t, s) <==> IsValid(before, s)
    ensures forall s: nat :: IsValid(t, s) ==> t[Snapshot(s)] == before[Snapshot(s)]
    ensures forall p :: Referenced(t, p) <==> Referenced(before, p)
    ensures forall c: nat :: IsChosen(t, c) <==> IsChosen(before, c)
  {
    forall s: nat
      ensures IsValid(t, s) <==> IsValid(before, s)
      ensures IsValid(t, s) ==> t[Snapshot(s)] == before[Snapshot(s)]
    {
    }
    forall p
      ensures Referenced(t, p) <==> Referenced(before, p)
    {
      if Referenced(before, p) {
        var s: nat :| IsValid(before, s) && p in DataRefs(before[Snapshot(s)].manifest);
        assert IsValid(t, s) && p in DataRefs(t[Snapshot(s)].manifest);
      }
    }
  }

  lemma {:induction false} PreservesBoth(a: Files, b: Files, c: Files)
    requires Preserves(a, b) && Preserves(b, c)
    ensures Preserves(a, c)
  {
    SameSnapshots(a, b);
  }

  lemma {:induction false} RefsAreNamed(files: Files, p: Path)
    requires WellFormed(files) && Referenced(files, p)
    ensures IsData(p) || IsMeta(p)
  {
    var s: nat :| IsValid(files, s) && p in DataRefs(files[Snapshot(s)].manifest);
    var m := files[Snapshot(s)].manifest;
    assert WellNamed(m);
    var g :| g in m.groups && (p == g.data || p == g.meta);
    var i :| 0 <= i < |m.groups| && m.groups[i] == g;
  }

  lemma {:induction false} RollbackPreserves(before: Files, refs: set<Path>, t: Files)
    requires WellFormed(before) && PlainIntents(before) && RefsOf(before, refs)
    requires Between(before, RollbackDooms(ListedBy(before), refs), t)
    ensures Preserves(before, t) && SameAt(MANIFEST_JSON, before, t) && TableKept(before, t)
    ensures forall p :: p in t ==> p in before && t[p] == before[p]
  {
    var dooms := RollbackDooms(ListedBy(before), refs);
    assert forall f :: f in ListedBy(before) ==> Listable(f);
    forall p | Referenced(before, p) && p in before
      ensures p in t && t[p] == before[p]
    {
      RefsAreNamed(before, p);
      Suffixes(p);
      assert p in refs && !dooms(p);
    }
    forall s: nat | Snapshot(s) in before
      ensures Snapshot(s) in t
    {
      assert !dooms(Snapshot(s));
    }
    forall id: nat | SchemaFile(id) in before
      ensures SchemaFile(id) in t
    {
      assert !dooms(SchemaFile(id));
    }
    PointersStay(0, true);
    assert !dooms(MANIFEST_JSON) && !dooms(SCHEMA_JSON);
  }

  /** The schema pointer and the schema files stay. */
  ghost predicate TableKept(before: Files, t: Files) {
    && SameAt(SCHEMA_JSON, before, t)
    && forall id: nat :: SameAt(SchemaFile(id), before, t)
  }

  lemma {:induction false} PointPreserves(files: Files, chosen: nat)
    requires WellFormed(files)
    ensures Preserves(files, files[MANIFEST_TMP := PointerTo(chosen)])
    ensures Preserves(files, Repointed(files, chosen)) && TableKept(files, Repointed(files, chosen))
    ensures NoIntents(files) ==> NoIntents(Repointed(files, chosen))
  {
    forall p | Referenced(files, p)
      ensures p != MANIFEST_JSON && p != MANIFEST_TMP
    {
      RefsAreNamed(files, p);
      Suffixes(p);
    }
    PointersStay(0, true);
  }

  lemma {:induction false} PointRebuilds(before: Files, files: Files, chosen: nat, m: Manifest, regen: Regen)
    requires OnlyRebuilds(before, files, m, regen) && WellNamed(m)
    ensures OnlyRebuilds(before, files[MANIFEST_TMP := PointerTo(chosen)], m, regen)
    ensures OnlyRebuilds(before, Repointed(files, chosen), m, regen)
  {
    PointRebuild(before, files, files[MANIFEST_TMP := PointerTo(chosen)], m, regen);
    PointRebuild(before, files, Repointed(files, chosen), m, regen);
  }

  lemma {:induction false} PointRebuild(before: Files, files: Files, t: Files, m: Manifest, regen: Regen)
    requires OnlyRebuilds(before, files, m, regen) && WellNamed(m)
    requires forall p: Path :: p != MANIFEST_JSON && p != MANIFEST_TMP ==> SameAt(p, files, t)
    ensures OnlyRebuilds(before, t, m, regen)
  {
    forall i: nat | i < |m.groups|
      ensures SameRebuild(files, t, m, regen, i)
    {
      Suffixes(m.groups[i].data);
      SameRegen(files, t, m, regen, i);
    }
    forall p | p in t && p != MANIFEST_JSON && p != MANIFEST_TMP
      ensures p in files && t[p] == files[p]
    {
      assert SameAt(p, files, t);
    }
    RebuildsStay(before, files, t, m, regen);
  }

  lemma {:induction false} AddsPreserves(start: Files, t: Files, m: Manifest, regen: Regen)
    requires Adds(start, t, m, regen)
    ensures Preserves(start, t) && TableKept(start, t) && PointerOf(t) == PointerOf(start)
    ensures NoIntents(start) ==> NoIntents(t)
  {
    forall p | p in t && p !in start
      ensures p != MANIFEST_JSON && p != SCHEMA_JSON && !IsIntent(p) && p.File?
    {
      Suffixes(p);
    }
  }

  lemma {:induction false} OrphansPreserve(start: Files, chosen: nat, refs: set<Path>, t: Files)
    requires WellFormed(start) && IsChosen(start, chosen) && RefsOf(start, refs)
    requires Between(start, OrphanDooms(chosen, refs), t)
    ensures Preserves(start, t) && TableKept(start, t) && PointerOf(t) == PointerOf(start)
    ensures NoIntents(start) ==> NoIntents(t)
  {
    PointersStay(chosen, MANIFEST_JSON in refs);
    PointersStay(chosen, SCHEMA_JSON in refs);
    OrphanKept(start, chosen, refs, t, MANIFEST_JSON);
    OrphanKept(start, chosen, refs, t, SCHEMA_JSON);
    forall s: nat | s <= chosen
      ensures SameAt(Snapshot(s), start, t)
    {
      OrphanKept(start, chosen, refs, t, Snapshot(s));
    }
    forall id: nat
      ensures SameAt(SchemaFile(id), start, t)
    {
      OrphanKept(start, chosen, refs, t, SchemaFile(id));
    }
    forall p | Referenced(start, p)
      ensures SameAt(p, start, t)
    {
      ReferencedIsNoOrphan(start, chosen, p);
      OrphanKept(start, chosen, refs, t, p);
    }
  }

  lemma {:induction false} OrphanKept(start: Files, chosen: nat, refs: set<Path>, t: Files, p: Path)
    requires Between(start, OrphanDooms(chosen, refs), t) && !Orphan(p, chosen, p in refs)
    ensures SameAt(p, start, t)
  {
    assert !OrphanDooms(chosen, refs)(p);
  }

  lemma {:induction false} ReferencedIsNoOrphan(files: Files, chosen: nat, p: Path)
    requires WellFormed(files) && IsChosen(files, chosen) && Referenced(files, p)
    ensures !Orphan(p, chosen, true)
  {
    RefsAreNamed(files, p);
  }

  // ---- the whole repair ----

  datatype Outcome =
    | TableNotFound
    | NoValidSnapshots
    | SchemaUnreadable
    | Done(repaired: bool, actions: seq<Action>)

  /** A table the doctor has nothing to do on. */
  ghost predicate Settled(files: Files, regen: Regen, chosen: nat) {
    && IsChosen(files, chosen) && PointerOf(files) == Some(chosen) && NoIntents(files)
    && MetasDone(files, files[Snapshot(chosen)].manifest, regen)
    && forall p :: p in files ==> !Orphan(p, chosen, Referenced(files, p))
  }

  /** Such a table has no stale intent, no wrong pointer, no orphan and no newer manifest. */
  lemma {:induction false} SettledHasNoIssue(files: Files, regen: Regen, chosen: nat, issue: Issue)
    requires Settled(files, regen, chosen)
    ensures !Diagnosed(files, chosen, issue)
  {
    match issue
    case NewerInvalidManifest(s) =>
      if Snapshot(s) in files { assert !Orphan(Snapshot(s), chosen, Referenced(files, Snapshot(s))); }
    case _ =>
  }

  /** What the steps after the first have in common: the trace so far lost nothing. */
  ghost predicate Underway(before: Files, chosen: nat, refs: set<Path>, files: Files, m: Manifest, regen: Regen) {
    && WellFormed(before) && IsChosen(before, chosen) && RefsOf(before, refs) && Sound(before, files, m, regen)
    && TableKept(before, files) && m == before[Snapshot(chosen)].manifest
    && PlainIntents(before) && ListedGone(before, files)
  }

  /** What the intents list is gone, unless a valid snapshot has it as a data or metadata file. */
  ghost predicate ListedGone(before: Files, t: Files) {
    NoIntentListed(before) ==>
      forall p, f ::
        p in before && IsIntent(p) && before[p].Intent? && f in before[p].files && !Referenced(before, f) ==> f !in t
  }

  lemma {:induction false} ListedStayGone(before: Files, start: Files, t: Files)
    requires ListedGone(before, start) && PlainIntents(before)
    requires forall f :: f in t && f !in start ==> f == MANIFEST_JSON || Referenced(before, f)
    ensures ListedGone(before, t)
  {
    if NoIntentListed(before) {
      forall p, f | p in before && IsIntent(p) && before[p].Intent? && f in before[p].files && !Referenced(before, f)
        ensures f !in t
      {
        assert Listable(f) && f !in start;
      }
    }
  }

  lemma {:induction false} StepPreserves(before: Files, chosen: nat, refs: set<Path>, start: Files, m: Manifest,
                                         regen: Regen)
    requires Underway(before, chosen, refs, start, m, regen)
    ensures WellFormed(start) && IsChosen(start, chosen) && RefsOf(start, refs)
    ensures start[Snapshot(chosen)] == before[Snapshot(chosen)]
    ensures forall t :: Preserves(start, t) ==> Preserves(before, t)
  {
    SameSnapshots(before, start);
    forall t | Preserves(start, t)
      ensures Preserves(before, t)
    {
      PreservesBoth(before, start, t);
    }
  }

  /** Neither of the two writes of the pointer does any harm. */
  lemma {:induction false} PointSound(before: Files, chosen: nat, refs: set<Path>, files: Files, m: Manifest,
                                      regen: Regen)
    requires Underway(before, chosen, refs, files, m, regen) && NoIntents(files)
    ensures Sound(before, files[MANIFEST_TMP := PointerTo(chosen)], m, regen)
    ensures Underway(before, chosen, refs, Repointed(files, chosen), m, regen) && NoIntents(Repointed(files, chosen))
  {
    StepPreserves(before, chosen, refs, files, m, regen);
    PointPreserves(files, chosen);
    assert WellNamed(m);
    PointRebuilds(before, files, chosen, m, regen);
    ListedStayGone(before, files, Repointed(files, chosen));
  }

  method PointerStep(st: Store, chosen: nat, pointer: Option<nat>, actions: seq<Action>, ghost before: Files,
                     ghost refs: set<Path>, ghost m: Manifest, ghost regen: Regen)
    returns (actions': seq<Action>)
    requires Underway(before, chosen, refs, st.files, m, regen) && NoIntents(st.files)
    requires pointer == PointerOf(st.files)
    modifies st
    ensures Underway(before, chosen, refs, st.files, m, regen) && NoIntents(st.files)
    ensures PointerOf(st.files) == Some(chosen)
    ensures |st.trace| >= |old(st.trace)| && st.trace[..|old(st.trace)|] == old(st.trace)
    ensures AllSound(st.trace, |old(st.trace)|, before, m, regen)
    ensures pointer == Some(chosen) ==> st.files == old(st.files) && actions' == actions
    ensures KeepsActions(actions, actions')
    ensures forall p :: p in st.files ==> p in old(st.files) || p == MANIFEST_JSON
    ensures pointer != Some(chosen) ==> Action(PointerUpdated, MANIFEST_JSON) in actions'
    ensures Mutates(actions) ==> Mutates(actions')
    ensures st.files != old(st.files) ==> Mutates(actions')
  {
    actions' := actions;
    if pointer != Some(chosen) {
      PointSound(before, chosen, refs, st.files, m, regen);
      st.WritePointer(chosen);
      MutatesOne(actions', Action(PointerUpdated, MANIFEST_JSON));
      actions' := actions' + [Action(PointerUpdated, MANIFEST_JSON)];
    }
  }

  method MetasStep(st: Store, m: Manifest, regen: Regen, actions: seq<Action>, ghost before: Files, ghost chosen: nat,
                   ghost refs: set<Path>)
    returns (ok: bool, actions': seq<Action>)
    requires Underway(before, chosen, refs, st.files, m, regen) && NoIntents(st.files)
    requires PointerOf(st.files) == Some(chosen)
    modifies st
    ensures Underway(before, chosen, refs, st.files, m, regen) && NoIntents(st.files)
    ensures PointerOf(st.files) == Some(chosen)
    ensures ok <==> m.groups == [] || SchemaReadable(old(st.files), m)
    ensures ok ==> MetasDone(st.files, m, regen)
    ensures |st.trace| >= |old(st.trace)| && st.trace[..|old(st.trace)|] == old(st.trace)
    ensures AllSound(st.trace, |old(st.trace)|, before, m, regen)
    ensures MetasDone(old(st.files), m, regen) ==> st.files == old(st.files) && (Mutates(actions') ==> Mutates(actions))
    ensures Mutates(actions) ==> Mutates(actions')
    ensures st.files != old(st.files) ==> Mutates(actions')
    ensures KeepsActions(actions, actions')
    ensures forall p :: p in st.files && p !in old(st.files) ==> Action(Regenerated, p) in actions'
  {
    ghost var start := st.files;
    StepPreserves(before, chosen, refs, start, m, regen);
    ok, actions' := RepairMetas(st, m, regen, actions);
    assert actions' == actions + actions'[|actions|..];
    MetasKept(before, chosen, start, m);
    MetasReferenced(before, chosen, start, st.files, m, regen);
    ListedStayGone(before, start, st.files);
    AddsPreserves(start, st.files, m, regen);
    AddsRebuilds(before, start, st.files, m, regen);
    forall i | |old(st.trace)| <= i < |st.trace|
      ensures Sound(before, st.trace[i], m, regen)
    {
      AddsPreserves(start, st.trace[i], m, regen);
      AddsRebuilds(before, start, st.trace[i], m, regen);
    }
  }

  lemma {:induction false} MetasReferenced(before: Files, chosen: nat, start: Files, t: Files, m: Manifest,
                                           regen: Regen)
    requires IsChosen(before, chosen) && m == before[Snapshot(chosen)].manifest && Adds(start, t, m, regen)
    ensures forall f :: f in t && f !in start ==> Referenced(before, f)
  {
    forall f | f in t && f !in start
      ensures Referenced(before, f)
    {
      assert IsRebuiltMeta(start, m, regen, f, t[f]);
      var i :| 0 <= i < |m.groups| && m.groups[i].meta == f && IsRegen(start, m, regen, i, t[f]);
      ReferencedByChosen(before, chosen, i);
    }
  }

  lemma {:induction false} MetasKept(before: Files, chosen: nat, start: Files, m: Manifest)
    requires IsChosen(before, chosen) && m == before[Snapshot(chosen)].manifest && Preserves(before, start)
    ensures forall i :: 0 <= i < |m.groups| ==> (m.groups[i].meta in before ==> m.groups[i].meta in start)
  {
    forall i | 0 <= i < |m.groups|
      ensures m.groups[i].meta in before ==> m.groups[i].meta in start
    {
      ReferencedByChosen(before, chosen, i);
    }
  }

  method OrphansStep(st: Store, chosen: nat, refs: set<Path>, actions: seq<Action>, ghost before: Files,
                     ghost m: Manifest, ghost regen: Regen)
    returns (actions': seq<Action>)
    requires Underway(before, chosen, refs, st.files, m, regen) && NoIntents(st.files)
    requires PointerOf(st.files) == Some(chosen) && MetasDone(st.files, m, regen)
    modifies st
    ensures Underway(before, chosen, refs, st.files, m, regen) && Settled(st.files, regen, chosen)
    ensures |st.trace| >= |old(st.trace)| && st.trace[..|old(st.trace)|] == old(st.trace)
    ensures AllSound(st.trace, |old(st.trace)|, before, m, regen)
    ensures NoOrphans(old(st.files), chosen, refs) ==>
              st.files == old(st.files) && (Mutates(actions') ==> Mutates(actions))
    ensures Mutates(actions) ==> Mutates(actions')
    ensures st.files != old(st.files) ==> Mutates(actions')
    ensures KeepsActions(actions, actions')
    ensures forall p :: p !in st.files && p in old(st.files) ==> Action(OrphanRemoved, p) in actions'
    ensures forall p :: p in st.files ==> p in old(st.files)
  {
    ghost var start := st.files;
    StepPreserves(before, chosen, refs, start, m, regen);
    actions' := DeleteOrphans(st, chosen, refs, actions);
    assert actions' == actions + actions'[|actions|..];
    OrphansPreserve(start, chosen, refs, st.files);
    OrphansSound(before, start, chosen, refs, st.files, m, regen);
    ListedStayGone(before, start, st.files);
    forall i | |old(st.trace)| <= i < |st.trace|
      ensures Sound(before, st.trace[i], m, regen)
    {
      OrphansSound(before, start, chosen, refs, st.trace[i], m, regen);
    }
    SameSnapshots(start, st.files);
  }

  /** Deleting orphans deletes nothing that metadata is rebuilt from. */
  lemma {:induction false} OrphansKeepRegen(start: Files, chosen: nat, refs: set<Path>, t: Files, m: Manifest,
                                            regen: Regen, i: nat)
    requires WellFormed(start) && IsChosen(start, chosen) && RefsOf(start, refs)
    requires m == start[Snapshot(chosen)].manifest && i < |m.groups|
    requires Between(start, OrphanDooms(chosen, refs), t)
    ensures SameRebuild(start, t, m, regen, i)
  {
    assert WellNamed(m);
    if m.checkpoint.Some? {
      assert !Orphan(m.checkpoint.value, chosen, m.checkpoint.value in refs);
      OrphanKept(start, chosen, refs, t, m.checkpoint.value);
    }
    OrphanKept(start, chosen, refs, t, SchemaFile(m.schemaId));
    ReferencedByChosen(start, chosen, i);
    ReferencedIsNoOrphan(start, chosen, m.groups[i].data);
    OrphanKept(start, chosen, refs, t, m.groups[i].data);
    SameRegen(start, t, m, regen, i);
  }

  /** It leaves the metadata as it is: there as rebuilt, or impossible to rebuild. */
  lemma {:induction false} OrphansSound(before: Files, start: Files, chosen: nat, refs: set<Path>, t: Files,
                                        m: Manifest, regen: Regen)
    requires Underway(before, chosen, refs, start, m, regen) && Between(start, OrphanDooms(chosen, refs), t)
    ensures Sound(before, t, m, regen)
    ensures MetasDone(start, m, regen) ==> MetasDone(t, m, regen)
  {
    StepPreserves(before, chosen, refs, start, m, regen);
    OrphansPreserve(start, chosen, refs, t);
    forall i: nat | i < |m.groups|
      ensures SameRebuild(start, t, m, regen, i)
    {
      OrphansKeepRegen(start, chosen, refs, t, m, regen, i);
    }
    RebuildsStay(before, start, t, m, regen);
    OrphansKeepMetas(start, chosen, refs, t, m);
    if MetasDone(start, m, regen) { MetasStayDone(start, t, m, regen); }
  }

  lemma {:induction false} OrphansKeepMetas(start: Files, chosen: nat, refs: set<Path>, t: Files, m: Manifest)
    requires WellFormed(start) && IsChosen(start, chosen) && RefsOf(start, refs)
    requires m == start[Snapshot(chosen)].manifest && Between(start, OrphanDooms(chosen, refs), t)
    ensures forall i :: 0 <= i < |m.groups| && m.groups[i].meta in start ==> m.groups[i].meta in t
  {
    forall i | 0 <= i < |m.groups| && m.groups[i].meta in start
      ensures m.groups[i].meta in t
    {
      ReferencedByChosen(start, chosen, i);
      ReferencedIsNoOrphan(start, chosen, m.groups[i].meta);
      OrphanKept(start, chosen, refs, t, m.groups[i].meta);
    }
  }

  lemma {:induction false} MetasStayDone(start: Files, t: Files, m: Manifest, regen: Regen)
    requires MetasDone(start, m, regen)
    requires forall i: nat :: i < |m.groups| ==> SameRebuild(start, t, m, regen, i)
    requires forall i :: 0 <= i < |m.groups| && m.groups[i].meta in start ==> m.groups[i].meta in t
    ensures MetasDone(t, m, regen)
  {
    forall i: nat | i < |m.groups|
      ensures m.groups[i].meta in t || !CanRegen(t, m, regen, i)
    {
      assert SameRebuild(start, t, m, regen, i);
    }
  }

  lemma {:induction false} ReferencedByChosen(files: Files, chosen: nat, i: nat)
    requires IsValid(files, chosen) && i < |files[Snapshot(chosen)].manifest.groups|
    ensures Referenced(files, files[Snapshot(chosen)].manifest.groups[i].data)
    ensures Referenced(files, files[Snapshot(chosen)].manifest.groups[i].meta)
  {
    var m := files[Snapshot(chosen)].manifest;
    assert m.groups[i].data in DataRefs(m) && m.groups[i].meta in DataRefs(m);
  }

  /** Invalid manifests, a wrong pointer and new metadata are in the report. */
  ghost predicate Reported(before: Files, after: Files, chosen: nat, actions: seq<Action>) {
    && (forall s: nat :: Snapshot(s) in before && !IsValid(before, s) ==> Action(Skipped, Snapshot(s)) in actions)
    && (PointerOf(before) != Some(chosen) ==> Action(PointerUpdated, MANIFEST_JSON) in actions)
    && forall p :: IsMeta(p) && p in after && p !in before ==> Action(Regenerated, p) in actions
  }

  /** What the repair of a table with a valid snapshot does. The schema file that cannot be parsed is the one
      error. */
  ghost predicate Repaired(before: Files, after: Files, trace: seq<Files>, first: nat, regen: Regen, chosen: nat,
                           r: Outcome)
  {
    && IsChosen(before, chosen)
    && var m := before[Snapshot(chosen)].manifest;
    && (r.SchemaUnreadable? || r.Done?)
    && (r.SchemaUnreadable? <==>
          m.groups != [] && SchemaFile(m.schemaId) in before && !before[SchemaFile(m.schemaId)].Schema?)
    && (r.Done? ==> Settled(after, regen, chosen) && Reported(before, after, chosen, r.actions))
    && (r.Done? && Settled(before, regen, chosen) ==> !r.repaired && after == before)
    && Sound(before, after, m, regen) && AllSound(trace, first, before, m, regen)
    && SnapshotsKept(before, after) && AllKept(trace, first, before) && ListedGone(before, after)
  }

  /** The repair of a table with a valid snapshot. */
  method RepairValid(st: Store, regen: Regen, snaps: map<nat, Manifest>, invalid: seq<Path>)
    returns (r: Outcome, chosen: nat)
    requires WellFormed(st.files) && PlainIntents(st.files) && IsLoaded(st.files, snaps) && snaps != map[]
    requires forall p :: p in invalid <==> p in st.files && p.Snapshot? && !IsValid(st.files, p.number)
    modifies st
    ensures Repaired(old(st.files), st.files, st.trace, |old(st.trace)|, regen, chosen, r)
    ensures TableExists(old(st.files)) ==> TableExists(st.files)
    ensures |st.trace| >= |old(st.trace)| && st.trace[..|old(st.trace)|] == old(st.trace)
    ensures r.Done? && !r.repaired ==> st.files == old(st.files)
  {
    var some :| some in snaps;
    chosen := HighestOf(snaps.Keys);
    var refs := CollectRefs(snaps);
    RefsMatch(st.files, snaps, refs);
    r := RepairSteps(st, regen, snaps[chosen], chosen, refs, invalid, st.files);
  }

  method RepairSteps(st: Store, regen: Regen, m: Manifest, chosen: nat, refs: set<Path>, invalid: seq<Path>,
                     ghost before: Files)
    returns (r: Outcome)
    requires st.files == before && WellFormed(before) && PlainIntents(before)
    requires IsChosen(before, chosen) && RefsOf(before, refs) && m == before[Snapshot(chosen)].manifest
    requires forall p :: p in invalid <==> p in before && p.Snapshot? && !IsValid(before, p.number)
    modifies st
    ensures Repaired(before, st.files, st.trace, |old(st.trace)|, regen, chosen, r) && TableKept(before, st.files)
    ensures |st.trace| >= |old(st.trace)| && st.trace[..|old(st.trace)|] == old(st.trace)
    ensures r.Done? && !r.repaired ==> st.files == before
  {
    var actions := FirstSteps(st, m, regen, invalid, chosen, refs, before);
    ghost var t1, f1, a1 := st.trace, st.files, actions;
    var ok;
    ok, actions := MetasStep(st, m, regen, actions, before, chosen, refs);
    ghost var t2, f2, a2 := st.trace, st.files, actions;
    TraceGrows(t1, t2, |old(st.trace)|, before, m, regen);
    if !ok {
      PreservesKeeps(before, st.files);
      SoundKeeps(st.trace, |old(st.trace)|, before, m, regen);
      return SchemaUnreadable;
    }
    actions := OrphansStep(st, chosen, refs, actions, before, m, regen);
    TraceGrows(t2, st.trace, |old(st.trace)|, before, m, regen);
    PreservesKeeps(before, st.files);
    SoundKeeps(st.trace, |old(st.trace)|, before, m, regen);
    ReportGrows(before, chosen, f1, a1, f2, a2);
    ReportGrows(before, chosen, f2, a2, st.files, actions);
    r := Done(Mutates(actions), actions);
  }

  /** The rest of the repair does not spoil the report. */
  lemma {:induction false} ReportGrows(before: Files, chosen: nat, f1: Files, a1: seq<Action>, f2: Files,
                                       a2: seq<Action>)
    requires Reported(before, f1, chosen, a1) && KeepsActions(a1, a2)
    requires forall p :: IsMeta(p) && p in f2 && p !in f1 ==> Action(Regenerated, p) in a2
    ensures Reported(before, f2, chosen, a2)
  {
  }

  /** Roll the intents back, note the invalid manifests, and put the pointer right. */
  method FirstSteps(st: Store, m: Manifest, regen: Regen, invalid: seq<Path>, chosen: nat, refs: set<Path>,
                    ghost before: Files)
    returns (actions: seq<Action>)
    requires st.files == before && WellFormed(before) && PlainIntents(before)
    requires IsChosen(before, chosen) && RefsOf(before, refs) && m == before[Snapshot(chosen)].manifest
    requires forall p :: p in invalid <==> p in before && p.Snapshot? && !IsValid(before, p.number)
    modifies st
    ensures Underway(before, chosen, refs, st.files, m, regen) && NoIntents(st.files)
    ensures PointerOf(st.files) == Some(chosen) && Reported(before, st.files, chosen, actions)
    ensures |st.trace| >= |old(st.trace)| && st.trace[..|old(st.trace)|] == old(st.trace)
    ensures AllSound(st.trace, |old(st.trace)|, before, m, regen)
    ensures NoIntents(before) && PointerOf(before) == Some(chosen) ==> st.files == before && !Mutates(actions)
    ensures st.files != before ==> Mutates(actions)
  {
    var pointer := PointerOf(st.files);
    actions := RollbackStep(st, refs, before, chosen, m, regen);
    ghost var t1 := st.trace;
    actions := SkipInvalid(invalid, actions);
    assert forall s: nat :: Snapshot(s) in before && !IsValid(before, s) ==> Snapshot(s) in invalid;
    PointersStay(0, true);
    assert !IsMeta(MANIFEST_JSON);
    actions := PointerStep(st, chosen, pointer, actions, before, refs, m, regen);
    TraceGrows(t1, st.trace, |old(st.trace)|, before, m, regen);
  }

  lemma {:induction false} TraceGrows(earlier: seq<Files>, later: seq<Files>, first: nat, before: Files, m: Manifest,
                                      regen: Regen)
    requires first <= |earlier| <= |later| && later[..|earlier|] == earlier
    requires AllSound(earlier, first, before, m, regen) && AllSound(later, |earlier|, before, m, regen)
    ensures AllSound(later, first, before, m, regen) && later[..first] == earlier[..first]
  {
    forall i | first <= i < |later|
      ensures Sound(before, later[i], m, regen)
    {
      if i < |earlier| { assert later[i] == earlier[i]; }
    }
  }

  method SkipInvalid(invalid: seq<Path>, actions: seq<Action>) returns (actions': seq<Action>)
    ensures Mutates(actions') <==> Mutates(actions)
    ensures forall p :: p in invalid ==> Action(Skipped, p) in actions'
  {
    actions' := actions;
    for i := 0 to |invalid|
      invariant Mutates(actions') <==> Mutates(actions)
      invariant forall p :: p in invalid[..i] ==> Action(Skipped, p) in actions'
    {
      assert invalid[..i + 1] == invalid[..i] + [invalid[i]];
      MutatesOne(actions', Action(Skipped, invalid[i]));
      actions' := actions' + [Action(Skipped, invalid[i])];
    }
    assert invalid[..|invalid|] == invalid;
  }

  /** Nothing that was reported is taken back. */
  ghost predicate KeepsActions(actions: seq<Action>, actions': seq<Action>) {
    forall a :: a in actions ==> a in actions'
  }

  method RollbackStep(st: Store, refs: set<Path>, ghost before: Files, ghost chosen: nat, ghost m: Manifest,
                      ghost regen: Regen)
    returns (actions: seq<Action>)
    requires st.files == before && WellFormed(before) && PlainIntents(before)
    requires IsChosen(before, chosen) && RefsOf(before, refs) && m == before[Snapshot(chosen)].manifest
    modifies st
    ensures Underway(before, chosen, refs, st.files, m, regen) && NoIntents(st.files)
    ensures PointerOf(st.files) == PointerOf(before)
    ensures |st.trace| >= |old(st.trace)| && st.trace[..|old(st.trace)|] == old(st.trace)
    ensures AllSound(st.trace, |old(st.trace)|, before, m, regen)
    ensures NoIntents(before) ==> st.files == before && !Mutates(actions)
    ensures st.files != before ==> Mutates(actions)
    ensures forall p :: p in st.files ==> p in before
  {
    actions := RollbackIntents(st, refs, []);
    RollbackPreserves(before, refs, st.files);
    if NoIntentListed(before) { assert RolledBackAll(before, refs, st.files); }
    forall i | |old(st.trace)| <= i < |st.trace|
      ensures Sound(before, st.trace[i], m, regen)
    {
      RollbackPreserves(before, refs, st.trace[i]);
    }
  }

  /** `Doctor::repair`. At every point of the repair every valid snapshot keeps its manifest, data and
      metadata files, and every metadata file that is new is the rebuilt one. Afterwards the manifest pointer names
      the highest valid snapshot, what can be rebuilt is rebuilt, and nothing is left to do; a repair of such a
      table changes nothing. */
  method RepairTable(st: Store, regen: Regen) returns (r: Outcome, ghost chosen: nat)
    requires WellFormed(st.files) && PlainIntents(st.files)
    modifies st
    ensures r.TableNotFound? <==> !TableExists(old(st.files))
    ensures r.TableNotFound? <==> var f := old(st.files);
              !(SCHEMA_JSON in f && f[SCHEMA_JSON].PointerTo? && SchemaFile(f[SCHEMA_JSON].latest) in f)
    ensures r.NoValidSnapshots? <==> TableExists(old(st.files)) && !AnyValid(old(st.files)) && !Empty(old(st.files))
    ensures r.TableNotFound? || r.NoValidSnapshots? ==> st.files == old(st.files) && st.trace == old(st.trace)
    ensures TableExists(old(st.files)) && AnyValid(old(st.files)) ==>
              && TableExists(st.files)
              && Repaired(old(st.files), st.files, st.trace, |old(st.trace)|, regen, chosen, r)
    ensures |st.trace| >= |old(st.trace)| && st.trace[..|old(st.trace)|] == old(st.trace)
    ensures r.Done? && !AnyValid(old(st.files)) ==> NoIntents(st.files) && NoOrphans(st.files, 0, {})
    ensures r.Done? && !r.repaired ==> st.files == old(st.files)
  {
    chosen := 0;
    if !TableExists(st.files) {
      return TableNotFound, chosen;
    }
    var snaps, invalid := ValidateSnapshots(st);
    if |snaps| == 0 {
      if MANIFEST_JSON !in st.files && |invalid| == 0 {
        r := RepairEmpty(st);
      } else {
        if |invalid| > 0 { assert invalid[0] in invalid; }
        r := NoValidSnapshots;
      }
      return;
    }
    assert exists s :: s in snaps;
    r, chosen := RepairValid(st, regen, snaps, invalid);
  }

  /** No pointer and no manifest. */
  ghost predicate Empty(files: Files) {
    MANIFEST_JSON !in files && forall s: nat :: Snapshot(s) !in files
  }

  method RepairEmpty(st: Store) returns (r: Outcome)
    modifies st
    ensures r.Done? && NoIntents(st.files) && NoOrphans(st.files, 0, {})
    ensures |st.trace| >= |old(st.trace)| && st.trace[..|old(st.trace)|] == old(st.trace)
    ensures !r.repaired ==> st.files == old(st.files)
  {
    var actions := RollbackIntents(st, {}, []);
    ghost var files := st.files;
    actions := DeleteOrphans(st, 0, {}, actions);
    assert NoIntents(st.files) by {
      assert forall p :: p in st.files ==> p in files;
    }
    r := Done(Mutates(actions), actions);
  }

  // ---- the doctor and the collector ----

  /** The two differ exactly on manifests from before checksums. */
  lemma {:induction false} CollectorIsStricter(files: Files, s: nat)
    ensures Gc.IsValid(files, s) <==> IsValid(files, s) && files[Snapshot(s)].manifest.checksumOk
  {
  }

  /** Some manifest in the window with a good checksum refers to the file. */
  ghost predicate CheckedRef(files: Files, cutoff: nat, p: Path) {
    exists s: nat :: s >= cutoff && IsValid(files, s) && files[Snapshot(s)].manifest.checksumOk
                  && p in Gc.Refs(files[Snapshot(s)].manifest)
  }

  /** A row group that the doctor protects, because a valid manifest in the collector's window refers to it,
      is swept if and only if no manifest with a good checksum in the window does. */
  lemma {:induction false} ProtectedIsSweptIff(files: Files, chosen: nat, cutoff: nat, s: nat, name: string)
    requires s >= cutoff && IsValid(files, s) && IsRowGroup(name)
    requires File(Root, name) in DataRefs(files[Snapshot(s)].manifest)
    ensures !Orphan(File(Root, name), chosen, Referenced(files, File(Root, name)))
    ensures Gc.Doomed(File(Root, name), cutoff, Gc.Referenced(files, cutoff, File(Root, name))) <==>
            !CheckedRef(files, cutoff, File(Root, name))
  {
    var p := File(Root, name);
    assert ".parquet"[7] == 't' && ".meta"[4] == 'a' && ".json.tmp"[8] == 'p';
    assert name[|name| - 1] != 'p';
    if CheckedRef(files, cutoff, p) {
      var q: nat :| q >= cutoff && IsValid(files, q) && files[Snapshot(q)].manifest.checksumOk
                 && p in Gc.Refs(files[Snapshot(q)].manifest);
      assert Gc.Retained(files, cutoff, q);
    }
    if Gc.Referenced(files, cutoff, p) {
      var q: nat :| Gc.Retained(files, cutoff, q) && p in Gc.Refs(files[Snapshot(q)].manifest);
      CollectorIsStricter(files, q);
    }
  }

  /** A table whose first manifest is from before checksums, and the row group only that one refers to. */
  function LegacyTable(): Files {
    var group := RowGroup(File(Root, "rg_a.parquet"), File(Root, "rg_a.meta"));
    var legacy := Manifest(1, 1, false, true, 1, [group], {}, None);
    var latest := Manifest(2, 1, true, false, 1, [], {}, None);
    map[Snapshot(1) := Doc(legacy), Snapshot(2) := Doc(latest), MANIFEST_JSON := PointerTo(2),
        File(Root, "rg_a.parquet") := Bytes("rows")]
  }

  /** The doctor keeps it. The collector deletes it even when it is told to keep every snapshot. */
  lemma {:induction false} LegacyRowsAreCollected()
    ensures var files, p := LegacyTable(), File(Root, "rg_a.parquet");
            && p in files && IsChosen(files, 2) && Gc.IsCurrent(files, 2) && Gc.Cutoff(2, 0) == 0
            && IsValid(files, 1) && p in DataRefs(files[Snapshot(1)].manifest)
            && !Orphan(p, 2, Referenced(files, p))
            && Gc.Doomed(p, 0, Gc.Referenced(files, 0, p))
  {
    var files, name := LegacyTable(), "rg_a.parquet";
    var p := File(Root, name);
    var m := files[Snapshot(1)].manifest;
    assert m.groups[0] in m.groups && m.groups[0].data == p;
    assert name[..3] == "rg_" && name[4..] == ".parquet";
    assert forall s: nat :: Snapshot(s) in files ==> s == 1 || s == 2;
    assert Gc.Refs(files[Snapshot(2)].manifest) == {};
    ProtectedIsSweptIff(files, 2, 0, 1, name);
  }
}
