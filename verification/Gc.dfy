// Garbage collection of one table (crates/icefalldb-core/src/gc.rs).
module Gc {
  import opened Collections
  import opened TableStore

  // ---- which snapshots are kept ----

  /** A manifest the collector trusts. Unlike the doctor, it does not accept manifests without a checksum. */
  predicate IsValid(files: Files, s: nat) {
    && Snapshot(s) in files && files[Snapshot(s)].Doc?
    && var m := files[Snapshot(s)].manifest;
       m.sequence == s && m.formatVersion == 1 && m.checksumOk
  }

  /** `manifest_referenced_files`. */
  function Refs(m: Manifest): set<Path> {
    (set g | g in m.groups :: g.data) + (set g | g in m.groups :: g.meta) + m.extra
  }

  ghost predicate AnyValid(files: Files) {
    exists s: nat :: IsValid(files, s)
  }

  /** The snapshot the retention window ends at: the one the manifest pointer names, else the highest. */
  ghost predicate IsCurrent(files: Files, current: nat) {
    && IsValid(files, current)
    && (PointsToValid(files) ==> PointerOf(files) == Some(current))
    && (!PointsToValid(files) ==> forall s: nat :: IsValid(files, s) ==> s <= current)
  }

  ghost predicate PointsToValid(files: Files) {
    PointerOf(files).Some? && IsValid(files, PointerOf(files).value)
  }

  /** The oldest sequence number kept; a window of 0 keeps everything. */
  function Cutoff(current: nat, retain: nat): nat {
    if retain == 0 || current < retain - 1 then 0 else current - (retain - 1)
  }

  /** The window: the last `retain` sequence numbers up to the current one, and whatever is above it; a window
      of 0 is everything. */
  predicate InWindow(current: nat, retain: nat, s: nat) { retain == 0 || s + retain > current }

  lemma {:induction false} CutoffIsWindow(current: nat, retain: nat, s: nat)
    ensures s >= Cutoff(current, retain) <==> InWindow(current, retain, s)
  {
  }

  ghost predicate Retained(files: Files, cutoff: nat, s: nat) {
    IsValid(files, s) && s >= cutoff
  }

  ghost predicate Referenced(files: Files, cutoff: nat, p: Path) {
    exists s: nat :: Retained(files, cutoff, s) && p in Refs(files[Snapshot(s)].manifest)
  }

  // ---- which files are swept ----

  predicate IsRowGroup(name: string) {
    StartsWith(name, "rg_") && (EndsWith(name, ".parquet") || EndsWith(name, ".meta") || EndsWith(name, ".agg"))
  }

  /** What the sweep of a file's directory deletes. Files directly below `_indexes` are never swept. */
  predicate Doomed(p: Path, cutoff: nat, referenced: bool) {
    match p
    case Snapshot(s) => s < cutoff
    case SchemaFile(_) => false
    case File(area, name) =>
      match area
      case Root => EndsWith(name, ".json.tmp") || (IsRowGroup(name) && !referenced)
      case Deletions => EndsWith(name, ".del") && !referenced
      case RowIndex => EndsWith(name, ".idx") && !referenced
      case Checkpoints =>
        (EndsWith(name, ".json") || EndsWith(name, ".rkyv") || EndsWith(name, ".tmp")) && !referenced
      case Indexes =>
        (EndsWith(name, ".json") || EndsWith(name, ".idx") || EndsWith(name, ".model") || EndsWith(name, ".tmp"))
        && !referenced
      case Incoming => EndsWith(name, ".part")
      case Compact => EndsWith(name, ".part")
      case Intents => EndsWith(name, ".json")
      case Manifests => EndsWith(name, ".json.tmp")
      case Elsewhere => false
  }

  lemma {:induction false} EndsWithIt(prefix: string, suffix: string)
    ensures EndsWith(prefix + suffix, suffix)
  {
  }

  lemma {:induction false} EndsOtherwise(name: string, suffix: string)
    requires name != [] && suffix != [] && name[|name| - 1] != suffix[|suffix| - 1]
    ensures !EndsWith(name, suffix)
  {
    assert |suffix| <= |name| ==> name[|name| - |suffix|..][|suffix| - 1] == name[|name| - 1];
  }

  /** The files of every kind, by their names: what goes when nothing in the window refers to it. */
  lemma {:induction false} SweptKinds(n: string, cutoff: nat)
    ensures Doomed(File(Root, "rg_" + n + ".parquet"), cutoff, false)
    ensures Doomed(File(Root, "rg_" + n + ".meta"), cutoff, false)
    ensures Doomed(File(Root, "rg_" + n + ".agg"), cutoff, false)
    ensures Doomed(File(Deletions, n + ".del"), cutoff, false)
    ensures Doomed(File(RowIndex, n + ".idx"), cutoff, false)
    ensures Doomed(File(Checkpoints, n + ".json"), cutoff, false)
    ensures Doomed(File(Checkpoints, n + ".rkyv"), cutoff, false)
    ensures Doomed(File(Indexes, n + ".json"), cutoff, false) && Doomed(File(Indexes, n + ".idx"), cutoff, false)
    ensures Doomed(File(Indexes, n + ".model"), cutoff, false)
  {
    assert ("rg_" + n + ".parquet")[..3] == "rg_";
    assert ("rg_" + n + ".meta")[..3] == "rg_";
    assert ("rg_" + n + ".agg")[..3] == "rg_";
    EndsWithIt("rg_" + n, ".parquet");
    EndsWithIt("rg_" + n, ".meta");
    EndsWithIt("rg_" + n, ".agg");
    EndsWithIt(n, ".del");
    EndsWithIt(n, ".idx");
    EndsWithIt(n, ".json");
    EndsWithIt(n, ".rkyv");
    EndsWithIt(n, ".model");
  }

  /** What goes whether or not anything refers to it, and what never goes. */
  lemma {:induction false} SweptAnyway(n: string, cutoff: nat, referenced: bool, s: nat)
    ensures Doomed(File(Root, n + ".json.tmp"), cutoff, referenced)
    ensures Doomed(File(Incoming, n + ".part"), cutoff, referenced)
    ensures Doomed(File(Compact, n + ".part"), cutoff, referenced)
    ensures Doomed(File(Intents, n + ".json"), cutoff, referenced)
    ensures Doomed(File(Manifests, n + ".json.tmp"), cutoff, referenced)
    ensures Doomed(Snapshot(s), cutoff, referenced) <==> s < cutoff
    ensures !Doomed(SchemaFile(s), cutoff, referenced) && !Doomed(MANIFEST_JSON, cutoff, referenced)
    ensures !Doomed(File(Elsewhere, n), cutoff, referenced)
  {
    EndsWithIt(n, ".json.tmp");
    EndsWithIt(n, ".part");
    EndsWithIt(n, ".json");
    PointerStays(cutoff, referenced);
  }

  /** A referenced row group, deletion vector, row index, checkpoint or index file stays. */
  lemma {:induction false} KeptKinds(n: string, cutoff: nat)
    ensures !Doomed(File(Root, n + ".parquet"), cutoff, true) && !Doomed(File(Root, n + ".meta"), cutoff, true)
    ensures !Doomed(File(Root, n + ".agg"), cutoff, true) && !Doomed(File(Deletions, n), cutoff, true)
    ensures !Doomed(File(RowIndex, n), cutoff, true) && !Doomed(File(Checkpoints, n), cutoff, true)
    ensures !Doomed(File(Indexes, n), cutoff, true)
  {
    EndsOtherwise(n + ".parquet", ".json.tmp");
    EndsOtherwise(n + ".meta", ".json.tmp");
    EndsOtherwise(n + ".agg", ".json.tmp");
  }

  /** Manifests refer to files that a sweep keeps when they are referenced. */
  ghost predicate PlainRefs(files: Files) {
    forall s: nat, p: Path :: IsValid(files, s) && p in Refs(files[Snapshot(s)].manifest) ==>
      p.File? && p != MANIFEST_JSON && !Doomed(p, 0, true)
  }

  // ---- safety of a state in the middle of a run ----

  /** The snapshot's manifest is as it was, and so is every file it refers to. */
  ghost predicate KeptWhole(before: Files, s: nat, t: Files)
    requires Snapshot(s) in before && before[Snapshot(s)].Doc?
  {
    var m := before[Snapshot(s)].manifest;
    && SameAt(Snapshot(s), before, t)
    && (forall g :: g in m.groups ==> SameAt(g.data, before, t) && SameAt(g.meta, before, t))
    && (forall p :: p in m.extra ==> SameAt(p, before, t))
  }

  /** Every valid snapshot in the window is whole. */
  ghost predicate SnapshotsSafe(before: Files, retain: nat, current: nat, t: Files) {
    forall s: nat :: IsValid(before, s) && InWindow(current, retain, s) ==> KeptWhole(before, s, t)
  }

  /** The pointer is untouched or names the current snapshot. */
  ghost predicate PointerSafe(before: Files, current: nat, t: Files) {
    PointerOf(t) == Some(current) || (SameAt(MANIFEST_JSON, before, t) && !PointsToValid(before))
  }

  ghost predicate Safe(before: Files, retain: nat, current: nat, t: Files) {
    SnapshotsSafe(before, retain, current, t) && PointerSafe(before, current, t)
  }

  /** The sweep's rule as a function of the path. */
  function Dooms(cutoff: nat, refs: set<Path>): Path -> bool {
    p => Doomed(p, cutoff, p in refs)
  }

  lemma {:induction false} PointerStays(cutoff: nat, referenced: bool)
    ensures !Doomed(MANIFEST_JSON, cutoff, referenced)
    ensures Doomed(MANIFEST_TMP, cutoff, referenced)
  {
    assert MANIFEST_JSON.name[|MANIFEST_JSON.name| - 1] == 'n';
    assert ".json.tmp"[8] == 'p';
    assert MANIFEST_JSON.name[..3][0] == '_';
    assert MANIFEST_TMP.name[14 - 5..] == ".json.tmp";
  }

  // ---- the steps of a run ----

  ghost predicate IsLoaded(files: Files, snaps: map<nat, Manifest>) {
    && (forall s: nat :: s in snaps <==> IsValid(files, s))
    && (forall s: nat :: IsValid(files, s) ==> s in snaps && snaps[s] == files[Snapshot(s)].manifest)
  }

  method LoadValid(st: Store) returns (snaps: map<nat, Manifest>)
    ensures IsLoaded(st.files, snaps)
  {
    snaps := map[];
    var todo := st.ListArea(Manifests);
    while todo != {}
      invariant forall p :: p in todo ==> p in st.files
      invariant forall s: nat :: s in snaps <==> IsValid(st.files, s) && Snapshot(s) !in todo
      invariant forall s: nat :: s in snaps ==> snaps[s] == st.files[Snapshot(s)].manifest
      decreases todo
    {
      var p :| p in todo;
      if p.Snapshot? && st.files[p].Doc? {
        var m := st.files[p].manifest;
        if m.sequence == p.number && m.formatVersion == 1 && m.checksumOk {
          snaps := snaps[p.number := m];
        }
      }
      todo := todo - {p};
    }
  }

  /** The pointed-to snapshot, or the highest after repairing the pointer. */
  method ResolveCurrent(st: Store, snaps: map<nat, Manifest>, ghost retain: nat) returns (current: nat)
    requires IsLoaded(st.files, snaps) && snaps != map[] && PlainRefs(st.files)
    modifies st
    ensures IsCurrent(old(st.files), current) && Pointed(old(st.files), current, st.files)
    ensures |st.trace| >= |old(st.trace)| && st.trace[..|old(st.trace)|] == old(st.trace)
    ensures AllSafe(st.trace, |old(st.trace)|, old(st.files), retain, current)
  {
    var pointer := PointerOf(st.files);
    if pointer.Some? && pointer.value in snaps {
      return pointer.value;
    }
    var s :| s in snaps;
    current := HighestOf(snaps.Keys);
    st.WritePointer(current);
    PointingIsSafe(old(st.files), retain, current, st.trace, |old(st.trace)|);
  }

  method CollectRefs(snaps: map<nat, Manifest>, retained: set<nat>) returns (refs: set<Path>)
    requires retained <= snaps.Keys
    ensures forall p :: p in refs <==> exists s: nat :: s in retained && p in Refs(snaps[s])
  {
    refs := {};
    var todo := retained;
    while todo != {}
      invariant todo <= retained
      invariant forall p :: p in refs <==> exists s: nat :: s in retained && s !in todo && p in Refs(snaps[s])
      decreases todo
    {
      var s :| s in todo;
      refs := refs + Refs(snaps[s]);
      todo := todo - {s};
    }
  }

  const SWEEPS: seq<Area> :=
    [Root, Deletions, RowIndex, Checkpoints, Indexes, Incoming, Compact, Intents, Manifests]

  /** Only files of the swept directories are doomed. */
  lemma {:induction false} DoomedAreSwept(p: Path, cutoff: nat, referenced: bool)
    ensures Doomed(p, cutoff, referenced) ==> AreaOf(p) in SWEEPS
  {
  }

  // ---- from the steps to the promise ----

  /** The state the sweep starts from: the given one with its pointer in order. */
  ghost predicate Pointed(before: Files, current: nat, start: Files) {
    start == if PointsToValid(before) then before else Repointed(before, current)
  }

  ghost predicate RefsOf(before: Files, cutoff: nat, refs: set<Path>) {
    forall p :: p in refs <==> Referenced(before, cutoff, p)
  }

  /** A referenced file is not doomed. */
  lemma {:induction false} ReferencedStays(before: Files, cutoff: nat, s: nat, p: Path, refs: set<Path>)
    requires PlainRefs(before) && RefsOf(before, cutoff, refs)
    requires Retained(before, cutoff, s) && p in Refs(before[Snapshot(s)].manifest)
    ensures p.File? && p != MANIFEST_JSON && p != MANIFEST_TMP && !Doomed(p, cutoff, p in refs)
  {
    assert Referenced(before, cutoff, p) && p in refs;
    assert !Doomed(p, 0, true) && !Doomed(p, cutoff, true);
    PointerStays(0, true);
  }

  lemma {:induction false} Kept(start: Files, cutoff: nat, refs: set<Path>, t: Files, p: Path)
    requires Between(start, Dooms(cutoff, refs), t) && !Doomed(p, cutoff, p in refs)
    ensures SameAt(p, start, t)
  {
    assert Dooms(cutoff, refs)(p) == Doomed(p, cutoff, p in refs);
  }

  /** A half-swept state is safe. */
  lemma {:induction false} BetweenIsSafe(before: Files, retain: nat, current: nat, start: Files, refs: set<Path>,
                                         t: Files)
    requires IsCurrent(before, current) && Pointed(before, current, start) && PlainRefs(before)
    requires RefsOf(before, Cutoff(current, retain), refs)
    requires Between(start, Dooms(Cutoff(current, retain), refs), t)
    ensures Safe(before, retain, current, t) && PointerOf(t) == Some(current)
  {
    var cutoff := Cutoff(current, retain);
    assert PointerOf(t) == Some(current) by {
      PointerStays(cutoff, MANIFEST_JSON in refs);
      Kept(start, cutoff, refs, t, MANIFEST_JSON);
    }
    forall s: nat | IsValid(before, s) && InWindow(current, retain, s)
      ensures KeptWhole(before, s, t)
    {
      CutoffIsWindow(current, retain, s);
      Kept(start, cutoff, refs, t, Snapshot(s));
      forall p: Path | p in Refs(before[Snapshot(s)].manifest)
        ensures SameAt(p, before, t)
      {
        ReferencedStays(before, cutoff, s, p, refs);
        Kept(start, cutoff, refs, t, p);
      }
      RefsAreKept(before, s, t);
    }
  }

  lemma {:induction false} RefsAreKept(before: Files, s: nat, t: Files)
    requires IsValid(before, s) && SameAt(Snapshot(s), before, t)
    requires forall p: Path :: p in Refs(before[Snapshot(s)].manifest) ==> SameAt(p, before, t)
    ensures KeptWhole(before, s, t)
  {
    var m := before[Snapshot(s)].manifest;
    forall g | g in m.groups
      ensures g.data in Refs(m) && g.meta in Refs(m)
    {
    }
  }

  /** So is the state with the temporary pointer file. */
  lemma {:induction false} TemporaryIsSafe(before: Files, retain: nat, current: nat)
    requires IsCurrent(before, current) && !PointsToValid(before) && PlainRefs(before)
    ensures Safe(before, retain, current, before[MANIFEST_TMP := PointerTo(current)])
  {
    PointerStays(0, true);
    OthersAreKept(before, before[MANIFEST_TMP := PointerTo(current)]);
  }

  /** Only the pointer and its temporary file are written. */
  lemma {:induction false} OthersAreKept(before: Files, t: Files)
    requires PlainRefs(before) && forall p: Path :: p != MANIFEST_JSON && p != MANIFEST_TMP ==> SameAt(p, before, t)
    ensures forall s: nat :: IsValid(before, s) ==> KeptWhole(before, s, t)
  {
    PointerStays(0, true);
    forall s: nat | IsValid(before, s)
      ensures KeptWhole(before, s, t)
    {
      RefsAreKept(before, s, t);
    }
  }

  lemma {:induction false} RepointedIsSafe(before: Files, retain: nat, current: nat)
    requires IsCurrent(before, current) && !PointsToValid(before) && PlainRefs(before)
    ensures Safe(before, retain, current, Repointed(before, current))
  {
    PointerStays(0, true);
    OthersAreKept(before, Repointed(before, current));
  }

  /** Nothing left to collect. */
  ghost predicate Clean(files: Files, retain: nat) {
    PointsToValid(files) &&
    var cutoff := Cutoff(PointerOf(files).value, retain);
    forall p :: p in files ==> !Doomed(p, cutoff, Referenced(files, cutoff, p))
  }

  /** What the sweep leaves. */
  ghost predicate Leaves(start: Files, cutoff: nat, refs: set<Path>, after: Files) {
    && (forall p :: p in after <==> p in start && !Doomed(p, cutoff, p in refs))
    && (forall p :: p in after ==> after[p] == start[p])
  }

  lemma {:induction false} SweptLeaves(start: Files, cutoff: nat, refs: set<Path>, after: Files)
    requires IsSwept(start, SWEEPS, Dooms(cutoff, refs), after)
    ensures Leaves(start, cutoff, refs, after)
  {
    forall p
      ensures p in after <==> p in start && !Doomed(p, cutoff, p in refs)
    {
      DoomedAreSwept(p, cutoff, p in refs);
      assert Dooms(cutoff, refs)(p) == Doomed(p, cutoff, p in refs);
    }
  }

  /** Sweeping keeps exactly the retained snapshots. */
  lemma {:induction false} SweptSnapshots(before: Files, cutoff: nat, current: nat, start: Files, refs: set<Path>,
                                          after: Files)
    requires Pointed(before, current, start) && Leaves(start, cutoff, refs, after)
    ensures forall s: nat :: IsValid(after, s) <==> Retained(before, cutoff, s)
    ensures forall s: nat :: IsValid(after, s) ==> after[Snapshot(s)] == before[Snapshot(s)]
  {
    forall s: nat
      ensures Snapshot(s) in after <==> Snapshot(s) in before && s >= cutoff
      ensures Snapshot(s) in after ==> after[Snapshot(s)] == before[Snapshot(s)]
    {
      assert Doomed(Snapshot(s), cutoff, Snapshot(s) in refs) <==> s < cutoff;
    }
  }

  /** The swept state is clean. */
  lemma {:induction false} SweptIsClean(before: Files, retain: nat, current: nat, start: Files, refs: set<Path>,
                                        after: Files)
    requires IsCurrent(before, current) && Pointed(before, current, start)
    requires RefsOf(before, Cutoff(current, retain), refs) && Leaves(start, Cutoff(current, retain), refs, after)
    ensures Clean(after, retain) && PointerOf(after) == Some(current)
    ensures forall s: nat :: IsValid(after, s) <==> Retained(before, Cutoff(current, retain), s)
  {
    var cutoff := Cutoff(current, retain);
    SweptSnapshots(before, cutoff, current, start, refs, after);
    assert PointerOf(after) == Some(current) by {
      PointerStays(cutoff, MANIFEST_JSON in refs);
    }
    forall p | p in after
      ensures !Doomed(p, cutoff, Referenced(after, cutoff, p))
    {
      if p in refs {
        var s: nat :| Retained(before, cutoff, s) && p in Refs(before[Snapshot(s)].manifest);
        assert Retained(after, cutoff, s) && p in Refs(after[Snapshot(s)].manifest);
      }
    }
  }

  datatype Outcome = TableNotFound | Done(deleted: seq<Path>, retained: set<nat>)

  /** What a run with at least one valid snapshot does. */
  ghost predicate Collected(before: Files, retain: nat, current: nat, r: Outcome, after: Files) {
    var cutoff := Cutoff(current, retain);
    && IsCurrent(before, current) && r.Done?
    && (forall s: nat :: s in r.retained <==> IsValid(before, s) && InWindow(current, retain, s))
    && (forall s: nat :: IsValid(after, s) <==> s in r.retained)
    && PointerOf(after) == Some(current) && current in r.retained
    && (forall p :: p in r.deleted ==> Doomed(p, cutoff, Referenced(before, cutoff, p)))
    && (forall p :: p in r.deleted <==>
          p in before && p !in after && (p == MANIFEST_TMP ==> PointsToValid(before)))
    && Clean(after, retain)
  }

  /** `GarbageCollector::run`: at every point of the run every retained snapshot is complete and the
      pointer is untouched or right; afterwards nothing is left to collect, and a run on such a
      table changes nothing. */
  method Run(st: Store, retain: nat) returns (r: Outcome, ghost current: nat)
    requires PlainRefs(st.files)
    modifies st
    ensures r.TableNotFound? <==> !TableExists(old(st.files))
    ensures r.TableNotFound? <==> var f := old(st.files);
              !(SCHEMA_JSON in f && f[SCHEMA_JSON].PointerTo? && SchemaFile(f[SCHEMA_JSON].latest) in f)
    ensures !TableExists(old(st.files)) || !AnyValid(old(st.files)) ==>
              st.files == old(st.files) && st.trace == old(st.trace)
    ensures TableExists(old(st.files)) && AnyValid(old(st.files)) ==>
              Collected(old(st.files), retain, current, r, st.files)
    ensures |st.trace| >= |old(st.trace)| && st.trace[..|old(st.trace)|] == old(st.trace)
    ensures AllSafe(st.trace, |old(st.trace)|, old(st.files), retain, current)
    ensures r.Done? && Clean(old(st.files), retain) ==> r.deleted == [] && st.files == old(st.files)
  {
    current := 0;
    if !TableExists(st.files) {
      return TableNotFound, current;
    }
    var snaps := LoadValid(st);
    if |snaps| == 0 {
      return Done([], {}), current;
    }
    ghost var before, first := st.files, |st.trace|;
    assert exists s :: s in snaps;
    r, current := Collect(st, retain, snaps);
    CleanStays(before, retain, current, r, st.files);
  }

  /** On a clean table there was nothing to delete. */
  lemma {:induction false} CleanStays(before: Files, retain: nat, current: nat, r: Outcome, after: Files)
    requires Collected(before, retain, current, r, after)
    requires PointsToValid(before) ==> forall p :: p in after ==> p in before && after[p] == before[p]
    ensures Clean(before, retain) ==> r.deleted == [] && after == before
  {
    if Clean(before, retain) {
      SomeMember(r.deleted);
      forall p | p in before
        ensures p in after
      {
        assert p !in r.deleted;
      }
    }
  }

  method Collect(st: Store, retain: nat, snaps: map<nat, Manifest>) returns (r: Outcome, ghost current: nat)
    requires PlainRefs(st.files) && |snaps| > 0
    requires IsLoaded(st.files, snaps)
    modifies st
    ensures Collected(old(st.files), retain, current, r, st.files)
    ensures PointsToValid(old(st.files)) ==>
              forall p :: p in st.files ==> p in old(st.files) && st.files[p] == old(st.files)[p]
    ensures |st.trace| >= |old(st.trace)| && st.trace[..|old(st.trace)|] == old(st.trace)
    ensures AllSafe(st.trace, |old(st.trace)|, old(st.files), retain, current)
  {
    ghost var before := st.files;
    assert exists s :: s in snaps;
    var c := ResolveCurrent(st, snaps, retain);
    current := c;
    ghost var start := st.files;
    ghost var sweepFrom := |st.trace|;
    var cutoff := Cutoff(c, retain);
    var retained := set s | s in snaps && s >= cutoff;
    var refs := CollectRefs(snaps, retained);
    assert RefsOf(before, cutoff, refs) by {
      RefsMatch(before, snaps, cutoff, retained, refs);
    }
    var deleted := SweepAreas(st, SWEEPS, Dooms(cutoff, refs));
    r := Done(deleted, retained);
    CollectedAll(before, retain, c, start, refs, st.files, r);
    TraceIsSafe(before, retain, c, start, refs, st.trace, |old(st.trace)|, sweepFrom);
  }

  /** Every state from `first` on was safe. */
  ghost predicate AllSafe(trace: seq<Files>, first: nat, before: Files, retain: nat, current: nat) {
    forall i :: first <= i < |trace| ==> Safe(before, retain, current, trace[i])
  }

  /** A safe trace followed by a sweep is safe. */
  lemma {:induction false} TraceIsSafe(before: Files, retain: nat, current: nat, start: Files, refs: set<Path>,
                                       trace: seq<Files>, first: nat, second: nat)
    requires IsCurrent(before, current) && Pointed(before, current, start) && PlainRefs(before)
    requires RefsOf(before, Cutoff(current, retain), refs)
    requires first <= second <= |trace| && AllSafe(trace[..second], first, before, retain, current)
    requires AllBetween(trace, second, start, Dooms(Cutoff(current, retain), refs))
    ensures AllSafe(trace, first, before, retain, current)
  {
    SweepIsSafe(before, retain, current, start, refs, trace, second);
    JoinSafe(trace, first, second, before, retain, current);
  }

  lemma {:induction false} SweepIsSafe(before: Files, retain: nat, current: nat, start: Files, refs: set<Path>,
                                       trace: seq<Files>, first: nat)
    requires IsCurrent(before, current) && Pointed(before, current, start) && PlainRefs(before)
    requires RefsOf(before, Cutoff(current, retain), refs)
    requires AllBetween(trace, first, start, Dooms(Cutoff(current, retain), refs))
    ensures AllSafe(trace, first, before, retain, current)
  {
    forall i | first <= i < |trace|
      ensures Safe(before, retain, current, trace[i])
    {
      BetweenIsSafe(before, retain, current, start, refs, trace[i]);
    }
  }

  /** Repairing the pointer is safe. */
  lemma {:induction false} PointingIsSafe(before: Files, retain: nat, current: nat, trace: seq<Files>, first: nat)
    requires IsCurrent(before, current) && PlainRefs(before) && !PointsToValid(before)
    requires |trace| == first + 2
    requires trace[first] == before[MANIFEST_TMP := PointerTo(current)]
    requires trace[first + 1] == Repointed(before, current)
    ensures AllSafe(trace, first, before, retain, current)
  {
    TemporaryIsSafe(before, retain, current);
    RepointedIsSafe(before, retain, current);
  }

  lemma {:induction false} JoinSafe(trace: seq<Files>, first: nat, second: nat, before: Files, retain: nat,
                                    current: nat)
    requires first <= second <= |trace|
    requires AllSafe(trace[..second], first, before, retain, current) && AllSafe(trace, second, before, retain, current)
    ensures AllSafe(trace, first, before, retain, current)
  {
    forall i | first <= i < |trace|
      ensures Safe(before, retain, current, trace[i])
    {
      if i < second { assert trace[i] == trace[..second][i]; }
    }
  }

  lemma {:induction false} CollectedAll(before: Files, retain: nat, current: nat, start: Files, refs: set<Path>,
                                        after: Files, r: Outcome)
    requires IsCurrent(before, current) && Pointed(before, current, start)
    requires RefsOf(before, Cutoff(current, retain), refs)
    requires IsSwept(start, SWEEPS, Dooms(Cutoff(current, retain), refs), after)
    requires r.Done? && forall s: nat :: s in r.retained <==> Retained(before, Cutoff(current, retain), s)
    requires forall p :: p in r.deleted <==> p in start && p !in after
    ensures Collected(before, retain, current, r, after)
    ensures PointsToValid(before) ==> forall p :: p in after ==> p in before && after[p] == before[p]
  {
    var cutoff := Cutoff(current, retain);
    forall s: nat
      ensures s >= cutoff <==> InWindow(current, retain, s)
    {
      CutoffIsWindow(current, retain, s);
    }
    SweptLeaves(start, cutoff, refs, after);
    SweptIsClean(before, retain, current, start, refs, after);
    PointerStays(cutoff, MANIFEST_JSON in refs);
    PointerStays(cutoff, MANIFEST_TMP in refs);
    forall p
      ensures p in r.deleted <==> p in before && p !in after && (p == MANIFEST_TMP ==> PointsToValid(before))
    {
      assert p in start <==> p == MANIFEST_JSON || (p in before && (p == MANIFEST_TMP ==> PointsToValid(before))) by {
        if PointsToValid(before) { assert MANIFEST_JSON in before; }
      }
    }
  }

  lemma {:induction false} RefsMatch(before: Files, snaps: map<nat, Manifest>, cutoff: nat, retained: set<nat>,
                                     refs: set<Path>)
    requires IsLoaded(before, snaps)
    requires forall s: nat :: s in retained <==> s in snaps && s >= cutoff
    requires forall p :: p in refs <==> exists s: nat :: s in retained && p in Refs(snaps[s])
    ensures RefsOf(before, cutoff, refs)
  {
    forall p
      ensures p in refs <==> Referenced(before, cutoff, p)
    {
      if Referenced(before, cutoff, p) {
        var s: nat :| Retained(before, cutoff, s) && p in Refs(before[Snapshot(s)].manifest);
        assert s in retained && p in Refs(snaps[s]);
      }
      if p in refs {
        var s: nat :| s in retained && p in Refs(snaps[s]);
        assert Retained(before, cutoff, s);
      }
    }
  }
}
