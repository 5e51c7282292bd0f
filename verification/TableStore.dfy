// The files of one table and a store that changes them one file at a time
// (`Storage` as used by crates/icefalldb-core/src/gc.rs and crates/icefalldb-core/src/doctor.rs).
module TableStore {
  import opened Collections

  /** The directories below a table that maintenance looks at. */
  datatype Area =
    | Root | Deletions | RowIndex | Checkpoints | Indexes | Incoming | Compact | Intents | Manifests | Elsewhere

  /** Manifest and schema files are named by number; all others by directory and file name. */
  datatype Path = Snapshot(number: nat) | SchemaFile(id: nat) | File(area: Area, name: string)

  datatype RowGroup = RowGroup(data: Path, meta: Path)

  /** `extra` are the other files a manifest refers to: deletion vectors, aggregate sidecars, index and
      row-index files, checkpoints. `legacy` means neither checksum nor timestamp. */
  datatype Manifest = Manifest(sequence: nat, formatVersion: nat, checksumOk: bool, legacy: bool,
                               schemaId: nat, groups: seq<RowGroup>, extra: set<Path>, checkpoint: Option<Path>)

  datatype Content =
    | Doc(manifest: Manifest)
    | PointerTo(latest: nat)
    | Intent(files: seq<Path>)
    | Schema(text: string)
    | Bytes(text: string)

  type Files = map<Path, Content>

  const MANIFEST_JSON: Path := File(Root, "_manifest.json")
  const MANIFEST_TMP: Path := File(Root, "_manifest.json.tmp")
  const SCHEMA_JSON: Path := File(Root, "_schema.json")

  predicate StartsWith(s: string, prefix: string) { |prefix| <= |s| && s[..|prefix|] == prefix }

  predicate EndsWith(s: string, suffix: string) { |suffix| <= |s| && s[|s| - |suffix|..] == suffix }

  /** The sequence `_manifest.json` names, if it exists and is well-formed. */
  function PointerOf(files: Files): Option<nat> {
    if MANIFEST_JSON in files && files[MANIFEST_JSON].PointerTo? then Some(files[MANIFEST_JSON].latest) else None
  }

  /** `require_table_exists`. */
  predicate TableExists(files: Files) {
    && SCHEMA_JSON in files && files[SCHEMA_JSON].PointerTo?
    && SchemaFile(files[SCHEMA_JSON].latest) in files
  }

  function AreaOf(p: Path): Area {
    match p
    case Snapshot(_) => Manifests
    case SchemaFile(_) => Elsewhere
    case File(area, _) => area
  }

  ghost predicate IsHighest(seqs: set<nat>, m: nat) {
    m in seqs && forall s: nat :: s in seqs ==> s <= m
  }

  method HighestOf(seqs: set<nat>) returns (m: nat)
    requires seqs != {}
    ensures IsHighest(seqs, m)
  {
    m :| m in seqs;
    var todo := seqs - {m};
    while todo != {}
      invariant m in seqs && todo <= seqs
      invariant forall s: nat :: s in seqs && s !in todo ==> s <= m
      decreases todo
    {
      var s :| s in todo;
      if s > m { m := s; }
      todo := todo - {s};
    }
  }

  /** `a` and `b` agree on path `p`. */
  predicate SameAt(p: Path, a: Files, b: Files) {
    (p in a <==> p in b) && (p in a ==> a[p] == b[p])
  }

  /** Storage, with a record of every state it went through. */
  class Store {
    var files: Files
    ghost var trace: seq<Files>

    constructor (files: Files)
      ensures this.files == files && trace == [files]
    {
      this.files := files;
      trace := [files];
    }

    method ListArea(area: Area) returns (entries: set<Path>)
      ensures forall p :: p in entries <==> p in files && AreaOf(p) == area
    {
      entries := set p | p in files && AreaOf(p) == area;
    }

    method Delete(p: Path)
      modifies this
      ensures files == old(files) - {p} && trace == old(trace) + [files]
    {
      files := files - {p};
      trace := trace + [files];
    }

    method Write(p: Path, content: Content)
      modifies this
      ensures files == old(files)[p := content] && trace == old(trace) + [files]
    {
      files := files[p := content];
      trace := trace + [files];
    }

    method Rename(source: Path, target: Path)
      requires source in files && source != target
      modifies this
      ensures files == (old(files) - {source})[target := old(files)[source]] && trace == old(trace) + [files]
    {
      files := (files - {source})[target := files[source]];
      trace := trace + [files];
    }

    /** Atomically make `_manifest.json` point to the given snapshot: write a temporary file, then rename it. */
    method WritePointer(number: nat)
      modifies this
      ensures files == Repointed(old(files), number)
      ensures trace == old(trace) + [old(files)[MANIFEST_TMP := PointerTo(number)], files]
    {
      Write(MANIFEST_TMP, PointerTo(number));
      Rename(MANIFEST_TMP, MANIFEST_JSON);
      assert files == Repointed(old(files), number);
    }
  }

  function Repointed(files: Files, number: nat): Files {
    (files - {MANIFEST_TMP})[MANIFEST_JSON := PointerTo(number)]
  }

  // ---- sweeping directories ----

  /** `t` lacks only doomed files. */
  ghost predicate Between(start: Files, doomed: Path -> bool, t: Files) {
    forall p: Path ::
      && (p in t ==> p in start && t[p] == start[p])
      && (p in start && !doomed(p) ==> p in t)
  }

  /** The states from `first` on were all between. */
  ghost predicate AllBetween(trace: seq<Files>, first: nat, start: Files, doomed: Path -> bool) {
    forall i :: first <= i < |trace| ==> Between(start, doomed, trace[i])
  }

  /** Exactly the doomed files of the listed directories are gone. */
  ghost predicate IsSwept(start: Files, areas: seq<Area>, doomed: Path -> bool, after: Files) {
    && (forall p :: p in after <==> p in start && !(AreaOf(p) in areas && doomed(p)))
    && (forall p :: p in after ==> after[p] == start[p])
  }

  /** Delete the doomed files of one directory, one by one. */
  method Sweep(st: Store, area: Area, doomed: Path -> bool, soFar: seq<Path>, ghost start: Files)
    returns (deleted: seq<Path>)
    requires Between(start, doomed, st.files)
    modifies st
    ensures IsSwept(old(st.files), [area], doomed, st.files) && Between(start, doomed, st.files)
    ensures forall p :: p in deleted <==> p in soFar || (p in old(st.files) && p !in st.files)
    ensures |st.trace| >= |old(st.trace)| && st.trace[..|old(st.trace)|] == old(st.trace)
    ensures AllBetween(st.trace, |old(st.trace)|, start, doomed)
  {
    deleted := soFar;
    var todo := st.ListArea(area);
    while todo != {}
      invariant forall p :: p in todo ==> p in st.files && AreaOf(p) == area
      invariant Between(start, doomed, st.files)
      invariant forall p :: p in st.files ==> p in old(st.files) && st.files[p] == old(st.files)[p]
      invariant forall p :: p in old(st.files) ==>
        (p in st.files <==> p in todo || !(AreaOf(p) == area && doomed(p)))
      invariant forall p :: p in deleted <==> p in soFar || (p in old(st.files) && p !in st.files)
      invariant |st.trace| >= |old(st.trace)| && st.trace[..|old(st.trace)|] == old(st.trace)
      invariant AllBetween(st.trace, |old(st.trace)|, start, doomed)
      decreases todo
    {
      var p :| p in todo;
      if doomed(p) {
        st.Delete(p);
        deleted := deleted + [p];
      }
      todo := todo - {p};
    }
  }

  /** Sweep the directories in order. */
  method SweepAreas(st: Store, areas: seq<Area>, doomed: Path -> bool) returns (deleted: seq<Path>)
    modifies st
    ensures IsSwept(old(st.files), areas, doomed, st.files)
    ensures forall p :: p in deleted <==> p in old(st.files) && p !in st.files
    ensures |st.trace| >= |old(st.trace)| && st.trace[..|old(st.trace)|] == old(st.trace)
    ensures AllBetween(st.trace, |old(st.trace)|, old(st.files), doomed)
  {
    ghost var start := st.files;
    deleted := [];
    for i := 0 to |areas|
      invariant IsSwept(start, areas[..i], doomed, st.files)
      invariant forall p :: p in deleted <==> p in start && p !in st.files
      invariant |st.trace| >= |old(st.trace)| && st.trace[..|old(st.trace)|] == old(st.trace)
      invariant AllBetween(st.trace, |old(st.trace)|, start, doomed)
    {
      assert areas[..i + 1] == areas[..i] + [areas[i]];
      deleted := Sweep(st, areas[i], doomed, deleted, start);
    }
    assert areas[..|areas|] == areas;
  }
}
