// The optimistic pin / rewrite / revalidate / commit protocol of compaction, interleaved with writers,
// other compactors, and calls and writers that fail or die
// (`compact_with_hook` and `compact_attempt` in crates/icefalldb-core/src/compaction.rs; the commits and
// `cleanup_staging` in crates/icefalldb-core/src/writer.rs). Here: the steps, what publications are built
// from, and how names stay apart.
module CommitProtocol {
  import opened Collections

  const MAX_COMMIT_ATTEMPTS: nat := 3

  /** What may happen in a run: how many compaction calls there are at a time; whether the commit of a call
      may fail after it has chosen its sequence; whether a call may die, or end without dropping its intent;
      whether a writer may give up or die before it has moved the pointer; and whether it may do so
      afterwards, leaving its intent. */
  datatype Config = Config(
    compactors: nat,
    commitFails: bool,
    callsDie: bool,
    writersGiveUp: bool,
    writersLeave: bool)

  /** What a table holds: its live rows by row id. */
  type Rows = map<nat, string>

  /** The files of a row group carry a fresh id, and its deletion vectors that id and a version; the others
      carry the sequence number of the manifest they were written for. */
  datatype File =
    | Data(id: nat)
    | Meta(id: nat)
    | Agg(id: nat)
    | Deletion(id: nat, version: nat)
    | RowIndexBase(seqno: nat)
    | RowIndexDelta(seqno: nat)
    | IndexFile(index: nat, seqno: nat)
    | Checkpoint(seqno: nat)

  predicate IsCore(f: File) { f.Data? || f.Meta? || f.Agg? }

  predicate IsNumbered(f: File) { f.RowIndexBase? || f.RowIndexDelta? || f.IndexFile? || f.Checkpoint? }

  function Core(fs: set<File>): set<File> { set f | f in fs && IsCore(f) }

  function Indexes(fs: set<File>): set<File> { set f | f in fs && f.IndexFile? }

  function ChunkFiles(id: nat): set<File> { {Data(id), Meta(id), Agg(id)} }

  function Extras(seqno: nat): set<File> { {RowIndexBase(seqno), Checkpoint(seqno)} }

  ghost predicate HasData(fs: set<File>) { exists f :: f in fs && f.Data? }

  /** Who published a manifest; a compaction remembers what it pinned and what it scanned. */
  datatype Origin = ByWriter | ByCompaction(pinned: nat, scanned: nat)

  datatype Manifest = Manifest(rows: Rows, files: set<File>, origin: Origin)

  datatype Outcome = Committed(seqno: nat) | NothingToDo | Empty | GaveUp | Failed | Crashed

  /** What the reader returned: of which snapshot, its live rows, whether any physical row was read, and into
      how many row groups the rows go. */
  datatype Scan = Scan(seqno: nat, rows: Rows, anyRead: bool, groups: nat)

  /** An output row group being staged: journaled (0), written to staging (1), then data (2) and
      metadata (3) renamed into place; the aggregate sidecar comes last. */
  datatype Chunk = Chunk(id: nat, done: nat)

  /** Where one compaction call stands. `indexes` are the index files of the pinned manifest, which are
      carried over. A rollback deletes the staged files first; it carries the sequence number of the
      manifest it will delete then, or 0. */
  datatype Phase =
    | Idle(attempt: nat)
    | Cleaning(attempt: nat, indexes: set<File>)
    | Pinned(attempt: nat, pinned: nat, indexes: set<File>)
    | Rewriting(attempt: nat, pinned: nat, indexes: set<File>, scan: Scan, txn: nat, todo: nat,
                staged: set<File>, chunk: Option<Chunk>)
    | RollingBack(attempt: nat, txn: nat, staged: set<File>, seqno: nat, conflict: bool)
    | Deleting(attempt: nat, txn: nat, seqno: nat, conflict: bool)
    | Published(seqno: nat, txn: nat)
    | Finished(outcome: Outcome)

  /** Where the writer that holds the lock stands: the intents are cleaned; it has decided which files of
      the current manifest it keeps and which it adds, and has listed some of these in its intent; or it has
      moved the pointer. */
  datatype WriterPhase =
    | Cleaned
    | Staging(txn: nat, kept: set<File>, names: set<File>, listed: set<File>)
    | Moved(txn: nat)

  datatype Lock = Free | HeldByCall(c: nat) | HeldByWriter(w: WriterPhase)

  /** The table directory and the running compaction calls. Ids of row groups and transactions are drawn
      from a counter, which stands for UUIDs. `manifests` are the manifest files on disk, `parts` the
      files in the staging directory; intents list the files of a transaction. */
  datatype State = State(
    pointer: nat,
    manifests: map<nat, Manifest>,
    files: set<File>,
    parts: set<File>,
    intents: map<nat, set<File>>,
    lock: Lock,
    procs: map<nat, Phase>,
    nextName: nat)

  function Intended(s: State): set<File> {
    set t, f | t in s.intents && f in s.intents[t] :: f
  }

  function CurrentFiles(s: State): set<File> {
    if s.pointer in s.manifests then s.manifests[s.pointer].files else {}
  }

  /** The first part of `cleanup_staging`, under the lock: every intent is taken for stale, and the files
      it lists go unless they are spared. */
  function CleanIntents(s: State, spared: set<File>): State {
    s.(files := s.files - (Intended(s) - spared), intents := map[])
  }

  /** The second part: staged files and manifests above the pointer go. */
  function CleanRest(s: State): State {
    s.(parts := {}, manifests := map q | q in s.manifests && q <= s.pointer :: s.manifests[q])
  }

  function SetPhase(s: State, c: nat, p: Phase): State {
    s.(procs := s.procs[c := p])
  }

  // ---- the steps ----

  datatype CallStep =
    | PinStart(at: nat)
    | PinNothing
    | PinFinish
    | PinFault
    | OpenScan(todo: nat, anyRead: bool)
    | SkipScan
    | Journal
    | WriteParts
    | RenameNext
    | StageFault
    | StopEmpty
    | Commit
    | CommitFault(written: set<File>)
    | CommitCrash(orphan: bool)
    | RollbackFiles
    | RollbackManifest
    | DropIntent
    | Crash
    | Restart

  datatype WriterStep =
    | TakeLock
    | Plan(kept: set<File>, names: set<File>, upTo: nat)
    | Stage(listed: set<File>, written: set<File>)
    | Publish(rows: Rows)
    | Done
    | Stop(left: Option<Rows>)
    | Undo(removed: set<File>, dropped: bool)

  datatype Action = Call(c: nat, call: CallStep) | Write(step: WriterStep)

  ghost predicate IsHighest(manifests: map<nat, Manifest>, at: nat) {
    at in manifests && forall q: nat :: q in manifests ==> q <= at
  }

  /** A call that has staged everything and read something goes for the second lock. */
  ghost predicate Ready(s: State, c: nat) {
    && c in s.procs && s.procs[c].Rewriting? && s.lock.Free?
    && s.procs[c].todo == 0 && s.procs[c].chunk.None? && s.procs[c].scan.anyRead
  }

  function Metas(fs: set<File>): set<File> { set f | f in fs && f.Meta? }

  /** Revalidation succeeds, and the row index can be built from the staged metadata files. */
  ghost predicate WillPublish(s: State, c: nat) {
    && Ready(s, c) && s.pointer == s.procs[c].pinned && s.pointer + 1 !in s.manifests
    && Metas(s.procs[c].staged) <= s.files
  }

  /** The deletion vectors of its row group in `fs` all have a lower version. */
  ghost predicate IsNewVersion(fs: set<File>, f: File) {
    f.Deletion? && forall g :: g in fs && g.Deletion? && g.id == f.id ==> g.version < f.version
  }

  /** A deletion vector of its row group with this version or a later one is in `fs`. */
  ghost predicate IsKeptUp(fs: set<File>, f: File) {
    f.Deletion? && exists g :: g in fs && g.Deletion? && g.id == f.id && f.version <= g.version
  }

  /** What a writer may plan: files of the current manifest, and new ones, named by the next sequence
      number, or by the next version of a kept row group's deletion vector, or by a fresh id. A row group is
      kept with its deletion vector or with the next version of it. */
  ghost predicate PlanOk(current: set<File>, next: nat, kept: set<File>, names: set<File>) {
    && kept <= current
    && (forall f :: f in names && IsNumbered(f) ==> f.seqno == next)
    && (forall f :: f in names && f.Deletion? ==> Meta(f.id) in kept && IsNewVersion(current, f))
    && (forall f :: f in kept && f.Deletion? ==> Meta(f.id) in kept)
    && (forall f :: f in current && f.Deletion? && Meta(f.id) in kept ==> IsKeptUp(kept + names, f))
  }

  /** The writer has listed and written everything, and rows are in some data file. */
  ghost predicate CanPublish(s: State, rows: Rows) {
    && s.lock.HeldByWriter? && s.lock.w.Staging? && s.lock.w.listed == s.lock.w.names <= s.files
    && (rows != map[] ==> HasData(s.lock.w.kept + s.lock.w.names))
  }

  ghost predicate CallEnabled(cfg: Config, s: State, c: nat, step: CallStep)
    requires c in s.procs
  {
    var p := s.procs[c];
    match step
    case PinStart(at) =>
      && p.Idle? && s.lock.Free? && s.manifests != map[]
      && (if s.pointer in s.manifests then at == s.pointer else IsHighest(s.manifests, at))
    case PinNothing => p.Idle? && s.lock.Free? && s.manifests == map[]
    case PinFinish => p.Cleaning? && s.lock == HeldByCall(c)
    case PinFault => p.Cleaning? && s.lock == HeldByCall(c)
    case OpenScan(todo, anyRead) =>
      && p.Pinned? && s.pointer in s.manifests
      && (todo == 0 <==> s.manifests[s.pointer].rows == map[]) && (todo > 0 ==> anyRead)
      && (anyRead ==> HasData(CurrentFiles(s)))
    case SkipScan => p.Pinned?
    case Journal => p.Rewriting? && p.todo > 0 && p.chunk.None?
    case WriteParts => p.Rewriting? && p.chunk.Some? && p.chunk.value.done == 0
    case RenameNext => p.Rewriting? && p.chunk.Some? && 1 <= p.chunk.value.done <= 3
    case StageFault => p.Rewriting?
    case StopEmpty => p.Rewriting? && p.todo == 0 && p.chunk.None? && !p.scan.anyRead
    case Commit => Ready(s, c)
    case CommitFault(written) => cfg.commitFails && WillPublish(s, c) && written <= Extras(s.pointer + 1)
    case CommitCrash(orphan) => cfg.callsDie && WillPublish(s, c)
    case RollbackFiles => p.RollingBack?
    case RollbackManifest => p.Deleting?
    case DropIntent => p.Published?
    case Crash => cfg.callsDie && !p.Finished?
    case Restart => p.Finished?
  }

  ghost predicate WriterEnabled(cfg: Config, s: State, step: WriterStep) {
    match step
    case TakeLock => s.lock.Free? && (s.pointer > 0 ==> s.pointer in s.manifests)
    case Plan(kept, names, upTo) =>
      && s.lock == HeldByWriter(Cleaned) && s.nextName < upTo && PlanOk(CurrentFiles(s), s.pointer + 1, kept, names)
      && forall f :: f in names && IsCore(f) ==> s.nextName < f.id < upTo
    case Stage(listed, written) =>
      && s.lock.HeldByWriter? && s.lock.w.Staging?
      && s.lock.w.listed <= listed <= s.lock.w.names && written <= s.lock.w.names
    case Publish(rows) => CanPublish(s, rows)
    case Done => s.lock.HeldByWriter? && s.lock.w.Moved?
    case Stop(left) =>
      && s.lock.HeldByWriter? && (if s.lock.w.Moved? then cfg.writersLeave else cfg.writersGiveUp)
      && (left.Some? ==> CanPublish(s, left.value))
    case Undo(removed, dropped) =>
      cfg.writersGiveUp && s.lock.HeldByWriter? && s.lock.w.Staging? && removed <= s.lock.w.names
  }

  ghost predicate Enabled(cfg: Config, s: State, a: Action) {
    match a
    case Call(c, step) => c in s.procs && CallEnabled(cfg, s, c, step)
    case Write(step) => WriterEnabled(cfg, s, step)
  }

  // ---- the steps of a call ----

  /** Lock 1, first half: load the catalog, falling back to the highest manifest on disk when the pointer
      names a missing one, and clean the intents, sparing the current row groups only. */
  function DoPinStart(s: State, c: nat, at: nat): State
    requires c in s.procs && s.procs[c].Idle?
  {
    var t := s.(pointer := at);
    SetPhase(CleanIntents(t, Core(CurrentFiles(t))), c, Cleaning(s.procs[c].attempt, Indexes(CurrentFiles(t))))
      .(lock := HeldByCall(c))
  }

  /** Lock 1, second half: clean the rest and pin the pointer. */
  function DoPinFinish(s: State, c: nat): State
    requires c in s.procs && s.procs[c].Cleaning?
  {
    SetPhase(CleanRest(s), c, Pinned(s.procs[c].attempt, s.pointer, s.procs[c].indexes)).(lock := Free)
  }

  /** The reader is opened after lock 1 is released: it scans whatever the manifest pointer names now. */
  function DoOpenScan(s: State, c: nat, todo: nat, anyRead: bool): State
    requires c in s.procs && s.procs[c].Pinned? && s.pointer in s.manifests
  {
    var p := s.procs[c];
    var scan := Scan(s.pointer, s.manifests[s.pointer].rows, anyRead, todo);
    SetPhase(s, c, Rewriting(p.attempt, p.pinned, p.indexes, scan, s.nextName, todo, {}, None))
      .(intents := s.intents[s.nextName := {}], nextName := s.nextName + 1)
  }

  /** Record the three files of the next output row group in the intent. */
  function DoJournal(s: State, c: nat): State
    requires c in s.procs && s.procs[c].Rewriting? && s.procs[c].todo > 0
  {
    var p := s.procs[c];
    SetPhase(s, c, p.(todo := p.todo - 1, chunk := Some(Chunk(s.nextName, 0))))
      .(intents := s.intents[p.txn := p.staged + ChunkFiles(s.nextName)], nextName := s.nextName + 1)
  }

  function DoWriteParts(s: State, c: nat): State
    requires c in s.procs && s.procs[c].Rewriting? && s.procs[c].chunk.Some?
  {
    var p := s.procs[c];
    SetPhase(s, c, p.(chunk := Some(p.chunk.value.(done := 1)))).(parts := s.parts + ChunkFiles(p.chunk.value.id))
  }

  function NextFile(ch: Chunk): File {
    if ch.done <= 1 then Data(ch.id) else if ch.done == 2 then Meta(ch.id) else Agg(ch.id)
  }

  /** A call fails before it has chosen a sequence. */
  function DoFail(s: State, c: nat): State
    requires c in s.procs && s.procs[c].Rewriting?
  {
    var p := s.procs[c];
    SetPhase(s, c, RollingBack(p.attempt, p.txn, p.staged, 0, false))
  }

  /** One rename from staging into the table; it fails when a cleanup took the staged file. */
  function DoRename(s: State, c: nat): State
    requires c in s.procs && s.procs[c].Rewriting? && s.procs[c].chunk.Some?
  {
    var p := s.procs[c];
    var ch := p.chunk.value;
    if NextFile(ch) !in s.parts then DoFail(s, c)
    else
      SetPhase(s, c,
        if ch.done < 3 then p.(chunk := Some(ch.(done := ch.done + 1)))
        else p.(staged := p.staged + ChunkFiles(ch.id), chunk := None))
        .(parts := s.parts - {NextFile(ch)}, files := s.files + {NextFile(ch)})
  }

  /** The manifest a call publishes: what it scanned, in the row groups it staged, with the pinned
      manifest's index files. */
  function NewManifest(s: State, c: nat): Manifest
    requires c in s.procs && s.procs[c].Rewriting?
  {
    var p := s.procs[c];
    Manifest(p.scan.rows, p.staged + Extras(p.pinned + 1) + p.indexes, ByCompaction(p.pinned, p.scan.seqno))
  }

  /** Row index and checkpoint are journaled and written. */
  function Sealed(s: State, c: nat, extras: set<File>): State
    requires c in s.procs && s.procs[c].Rewriting?
  {
    var p := s.procs[c];
    s.(files := s.files + extras, intents := s.intents[p.txn := p.staged + extras])
  }

  /** Lock 2: publish if the manifest pointer still names the pinned sequence, its successor does not
      exist yet and the staged metadata can be read; otherwise roll back. */
  function DoCommit(s: State, c: nat): State
    requires c in s.procs && s.procs[c].Rewriting?
  {
    var p := s.procs[c];
    var next := p.pinned + 1;
    if s.pointer != p.pinned then
      SetPhase(s, c, RollingBack(p.attempt, p.txn, p.staged, 0, true))
    else if next in s.manifests then DoFail(s, c)
    else if !(Metas(p.staged) <= s.files) then
      SetPhase(s, c, RollingBack(p.attempt, p.txn, p.staged, next, false))
    else
      SetPhase(Sealed(s, c, Extras(next)), c, Published(next, p.txn))
        .(pointer := next, manifests := s.manifests[next := NewManifest(s, c)])
  }

  /** An I/O error after the new sequence was chosen; the lock is released before the rollback. */
  function DoCommitFault(s: State, c: nat, written: set<File>): State
    requires c in s.procs && s.procs[c].Rewriting?
  {
    var p := s.procs[c];
    SetPhase(Sealed(s, c, written), c, RollingBack(p.attempt, p.txn, p.staged + written, p.pinned + 1, false))
  }

  /** Death before the pointer moves, with or without the manifest file. */
  function DoCommitCrash(s: State, c: nat, orphan: bool): State
    requires c in s.procs && s.procs[c].Rewriting?
  {
    var next := s.procs[c].pinned + 1;
    SetPhase(Sealed(s, c, Extras(next)), c, Finished(Crashed))
      .(manifests := if orphan then s.manifests[next := NewManifest(s, c)] else s.manifests)
  }

  /** `rollback_compaction`, without the lock: the staged files go first. */
  function DoRollbackFiles(s: State, c: nat): State
    requires c in s.procs && s.procs[c].RollingBack?
  {
    var p := s.procs[c];
    SetPhase(s, c, Deleting(p.attempt, p.txn, p.seqno, p.conflict)).(files := s.files - p.staged)
  }

  /** Then the manifest of the chosen sequence, if one was chosen, and the intent. */
  function DoRollbackManifest(s: State, c: nat): State
    requires c in s.procs && s.procs[c].Deleting?
  {
    var p := s.procs[c];
    SetPhase(s, c,
      if !p.conflict then Finished(Failed)
      else if p.attempt + 1 < MAX_COMMIT_ATTEMPTS then Idle(p.attempt + 1)
      else Finished(GaveUp))
      .(intents := s.intents - {p.txn}, manifests := s.manifests - {p.seqno})
  }

  // ---- the steps of a writer ----

  /** A writer finishes the cleanup and decides what the next manifest will refer to. */
  function DoPlan(s: State, kept: set<File>, names: set<File>, upTo: nat): State {
    CleanRest(s).(lock := HeldByWriter(Staging(s.nextName, kept, names, {})), nextName := upTo)
  }

  /** It writes files and lists them in its intent, in either order. */
  function DoStage(s: State, listed: set<File>, written: set<File>): State
    requires s.lock.HeldByWriter? && s.lock.w.Staging?
  {
    s.(lock := HeldByWriter(s.lock.w.(listed := listed)),
       intents := s.intents[s.lock.w.txn := listed], files := s.files + written)
  }

  function WriterManifest(s: State, rows: Rows): Manifest
    requires s.lock.HeldByWriter? && s.lock.w.Staging?
  {
    Manifest(rows, s.lock.w.kept + s.lock.w.names, ByWriter)
  }

  /** It writes the manifest and moves the pointer; its intent is still there. */
  function DoPublish(s: State, rows: Rows): State
    requires s.lock.HeldByWriter? && s.lock.w.Staging?
  {
    s.(pointer := s.pointer + 1, manifests := s.manifests[s.pointer + 1 := WriterManifest(s, rows)],
       lock := HeldByWriter(Moved(s.lock.w.txn)))
  }

  /** It gives up or dies, leaving everything as it is, and possibly a manifest above the pointer. */
  function DoStop(s: State, left: Option<Rows>): State
    requires left.Some? ==> s.lock.HeldByWriter? && s.lock.w.Staging?
  {
    s.(lock := Free,
       manifests := match left
                    case Some(rows) => s.manifests[s.pointer + 1 := WriterManifest(s, rows)]
                    case None => s.manifests)
  }

  /** `rollback_commit`, under the lock and at best: files, manifest, intent. */
  function DoUndo(s: State, removed: set<File>, dropped: bool): State
    requires s.lock.HeldByWriter? && s.lock.w.Staging?
  {
    s.(lock := Free, files := s.files - removed, manifests := s.manifests - {s.pointer + 1},
       intents := if dropped then s.intents - {s.lock.w.txn} else s.intents)
  }

  ghost function CallApply(cfg: Config, s: State, c: nat, step: CallStep): State
    requires c in s.procs && CallEnabled(cfg, s, c, step)
  {
    match step
    case PinStart(at) => DoPinStart(s, c, at)
    case PinNothing => SetPhase(s, c, Finished(if s.pointer == 0 then NothingToDo else Failed))
    case PinFinish => DoPinFinish(s, c)
    case PinFault => SetPhase(s, c, Finished(Failed)).(lock := Free)
    case OpenScan(todo, anyRead) => DoOpenScan(s, c, todo, anyRead)
    case SkipScan => SetPhase(s, c, Finished(if s.pointer in s.manifests then NothingToDo else Failed))
    case Journal => DoJournal(s, c)
    case WriteParts => DoWriteParts(s, c)
    case RenameNext => DoRename(s, c)
    case StageFault => DoFail(s, c)
    case StopEmpty => SetPhase(s, c, Finished(Empty)).(intents := s.intents - {s.procs[c].txn})
    case Commit => DoCommit(s, c)
    case CommitFault(written) => DoCommitFault(s, c, written)
    case CommitCrash(orphan) => DoCommitCrash(s, c, orphan)
    case RollbackFiles => DoRollbackFiles(s, c)
    case RollbackManifest => DoRollbackManifest(s, c)
    case DropIntent =>
      SetPhase(s, c, Finished(Committed(s.procs[c].seqno))).(intents := s.intents - {s.procs[c].txn})
    case Crash =>
      SetPhase(s, c, Finished(Crashed)).(lock := if s.procs[c].Cleaning? then Free else s.lock)
    case Restart => SetPhase(s, c, Idle(0))
  }

  ghost function WriterApply(cfg: Config, s: State, step: WriterStep): State
    requires WriterEnabled(cfg, s, step)
  {
    match step
    case TakeLock => CleanIntents(s, CurrentFiles(s)).(lock := HeldByWriter(Cleaned))
    case Plan(kept, names, upTo) => DoPlan(s, kept, names, upTo)
    case Stage(listed, written) => DoStage(s, listed, written)
    case Publish(rows) => DoPublish(s, rows)
    case Done => s.(lock := Free, intents := s.intents - {s.lock.w.txn})
    case Stop(left) => DoStop(s, left)
    case Undo(removed, dropped) => DoUndo(s, removed, dropped)
  }

  ghost function Apply(cfg: Config, s: State, a: Action): State
    requires Enabled(cfg, s, a)
  {
    match a
    case Call(c, step) => CallApply(cfg, s, c, step)
    case Write(step) => WriterApply(cfg, s, step)
  }

  ghost predicate Next(cfg: Config, s: State, s': State) {
    exists a :: Enabled(cfg, s, a) && s' == Apply(cfg, s, a)
  }

  // ---- runs ----

  ghost predicate CommittedRef(s: State, f: File) {
    exists q: nat :: q in s.manifests && q <= s.pointer && f in s.manifests[q].files
  }

  /** Names of a manifest's files: numbered up to its sequence, deletion vectors for its own row groups. */
  ghost predicate ManifestOk(q: nat, m: Manifest) {
    && (forall f :: f in m.files && IsNumbered(f) ==> f.seqno <= q)
    && (forall f :: f in m.files && f.Deletion? ==> Meta(f.id) in m.files)
  }

  /** As long as a row group is current, so is its latest deletion vector. */
  ghost predicate WellNamed(s: State) {
    && (forall q: nat :: q in s.manifests ==> ManifestOk(q, s.manifests[q]))
    && (forall f :: CommittedRef(s, f) && f.Deletion? && Meta(f.id) in CurrentFiles(s) ==> IsKeptUp(CurrentFiles(s), f))
  }

  function IdleSlots(n: nat): (m: map<nat, Phase>)
    ensures forall c: nat :: c in m <==> c < n
    ensures forall c: nat :: c in m ==> m[c] == Idle(0)
  {
    if n == 0 then map[] else IdleSlots(n - 1)[n - 1 := Idle(0)]
  }

  /** Any well-formed table with nothing in flight. */
  ghost predicate Init(cfg: Config, s: State) {
    && s.procs == IdleSlots(cfg.compactors) && s.lock.Free? && s.intents == map[] && s.parts == {}
    && (forall q: nat :: q in s.manifests ==> 0 < q <= s.pointer && s.manifests[q].files <= s.files)
    && (forall q: nat :: q in s.manifests && s.manifests[q].rows != map[] ==> HasData(s.manifests[q].files))
    && (s.pointer > 0 ==> s.pointer in s.manifests)
    && (forall f :: f in s.files && IsCore(f) ==> f.id < s.nextName)
    && WellNamed(s)
  }

  ghost predicate IsRun(cfg: Config, run: seq<State>) {
    && run != [] && Init(cfg, run[0])
    && forall i :: 0 <= i < |run| - 1 ==> Next(cfg, run[i], run[i + 1])
  }

  // ---- what a publication is built from ----

  /** No committed manifest is lost or changed, and the pointer does not go back. */
  ghost predicate KeepsHistory(s: State, s': State) {
    && s.pointer <= s'.pointer
    && forall q: nat :: q in s.manifests && q <= s.pointer ==> q in s'.manifests && s'.manifests[q] == s.manifests[q]
  }

  /** Call `c` publishes a manifest in this step. */
  ghost predicate Publishes(s: State, s': State, c: nat) {
    Ready(s, c) && s' == DoCommit(s, c) && s'.procs[c].Published?
  }

  /** The headline: the published manifest is its immediate predecessor, rewritten: the same rows, the same
      index files, a row index and a checkpoint of its own, and neither deletion vectors nor row-index deltas. */
  ghost predicate BuiltOnPredecessor(s: State, s': State) {
    && s.pointer in s.manifests && s'.pointer == s.pointer + 1 && s'.pointer in s'.manifests
    && var m, m' := s.manifests[s.pointer], s'.manifests[s'.pointer];
    && m'.origin == ByCompaction(s.pointer, s.pointer)
    && m'.rows == m.rows
    && (forall f: File :: f.IndexFile? ==> (f in m'.files <==> f in m.files))
    && (forall f: File :: f.RowIndexBase? || f.Checkpoint? ==> (f in m'.files <==> f.seqno == s'.pointer))
    && (forall f: File :: f.Deletion? || f.RowIndexDelta? ==> f !in m'.files)
  }

  /** Its row groups are those the call claims: as many as the rows go into, each with its three files. */
  ghost predicate MadeOfClaims(s: State, s': State, c: nat) {
    && Ready(s, c) && s'.pointer in s'.manifests
    && var m' := s'.manifests[s'.pointer];
    && (forall f :: IsCore(f) ==> (f in m'.files <==> Claimed(s, Some(c), f)))
    && WholeGroups(m'.files) && |Datas(m'.files)| == s.procs[c].scan.groups
    && (m'.rows != map[] <==> HasData(m'.files))
  }

  function Datas(fs: set<File>): set<File> { set f | f in fs && f.Data? }

  ghost predicate WholeGroups(fs: set<File>) {
    forall id: nat :: (Data(id) in fs <==> Meta(id) in fs) && (Meta(id) in fs <==> Agg(id) in fs)
  }

  /** While the manifest pointer names the pinned sequence, the scan shows exactly that manifest. */
  ghost predicate ScanOk(s: State, p: Phase) {
    match p
    case Pinned(_, pinned, _) => pinned <= s.pointer
    case Rewriting(_, pinned, _, scan, _, _, _, _) =>
      && pinned <= s.pointer
      && (pinned == s.pointer ==>
            pinned in s.manifests && scan.seqno == pinned && scan.rows == s.manifests[pinned].rows)
    case _ => true
  }

  ghost predicate ScansOk(s: State) {
    forall c: nat :: c in s.procs ==> ScanOk(s, s.procs[c])
  }

  /** The no-ABA argument: as long as no committed manifest goes, a pointer that still names the pinned
      sequence named it all along, and the scan, opened in between, read exactly the pinned snapshot. */
  lemma {:induction false} PublishesOnPredecessor(s: State, s': State, c: nat)
    requires Inv(s) && ScansOk(s) && IndexesOk(s) && Publishes(s, s', c)
    ensures BuiltOnPredecessor(s, s')
  {
    var p := s.procs[c];
    assert ScanOk(s, p) && IndexOk(s, c, p);
    NewManifestKinds(s, c);
  }

  /** What the new manifest refers to beside its row groups. */
  lemma {:induction false} NewManifestKinds(s: State, c: nat)
    requires Inv(s) && Ready(s, c)
    ensures var p, m := s.procs[c], NewManifest(s, c);
            && (forall f: File :: f.IndexFile? ==> (f in m.files <==> f in p.indexes))
            && (forall f: File :: f.RowIndexBase? || f.Checkpoint? ==> (f in m.files <==> f.seqno == p.pinned + 1))
            && (forall f: File :: f.Deletion? || f.RowIndexDelta? ==> f !in m.files)
  {
    var p := s.procs[c];
    assert PhaseOk(p);
    StagedIsCore(s, c);
    assert forall f :: f in p.staged ==> f in Core(p.staged);
  }

  /** What a call publishes are the row groups it has staged, all of them and nothing else. */
  lemma {:induction false} PublishesClaims(s: State, s': State, c: nat)
    requires Inv(s) && Publishes(s, s', c)
    ensures MadeOfClaims(s, s', c)
  {
    var p, m' := s.procs[c], s'.manifests[s'.pointer];
    assert PhaseOk(p) && StagedOk(p);
    NewIsStagedCore(s, c);
    assert Datas(m'.files) == Datas(p.staged);
    if m'.rows != map[] { SomeData(p.staged); }
  }

  lemma {:induction false} NewIsStagedCore(s: State, c: nat)
    requires Inv(s) && Ready(s, c)
    ensures forall f :: IsCore(f) ==>
              && (f in NewManifest(s, c).files <==> f in s.procs[c].staged)
              && (f in s.procs[c].staged <==> Claimed(s, Some(c), f))
  {
    assert PhaseOk(s.procs[c]);
  }

  lemma {:induction false} SomeData(fs: set<File>)
    requires |Datas(fs)| > 0
    ensures HasData(fs)
  {
    var f :| f in Datas(fs);
  }

  // ---- the index files of the pinned manifest ----

  /** A pin under the lock knows the index files of the current manifest, and later on they are those of the
      pinned manifest as long as that is the current one. */
  ghost predicate IndexOk(s: State, c: nat, p: Phase) {
    match p
    case Cleaning(_, indexes) =>
      s.lock == HeldByCall(c) && s.pointer in s.manifests && indexes == Indexes(s.manifests[s.pointer].files)
    case Pinned(_, pinned, indexes) => PinnedIndexes(s, pinned, indexes)
    case Rewriting(_, pinned, indexes, _, _, _, _, _) => PinnedIndexes(s, pinned, indexes)
    case _ => true
  }

  ghost predicate PinnedIndexes(s: State, pinned: nat, indexes: set<File>) {
    && pinned <= s.pointer
    && (pinned == s.pointer ==> pinned in s.manifests && indexes == Indexes(s.manifests[pinned].files))
  }

  ghost predicate IndexesOk(s: State) {
    forall c: nat :: c in s.procs ==> IndexOk(s, c, s.procs[c])
  }

  lemma {:induction false} IndexKept(s: State, s': State, c: nat, p: Phase)
    requires IndexOk(s, c, p) && KeepsHistory(s, s')
    requires s.lock == HeldByCall(c) ==> s'.lock == s.lock && s'.pointer == s.pointer
    ensures IndexOk(s', c, p)
  {
  }

  lemma {:induction false} OwnIndexOk(cfg: Config, s: State, c: nat, step: CallStep)
    requires c in s.procs && CallEnabled(cfg, s, c, step) && IndexOk(s, c, s.procs[c])
    ensures c in CallApply(cfg, s, c, step).procs
    ensures IndexOk(CallApply(cfg, s, c, step), c, CallApply(cfg, s, c, step).procs[c])
  {
    match step
    case PinStart(_) =>
    case PinFinish =>
    case Commit =>
    case RenameNext =>
    case _ =>
  }

  /** Nobody else moves the pointer or takes the lock while a call holds it. */
  lemma {:induction false} LockExcludes(cfg: Config, s: State, c: nat, d: nat, step: CallStep)
    requires s.lock == HeldByCall(c) && d != c && d in s.procs && CallEnabled(cfg, s, d, step)
    requires IndexOk(s, d, s.procs[d])
    ensures CallApply(cfg, s, d, step).lock == s.lock && CallApply(cfg, s, d, step).pointer == s.pointer
  {
    match step
    case RenameNext =>
    case _ =>
  }

  lemma {:induction false} IndexesOkStep(cfg: Config, s: State, s': State)
    requires IndexesOk(s) && Next(cfg, s, s')
    requires KeepsHistory(s, s') || s.procs.Keys <= {0}
    ensures IndexesOk(s')
  {
    var a :| Enabled(cfg, s, a) && s' == Apply(cfg, s, a);
    match a
    case Call(c, step) =>
      CallMoves(cfg, s, c, step);
      OwnIndexOk(cfg, s, c, step);
      forall d: nat | d in s'.procs && d != c
        ensures IndexOk(s', d, s'.procs[d])
      {
        if s.lock == HeldByCall(d) { LockExcludes(cfg, s, d, c, step); }
        IndexKept(s, s', d, s.procs[d]);
      }
    case Write(step) =>
      WriterMoves(cfg, s, step);
      forall d: nat | d in s'.procs
        ensures IndexOk(s', d, s'.procs[d])
      {
        assert IndexOk(s, d, s.procs[d]) && s.lock != HeldByCall(d);
        IndexKept(s, s', d, s.procs[d]);
      }
  }

  // ---- runs ----

  /** A call changes no other call's phase, a writer no call's. */
  lemma {:induction false} CallMoves(cfg: Config, s: State, c: nat, step: CallStep)
    requires c in s.procs && CallEnabled(cfg, s, c, step)
    ensures var s' := CallApply(cfg, s, c, step);
            c in s'.procs && s'.procs == s.procs[c := s'.procs[c]]
  {
    match step
    case Commit =>
    case RenameNext =>
    case _ =>
  }

  lemma {:induction false} WriterMoves(cfg: Config, s: State, step: WriterStep)
    requires WriterEnabled(cfg, s, step)
    ensures WriterApply(cfg, s, step).procs == s.procs
    ensures KeepsHistory(s, WriterApply(cfg, s, step))
  {
  }

  lemma {:induction false} SlotsStayStep(cfg: Config, s: State, a: Action)
    requires Enabled(cfg, s, a)
    ensures Apply(cfg, s, a).procs.Keys == s.procs.Keys
  {
    match a
    case Call(c, step) => CallMoves(cfg, s, c, step);
    case Write(step) => WriterMoves(cfg, s, step);
  }

  lemma {:induction false} ScanKept(s: State, s': State, p: Phase)
    requires ScanOk(s, p) && KeepsHistory(s, s')
    ensures ScanOk(s', p)
  {
  }

  /** The moving call's own scan stays right: a step from or to a scan loses nothing. */
  lemma {:induction false} OwnScanOk(cfg: Config, s: State, c: nat, step: CallStep)
    requires c in s.procs && CallEnabled(cfg, s, c, step) && ScanOk(s, s.procs[c])
    ensures c in CallApply(cfg, s, c, step).procs
    ensures ScanOk(CallApply(cfg, s, c, step), CallApply(cfg, s, c, step).procs[c])
  {
    match step
    case Commit =>
    case RenameNext =>
    case _ =>
  }

  lemma {:induction false} ScansOkStep(cfg: Config, s: State, s': State)
    requires ScansOk(s) && Next(cfg, s, s')
    requires KeepsHistory(s, s') || s.procs.Keys <= {0}
    ensures ScansOk(s')
  {
    var a :| Enabled(cfg, s, a) && s' == Apply(cfg, s, a);
    match a
    case Call(c, step) =>
      CallMoves(cfg, s, c, step);
      OwnScanOk(cfg, s, c, step);
      forall d: nat | d in s'.procs && d != c
        ensures ScanOk(s', s'.procs[d])
      {
        ScanKept(s, s', s.procs[d]);
      }
    case Write(step) =>
      WriterMoves(cfg, s, step);
      forall d: nat | d in s'.procs
        ensures ScanOk(s', s'.procs[d])
      {
        ScanKept(s, s', s.procs[d]);
      }
  }

  ghost predicate HistoryKept(run: seq<State>, j: nat)
    requires j < |run|
  {
    forall i :: 0 <= i < j ==> KeepsHistory(run[i], run[i + 1])
  }

  lemma {:induction false} SlotsStay(cfg: Config, run: seq<State>, j: nat)
    requires IsRun(cfg, run) && j < |run|
    ensures run[j].procs.Keys == run[0].procs.Keys
    decreases j
  {
    if j > 0 {
      SlotsStay(cfg, run, j - 1);
      assert Next(cfg, run[j - 1], run[j - 1 + 1]);
      var a :| Enabled(cfg, run[j - 1], a) && run[j] == Apply(cfg, run[j - 1], a);
      SlotsStayStep(cfg, run[j - 1], a);
    }
  }

  lemma {:induction false} ScansOkRun(cfg: Config, run: seq<State>, j: nat)
    requires IsRun(cfg, run) && j < |run|
    requires cfg.compactors <= 1 || HistoryKept(run, j)
    ensures ScansOk(run[j]) && IndexesOk(run[j])
    decreases j
  {
    if j == 0 {
      ScansOkInit(cfg, run[0]);
    } else {
      assert cfg.compactors <= 1 || KeepsHistory(run[j - 1], run[j - 1 + 1]);
      ScansOkRun(cfg, run, j - 1);
      ScansOkRunStep(cfg, run, j - 1);
    }
  }

  lemma {:induction false} ScansOkInit(cfg: Config, s: State)
    requires Init(cfg, s)
    ensures ScansOk(s) && IndexesOk(s)
  {
  }

  lemma {:induction false} ScansOkRunStep(cfg: Config, run: seq<State>, i: nat)
    requires IsRun(cfg, run) && i + 1 < |run| && ScansOk(run[i]) && IndexesOk(run[i])
    requires cfg.compactors <= 1 || KeepsHistory(run[i], run[i + 1])
    ensures ScansOk(run[i + 1]) && IndexesOk(run[i + 1])
  {
    if cfg.compactors <= 1 { OnlySlot(cfg, run, i); }
    assert Next(cfg, run[i], run[i + 1]);
    ScansOkStep(cfg, run[i], run[i + 1]);
    IndexesOkStep(cfg, run[i], run[i + 1]);
  }

  lemma {:induction false} OnlySlot(cfg: Config, run: seq<State>, j: nat)
    requires IsRun(cfg, run) && j < |run| && cfg.compactors <= 1
    ensures run[j].procs.Keys <= {0} && (cfg.compactors == 0 ==> run[j].procs == map[])
  {
    SlotsStay(cfg, run, j);
    var slots := IdleSlots(cfg.compactors);
    assert forall c: nat :: c in slots ==> c < cfg.compactors;
  }

  /** In every run, with any number of compactors and failures of any kind: as long as no committed manifest
      was lost, every publication is its immediate predecessor, rewritten. With a single compactor it is
      so in any case. */
  lemma {:induction false} EveryPublicationIsBuiltOnPredecessor(cfg: Config, run: seq<State>, i: nat, c: nat)
    requires IsRun(cfg, run) && i + 1 < |run| && Publishes(run[i], run[i + 1], c)
    requires cfg.compactors <= 1 || HistoryKept(run, i)
    ensures BuiltOnPredecessor(run[i], run[i + 1])
  {
    InvRun(cfg, run, i);
    ScansOkRun(cfg, run, i);
    PublishesOnPredecessor(run[i], run[i + 1], c);
  }

  /** And in every run whatever, it is made of all the row groups its call has staged and of no others. */
  lemma {:induction false} EveryPublicationIsMadeOfClaims(cfg: Config, run: seq<State>, i: nat, c: nat)
    requires IsRun(cfg, run) && i + 1 < |run| && Publishes(run[i], run[i + 1], c)
    ensures MadeOfClaims(run[i], run[i + 1], c)
  {
    InvRun(cfg, run, i);
    PublishesClaims(run[i], run[i + 1], c);
  }

  // ---- names ----

  function OpenFiles(p: Phase): set<File> {
    if p.Rewriting? && p.chunk.Some? then ChunkFiles(p.chunk.value.id) else {}
  }

  /** The row-group files a call will publish or delete. */
  function Claims(p: Phase): set<File> {
    if p.Rewriting? then p.staged + OpenFiles(p)
    else if p.RollingBack? then Core(p.staged)
    else {}
  }

  /** The row-group files a writer will publish. */
  function WriterClaims(lock: Lock): set<File> {
    if lock.HeldByWriter? && lock.w.Staging? then Core(lock.w.names) else {}
  }

  function WriterKept(lock: Lock): set<File> {
    if lock.HeldByWriter? && lock.w.Staging? then lock.w.kept else {}
  }

  /** Who acts: a call, or the writer. */
  function Actor(a: Action): Option<nat> {
    match a
    case Call(c, _) => Some(c)
    case Write(_) => None
  }

  ghost predicate OnDisk(s: State, f: File) {
    exists q: nat :: q in s.manifests && f in s.manifests[q].files
  }

  /** A manifest refers to the file, or a writer has read it in one and will. */
  ghost predicate InUse(s: State, f: File) { OnDisk(s, f) || f in WriterKept(s.lock) }

  ghost predicate Claimed(s: State, who: Option<nat>, f: File) {
    match who
    case Some(c) => c in s.procs && f in Claims(s.procs[c])
    case None => f in WriterClaims(s.lock)
  }

  /** Row-group files are claimed by one call or the writer, or belong to manifests, and every id in use was
      drawn. */
  ghost predicate NamesOk(s: State) {
    && (forall who, f :: Claimed(s, who, f) ==> IsCore(f) && f.id < s.nextName && !InUse(s, f))
    && (forall who, other, f :: Claimed(s, who, f) && Claimed(s, other, f) ==> who == other)
    && (forall f :: InUse(s, f) && IsCore(f) ==> f.id < s.nextName)
    && (forall f :: f in Intended(s) && IsCore(f) ==> f.id < s.nextName)
    && 0 !in s.manifests
  }

  ghost predicate OnlyIndexes(fs: set<File>) { forall f :: f in fs ==> f.IndexFile? }

  ghost predicate PhaseOk(p: Phase) {
    match p
    case Idle(a) => a < MAX_COMMIT_ATTEMPTS
    case Cleaning(a, indexes) => a < MAX_COMMIT_ATTEMPTS && OnlyIndexes(indexes)
    case Pinned(a, _, indexes) => a < MAX_COMMIT_ATTEMPTS && OnlyIndexes(indexes)
    case Rewriting(a, _, indexes, _, _, _, staged, chunk) =>
      a < MAX_COMMIT_ATTEMPTS && OnlyIndexes(indexes) && (chunk.Some? ==> chunk.value.done <= 3)
    case RollingBack(a, _, staged, seqno, _) => a < MAX_COMMIT_ATTEMPTS && (seqno == 0 ==> Core(staged) == staged)
    case Deleting(a, _, _, _) => a < MAX_COMMIT_ATTEMPTS
    case _ => true
  }

  /** What is staged are whole row groups, and with those to come they are as many as the rows go into. */
  ghost predicate StagedOk(p: Phase) {
    p.Rewriting? ==>
      && WholeGroups(p.staged) && (p.scan.groups == 0 <==> p.scan.rows == map[])
      && |Datas(p.staged)| + p.todo + (if p.chunk.Some? then 1 else 0) == p.scan.groups
      && (p.chunk.Some? ==> Data(p.chunk.value.id) !in p.staged)
  }

  /** Rows are in some data file. */
  ghost predicate RowsHaveData(s: State) {
    forall q: nat :: q in s.manifests && s.manifests[q].rows != map[] ==> HasData(s.manifests[q].files)
  }

  ghost predicate Inv(s: State) {
    NamesOk(s) && forall c: nat :: c in s.procs ==> PhaseOk(s.procs[c]) && StagedOk(s.procs[c])
  }

  lemma {:induction false} InitInv(cfg: Config, s: State)
    requires Init(cfg, s)
    ensures Inv(s)
  {
    forall f | InUse(s, f)
      ensures f in s.files
    {
      var q: nat :| q in s.manifests && f in s.manifests[q].files;
    }
  }

  /** Nobody else gains a claim, the actor only what it just drew, and only what the actor claimed comes
      into use. */
  ghost predicate NamesStep(s: State, s': State, who: Option<nat>) {
    && s.nextName <= s'.nextName && 0 !in s'.manifests
    && (forall other, f :: Claimed(s', other, f) && other != who ==> Claimed(s, other, f))
    && (forall f :: Claimed(s', who, f) ==> IsCore(f) && (Claimed(s, who, f) || s.nextName <= f.id < s'.nextName))
    && (forall f :: InUse(s', f) && IsCore(f) ==> InUse(s, f) || (Claimed(s, who, f) && !Claimed(s', who, f)))
    && (forall f :: f in Intended(s') && IsCore(f) ==> f in Intended(s) || f.id < s'.nextName)
  }

  lemma {:induction false} NamesKept(s: State, s': State, who: Option<nat>)
    requires NamesOk(s) && NamesStep(s, s', who)
    ensures NamesOk(s')
  {
  }

  lemma {:induction false} ActionNames(cfg: Config, s: State, a: Action)
    requires Inv(s) && Enabled(cfg, s, a)
    ensures NamesStep(s, Apply(cfg, s, a), Actor(a))
  {
    match a
    case Call(c, step) =>
      match step {
        case Commit => PublishNames(cfg, s, c);
        case CommitCrash(orphan) => CrashNames(s, c, orphan);
        case _ => QuietNames(cfg, s, c, step);
      }
    case Write(step) =>
      match step {
        case Publish(rows) => WriterPublishNames(s, rows);
        case Stop(left) => StopNames(cfg, s, left);
        case _ => WriterNames(cfg, s, step);
      }
  }

  /** The manifest files on disk are some of those before. */
  ghost predicate FewerManifests(s: State, s': State) {
    forall q: nat :: q in s'.manifests ==> q in s.manifests && s'.manifests[q] == s.manifests[q]
  }

  lemma {:induction false} FewerOnDisk(s: State, s': State)
    requires FewerManifests(s, s')
    ensures forall f :: OnDisk(s', f) ==> OnDisk(s, f)
  {
    forall f | OnDisk(s', f)
      ensures OnDisk(s, f)
    {
      var q: nat :| q in s'.manifests && f in s'.manifests[q].files;
      assert q in s.manifests && f in s.manifests[q].files;
    }
  }

  /** A call's step leaves the claims of a writer and of other calls. */
  lemma {:induction false} OthersClaims(cfg: Config, s: State, c: nat, step: CallStep)
    requires c in s.procs && CallEnabled(cfg, s, c, step)
    ensures var s' := CallApply(cfg, s, c, step);
            && WriterClaims(s'.lock) <= WriterClaims(s.lock) && WriterKept(s'.lock) <= WriterKept(s.lock)
            && forall other, f :: Claimed(s', other, f) && other != Some(c) ==> Claimed(s, other, f)
  {
    var s' := CallApply(cfg, s, c, step);
    CallMoves(cfg, s, c, step);
    LockKept(cfg, s, c, step);
    forall other, f | Claimed(s', other, f) && other != Some(c)
      ensures Claimed(s, other, f)
    {
      if other.Some? { assert s'.procs[other.value] == s.procs[other.value]; }
    }
  }

  lemma {:induction false} LockKept(cfg: Config, s: State, c: nat, step: CallStep)
    requires c in s.procs && CallEnabled(cfg, s, c, step)
    ensures CallApply(cfg, s, c, step).lock == s.lock || !CallApply(cfg, s, c, step).lock.HeldByWriter?
  {
    match step
    case Commit =>
    case RenameNext =>
    case _ =>
  }

  /** The steps of a call that write no manifest file. */
  lemma {:induction false} QuietNames(cfg: Config, s: State, c: nat, step: CallStep)
    requires Inv(s) && c in s.procs && CallEnabled(cfg, s, c, step) && !step.Commit? && !step.CommitCrash?
    ensures NamesStep(s, CallApply(cfg, s, c, step), Some(c))
  {
    var s' := CallApply(cfg, s, c, step);
    QuietManifests(cfg, s, c, step);
    FewerOnDisk(s, s');
    OwnClaims(cfg, s, c, step);
    OwnIntents(cfg, s, c, step);
    OthersClaims(cfg, s, c, step);
  }

  lemma {:induction false} QuietManifests(cfg: Config, s: State, c: nat, step: CallStep)
    requires c in s.procs && CallEnabled(cfg, s, c, step) && !step.Commit? && !step.CommitCrash?
    ensures FewerManifests(s, CallApply(cfg, s, c, step))
  {
    match step
    case RenameNext =>
    case _ =>
  }

  lemma {:induction false} ClaimsGrow(cfg: Config, s: State, c: nat, step: CallStep)
    requires c in s.procs && CallEnabled(cfg, s, c, step)
    ensures var s' := CallApply(cfg, s, c, step);
            && c in s'.procs && s'.nextName >= s.nextName + (if step.Journal? then 1 else 0)
            && Claims(s'.procs[c]) <= Claims(s.procs[c]) + if step.Journal? then ChunkFiles(s.nextName) else {}
  {
    match step
    case Commit =>
    case RenameNext =>
    case _ =>
  }

  lemma {:induction false} OwnClaims(cfg: Config, s: State, c: nat, step: CallStep)
    requires Inv(s) && c in s.procs && CallEnabled(cfg, s, c, step)
    ensures var s' := CallApply(cfg, s, c, step);
            && s.nextName <= s'.nextName
            && forall f :: Claimed(s', Some(c), f) ==>
                 IsCore(f) && (Claimed(s, Some(c), f) || s.nextName <= f.id < s'.nextName)
  {
    ClaimsGrow(cfg, s, c, step);
    assert forall f :: Claimed(s, Some(c), f) ==> IsCore(f);
  }

  /** An intent is as it was, or lists what its call claims. */
  lemma {:induction false} IntentsGrow(cfg: Config, s: State, c: nat, step: CallStep)
    requires c in s.procs && CallEnabled(cfg, s, c, step)
    ensures var s' := CallApply(cfg, s, c, step);
            forall t: nat :: t in s'.intents ==>
              || (t in s.intents && s'.intents[t] == s.intents[t])
              || Core(s'.intents[t]) <= Claims(s.procs[c]) + (if step.Journal? then ChunkFiles(s.nextName) else {})
  {
    match step
    case Commit =>
    case RenameNext =>
    case Journal =>
    case _ =>
  }

  lemma {:induction false} OwnIntents(cfg: Config, s: State, c: nat, step: CallStep)
    requires Inv(s) && c in s.procs && CallEnabled(cfg, s, c, step)
    ensures var s' := CallApply(cfg, s, c, step);
            forall f :: f in Intended(s') && IsCore(f) ==> f in Intended(s) || f.id < s'.nextName
  {
    var s' := CallApply(cfg, s, c, step);
    ClaimsGrow(cfg, s, c, step);
    IntentsGrow(cfg, s, c, step);
    forall f | f in Intended(s') && IsCore(f)
      ensures f in Intended(s) || f.id < s'.nextName
    {
      var t: nat :| t in s'.intents && f in s'.intents[t];
      assert f in Core(s'.intents[t]);
      assert f in Claims(s.procs[c]) ==> Claimed(s, Some(c), f);
    }
  }

  lemma {:induction false} CrashNames(s: State, c: nat, orphan: bool)
    requires Inv(s) && WillPublish(s, c)
    ensures NamesStep(s, DoCommitCrash(s, c, orphan), Some(c))
  {
    var p, s' := s.procs[c], DoCommitCrash(s, c, orphan);
    forall f | OnDisk(s', f) && IsCore(f)
      ensures OnDisk(s, f) || (Claimed(s, Some(c), f) && !Claimed(s', Some(c), f))
    {
      var q: nat :| q in s'.manifests && f in s'.manifests[q].files;
      if q !in s.manifests { assert PhaseOk(p) && f in p.staged; }
    }
    forall f | f in Intended(s') && IsCore(f)
      ensures f in Intended(s) || f.id < s.nextName
    {
      if f !in Intended(s) { assert Claimed(s, Some(c), f); }
    }
  }

  lemma {:induction false} PublishNames(cfg: Config, s: State, c: nat)
    requires Inv(s) && Ready(s, c)
    ensures NamesStep(s, DoCommit(s, c), Some(c))
  {
    var s' := DoCommit(s, c);
    assert CallEnabled(cfg, s, c, Commit) && s' == CallApply(cfg, s, c, Commit);
    OwnClaims(cfg, s, c, Commit);
    OwnIntents(cfg, s, c, Commit);
    OthersClaims(cfg, s, c, Commit);
    assert PhaseOk(s.procs[c]);
    forall f | OnDisk(s', f) && IsCore(f)
      ensures OnDisk(s, f) || (Claimed(s, Some(c), f) && !Claimed(s', Some(c), f))
    {
      NewOnDisk(s, c, f);
    }
  }

  lemma {:induction false} NewOnDisk(s: State, c: nat, f: File)
    requires Ready(s, c) && PhaseOk(s.procs[c]) && IsCore(f) && OnDisk(DoCommit(s, c), f)
    ensures OnDisk(s, f) || (Claimed(s, Some(c), f) && !Claimed(DoCommit(s, c), Some(c), f))
  {
    var s', p := DoCommit(s, c), s.procs[c];
    var q: nat :| q in s'.manifests && f in s'.manifests[q].files;
    if q !in s.manifests { assert f in p.staged; }
  }

  ghost predicate WritesManifest(step: WriterStep) { step.Publish? || (step.Stop? && step.left.Some?) }

  /** The steps of a writer that write no manifest file. */
  lemma {:induction false} WriterNames(cfg: Config, s: State, step: WriterStep)
    requires Inv(s) && WriterEnabled(cfg, s, step) && !WritesManifest(step)
    ensures NamesStep(s, WriterApply(cfg, s, step), None)
  {
    var s' := WriterApply(cfg, s, step);
    WriterMoves(cfg, s, step);
    FewerOnDisk(s, s');
    assert forall f :: Claimed(s, None, f) ==> f.id < s.nextName;
    assert forall f :: f in CurrentFiles(s) ==> OnDisk(s, f);
  }

  /** A manifest of what the writer kept and named. */
  lemma {:induction false} WriterOnDisk(s: State, s': State, rows: Rows, f: File)
    requires s.lock.HeldByWriter? && s.lock.w.Staging? && IsCore(f) && OnDisk(s', f)
    requires s'.manifests == s.manifests[s.pointer + 1 := WriterManifest(s, rows)]
    ensures InUse(s, f) || Claimed(s, None, f)
  {
    var q: nat :| q in s'.manifests && f in s'.manifests[q].files;
    if q != s.pointer + 1 { assert q in s.manifests && f in s.manifests[q].files; }
  }

  lemma {:induction false} WriterPublishNames(s: State, rows: Rows)
    requires Inv(s) && CanPublish(s, rows)
    ensures NamesStep(s, DoPublish(s, rows), None)
  {
    var s' := DoPublish(s, rows);
    forall f | OnDisk(s', f) && IsCore(f)
      ensures InUse(s, f) || Claimed(s, None, f)
    {
      WriterOnDisk(s, s', rows, f);
    }
  }

  lemma {:induction false} StopNames(cfg: Config, s: State, left: Option<Rows>)
    requires Inv(s) && WriterEnabled(cfg, s, Stop(left))
    ensures NamesStep(s, DoStop(s, left), None)
  {
    var s' := DoStop(s, left);
    if left.None? {
      WriterNames(cfg, s, Stop(left));
    } else {
      forall f | OnDisk(s', f) && IsCore(f)
        ensures InUse(s, f) || Claimed(s, None, f)
      {
        WriterOnDisk(s, s', left.value, f);
      }
    }
  }

  lemma {:induction false} ActionPhase(cfg: Config, s: State, c: nat, step: CallStep)
    requires Inv(s) && c in s.procs && CallEnabled(cfg, s, c, step)
    ensures c in CallApply(cfg, s, c, step).procs && PhaseOk(CallApply(cfg, s, c, step).procs[c])
  {
    assert PhaseOk(s.procs[c]);
    StagedIsCore(s, c);
    match step
    case Commit =>
    case RenameNext =>
    case _ =>
  }

  lemma {:induction false} StagedIsCore(s: State, c: nat)
    requires Inv(s) && c in s.procs
    ensures s.procs[c].Rewriting? ==> Core(s.procs[c].staged) == s.procs[c].staged
  {
    if s.procs[c].Rewriting? {
      forall f | f in s.procs[c].staged
        ensures IsCore(f)
      {
        assert Claimed(s, Some(c), f);
      }
    }
  }

  lemma {:induction false} StagedKept(cfg: Config, s: State, c: nat, step: CallStep)
    requires Inv(s) && c in s.procs && CallEnabled(cfg, s, c, step)
    ensures c in CallApply(cfg, s, c, step).procs && StagedOk(CallApply(cfg, s, c, step).procs[c])
  {
    var p := s.procs[c];
    assert StagedOk(p);
    match step
    case OpenScan(_, _) => assert Datas({}) == {};
    case Journal => JournalKept(s, c);
    case RenameNext => RenameKept(s, c);
    case Commit =>
    case _ =>
  }

  lemma {:induction false} JournalKept(s: State, c: nat)
    requires Inv(s) && c in s.procs && s.procs[c].Rewriting? && s.procs[c].todo > 0 && s.procs[c].chunk.None?
    ensures StagedOk(DoJournal(s, c).procs[c])
  {
    assert StagedOk(s.procs[c]);
    assert Claimed(s, Some(c), Data(s.nextName)) ==> s.nextName < s.nextName;
  }

  lemma {:induction false} RenameKept(s: State, c: nat)
    requires c in s.procs && s.procs[c].Rewriting? && s.procs[c].chunk.Some? && StagedOk(s.procs[c])
    ensures StagedOk(DoRename(s, c).procs[c])
  {
    var p := s.procs[c];
    OneMoreGroup(p.staged, p.chunk.value.id);
  }

  lemma {:induction false} OneMoreGroup(fs: set<File>, id: nat)
    requires Data(id) !in fs && WholeGroups(fs)
    ensures WholeGroups(fs + ChunkFiles(id)) && |Datas(fs + ChunkFiles(id))| == |Datas(fs)| + 1
  {
    assert Datas(fs + ChunkFiles(id)) == Datas(fs) + {Data(id)};
  }

  lemma {:induction false} InvStep(cfg: Config, s: State, a: Action)
    requires Inv(s) && Enabled(cfg, s, a)
    ensures Inv(Apply(cfg, s, a))
  {
    var s' := Apply(cfg, s, a);
    ActionNames(cfg, s, a);
    NamesKept(s, s', Actor(a));
    match a
    case Call(c, step) =>
      CallMoves(cfg, s, c, step);
      ActionPhase(cfg, s, c, step);
      StagedKept(cfg, s, c, step);
    case Write(step) =>
      WriterMoves(cfg, s, step);
  }

  /** A manifest file that a step writes has data where it has rows. */
  lemma {:induction false} DataKept(cfg: Config, s: State, a: Action)
    requires Inv(s) && RowsHaveData(s) && Enabled(cfg, s, a)
    ensures RowsHaveData(Apply(cfg, s, a))
  {
    match a
    case Call(c, step) =>
      if step.Commit? || step.CommitCrash? {
        StagedData(s, c);
        NewManifestOnly(cfg, s, c, step);
      } else {
        QuietManifests(cfg, s, c, step);
      }
    case Write(step) => WriterDataKept(cfg, s, step);
  }

  lemma {:induction false} NewManifestOnly(cfg: Config, s: State, c: nat, step: CallStep)
    requires c in s.procs && CallEnabled(cfg, s, c, step) && (step.Commit? || step.CommitCrash?)
    ensures forall q: nat :: q in CallApply(cfg, s, c, step).manifests ==>
              || (q in s.manifests && CallApply(cfg, s, c, step).manifests[q] == s.manifests[q])
              || CallApply(cfg, s, c, step).manifests[q] == NewManifest(s, c)
  {
  }

  lemma {:induction false} WriterDataKept(cfg: Config, s: State, step: WriterStep)
    requires RowsHaveData(s) && WriterEnabled(cfg, s, step)
    ensures RowsHaveData(WriterApply(cfg, s, step))
  {
    match step
    case Publish(_) =>
    case Stop(_) =>
    case _ =>
  }

  /** In every run, rows are in data files. */
  lemma {:induction false} DataRun(cfg: Config, run: seq<State>, j: nat)
    requires IsRun(cfg, run) && j < |run|
    ensures RowsHaveData(run[j])
    decreases j
  {
    if j > 0 {
      DataRun(cfg, run, j - 1);
      InvRun(cfg, run, j - 1);
      assert Next(cfg, run[j - 1], run[j - 1 + 1]);
      var a :| Enabled(cfg, run[j - 1], a) && run[j] == Apply(cfg, run[j - 1], a);
      DataKept(cfg, run[j - 1], a);
    }
  }

  lemma {:induction false} StagedData(s: State, c: nat)
    requires Inv(s) && Ready(s, c)
    ensures NewManifest(s, c).rows != map[] ==> HasData(NewManifest(s, c).files)
  {
    var p := s.procs[c];
    assert StagedOk(p);
    if p.scan.rows != map[] {
      SomeData(p.staged);
      var f :| f in p.staged && f.Data?;
      assert f in NewManifest(s, c).files;
    }
  }

  /** Names stay apart in every run of any kind. */
  lemma {:induction false} InvRun(cfg: Config, run: seq<State>, j: nat)
    requires IsRun(cfg, run) && j < |run|
    ensures Inv(run[j])
    decreases j
  {
    if j == 0 {
      InitInv(cfg, run[0]);
    } else {
      InvRun(cfg, run, j - 1);
      assert Next(cfg, run[j - 1], run[j - 1 + 1]);
      var a :| Enabled(cfg, run[j - 1], a) && run[j] == Apply(cfg, run[j - 1], a);
      InvStep(cfg, run[j - 1], a);
    }
  }

  // ---- conflicts ----

  /** A conflict, and the rollback after it, leave every manifest and every file of a manifest alone,
      with any number of compactors. */
  lemma {:induction false} ConflictIsHarmless(cfg: Config, run: seq<State>, j: nat, c: nat, s': State)
    requires IsRun(cfg, run) && j < |run| && c in run[j].procs
    requires || (Ready(run[j], c) && run[j].pointer != run[j].procs[c].pinned && s' == DoCommit(run[j], c))
             || (run[j].procs[c].RollingBack? && run[j].procs[c].seqno == 0 && s' == DoRollbackFiles(run[j], c))
             || (run[j].procs[c].Deleting? && run[j].procs[c].seqno == 0 && s' == DoRollbackManifest(run[j], c))
    ensures s'.pointer == run[j].pointer && s'.manifests == run[j].manifests
    ensures forall f :: OnDisk(run[j], f) && f in run[j].files ==> f in s'.files
  {
    var s := run[j];
    InvRun(cfg, run, j);
    if s.procs[c].RollingBack? {
      assert PhaseOk(s.procs[c]);
      forall f | f in s.procs[c].staged
        ensures !OnDisk(s, f)
      {
        assert Claimed(s, Some(c), f);
      }
    }
  }

  // ---- progress of one call ----

  function MonusAttempts(a: nat): nat {
    if a < MAX_COMMIT_ATTEMPTS then MAX_COMMIT_ATTEMPTS - a else 0
  }

  /** The renames a row group still needs, and one for the write. */
  function ChunkWork(chunk: Option<Chunk>): nat {
    if chunk.Some? && chunk.value.done < 4 then 4 - chunk.value.done else 0
  }

  /** Attempts left, stage of the attempt, staging work left. */
  function Rank(p: Phase): (nat, nat, nat) {
    match p
    case Idle(a) => (MonusAttempts(a), 6, 0)
    case Cleaning(a, _) => (MonusAttempts(a), 5, 0)
    case Pinned(a, _, _) => (MonusAttempts(a), 4, 0)
    case Rewriting(a, _, _, _, _, todo, _, chunk) => (MonusAttempts(a), 3, 5 * todo + ChunkWork(chunk))
    case RollingBack(a, _, _, _, _) => (MonusAttempts(a), 2, 0)
    case Deleting(a, _, _, _) => (MonusAttempts(a), 1, 0)
    case Published(_, _) => (0, 1, 0)
    case Finished(_) => (0, 0, 0)
  }

  predicate Below(x: (nat, nat, nat), y: (nat, nat, nat)) {
    x.0 < y.0 || (x.0 == y.0 && (x.1 < y.1 || (x.1 == y.1 && x.2 < y.2)))
  }

  /** Every step of a call brings it closer to its end, nobody else can set it back, and it is always
      within its three attempts. */
  lemma {:induction false} CallsTerminate(cfg: Config, s: State, a: Action, c: nat)
    requires Inv(s) && Enabled(cfg, s, a) && c in s.procs && a != Call(c, Restart)
    ensures c in Apply(cfg, s, a).procs && PhaseOk(Apply(cfg, s, a).procs[c])
    ensures Actor(a) == Some(c) ==>
              var x, y := Rank(Apply(cfg, s, a).procs[c]), Rank(s.procs[c]);
              x.0 < y.0 || (x.0 == y.0 && (x.1 < y.1 || (x.1 == y.1 && x.2 < y.2)))
    ensures Actor(a) != Some(c) ==> Apply(cfg, s, a).procs[c] == s.procs[c]
  {
    assert PhaseOk(s.procs[c]);
    match a
    case Call(d, step) =>
      CallMoves(cfg, s, d, step);
      if d == c {
        ActionPhase(cfg, s, c, step);
        OwnStepDescends(cfg, s, c, step);
      }
    case Write(step) =>
      WriterMoves(cfg, s, step);
  }

  lemma {:induction false} OwnStepDescends(cfg: Config, s: State, c: nat, step: CallStep)
    requires c in s.procs && CallEnabled(cfg, s, c, step) && PhaseOk(s.procs[c]) && step != Restart
    requires c in CallApply(cfg, s, c, step).procs
    ensures Below(Rank(CallApply(cfg, s, c, step).procs[c]), Rank(s.procs[c]))
  {
    if s.procs[c].Rewriting? && (step.Journal? || step.WriteParts? || step.RenameNext?) {
      StagingDescends(cfg, s, c, step);
    } else {
      match step
      case Commit =>
      case _ =>
    }
  }

  lemma {:induction false} StagingDescends(cfg: Config, s: State, c: nat, step: CallStep)
    requires c in s.procs && CallEnabled(cfg, s, c, step) && s.procs[c].Rewriting? && PhaseOk(s.procs[c])
    requires step.Journal? || step.WriteParts? || step.RenameNext?
    requires c in CallApply(cfg, s, c, step).procs
    ensures Below(Rank(CallApply(cfg, s, c, step).procs[c]), Rank(s.procs[c]))
  {
    var p := s.procs[c];
    var p' := CallApply(cfg, s, c, step).procs[c];
    assert p'.RollingBack? || 5 * p'.todo + ChunkWork(p'.chunk) < 5 * p.todo + ChunkWork(p.chunk) by {
      match step
      case Journal => assert p'.todo == p.todo - 1 && ChunkWork(p'.chunk) == 4;
      case WriteParts => assert p'.todo == p.todo && ChunkWork(p'.chunk) == 3;
      case RenameNext =>
    }
  }

  /** A call tries again only after a conflict, which is a pointer that has moved since the pin, and only twice;
      any other failure ends it. */
  lemma {:induction false} RetriesIffPointerMoved(cfg: Config, s: State, c: nat, step: CallStep)
    requires c in s.procs && CallEnabled(cfg, s, c, step) && c in CallApply(cfg, s, c, step).procs
    ensures var p, p' := s.procs[c], CallApply(cfg, s, c, step).procs[c];
            && (p'.RollingBack? ==> (p'.conflict <==> step.Commit? && s.pointer != p.pinned))
            && (p'.Deleting? ==> p.RollingBack? && p'.conflict == p.conflict && p'.attempt == p.attempt)
            && (step.RollbackManifest? ==>
                  p' == if !p.conflict then Finished(Failed)
                        else if p.attempt == 0 then Idle(1)
                        else if p.attempt == 1 then Idle(2)
                        else Finished(GaveUp))
  {
    match step
    case Commit =>
    case RenameNext =>
    case _ =>
  }

  /** A step of a call that is not a failure or a death. */
  predicate Proceeds(step: CallStep) {
    !step.PinFault? && !step.StageFault? && !step.CommitFault? && !step.CommitCrash? && !step.Crash?
  }

  /** Waiting for the lock. */
  ghost predicate Waits(s: State, p: Phase) {
    !s.lock.Free? && (p.Idle? || (p.Rewriting? && p.todo == 0 && p.chunk.None? && p.scan.anyRead))
  }

  /** A call cleans up under the lock. */
  ghost predicate LocksOk(s: State) {
    forall c: nat :: c in s.procs && s.procs[c].Cleaning? ==> s.lock == HeldByCall(c)
  }

  lemma {:induction false} LocksOkStep(cfg: Config, s: State, a: Action)
    requires LocksOk(s) && Enabled(cfg, s, a)
    ensures LocksOk(Apply(cfg, s, a))
  {
    match a
    case Call(c, step) =>
      CallMoves(cfg, s, c, step);
      OwnLock(cfg, s, c, step);
    case Write(step) => WriterMoves(cfg, s, step);
  }

  lemma {:induction false} OwnLock(cfg: Config, s: State, c: nat, step: CallStep)
    requires c in s.procs && CallEnabled(cfg, s, c, step) && LocksOk(s)
    ensures var s' := CallApply(cfg, s, c, step);
            && c in s'.procs && (s'.procs[c].Cleaning? ==> s'.lock == HeldByCall(c))
            && (s'.lock == s.lock || s.lock.Free? || s.lock == HeldByCall(c))
  {
    match step
    case Commit =>
    case RenameNext =>
    case _ =>
  }

  lemma {:induction false} LocksRun(cfg: Config, run: seq<State>, j: nat)
    requires IsRun(cfg, run) && j < |run|
    ensures LocksOk(run[j])
    decreases j
  {
    if j > 0 {
      LocksRun(cfg, run, j - 1);
      assert Next(cfg, run[j - 1], run[j - 1 + 1]);
      var a :| Enabled(cfg, run[j - 1], a) && run[j] == Apply(cfg, run[j - 1], a);
      LocksOkStep(cfg, run[j - 1], a);
    }
  }

  /** In no run is a call ever stuck. */
  lemma {:induction false} NeverStuck(cfg: Config, run: seq<State>, j: nat, c: nat)
    requires IsRun(cfg, run) && j < |run|
    requires c in run[j].procs && !run[j].procs[c].Finished? && !Waits(run[j], run[j].procs[c])
    ensures exists step :: CallEnabled(cfg, run[j], c, step) && !step.PinFault? && !step.StageFault?
                        && !step.CommitFault? && !step.CommitCrash? && !step.Crash?
    ensures run[j].procs[c].Pinned? && run[j].pointer in run[j].manifests ==>
              exists todo: nat, anyRead: bool :: CallEnabled(cfg, run[j], c, OpenScan(todo, anyRead))
  {
    InvRun(cfg, run, j);
    LocksRun(cfg, run, j);
    DataRun(cfg, run, j);
    CallCanProceed(cfg, run[j], c);
    var step :| Proceeds(step) && CallEnabled(cfg, run[j], c, step);
  }

  /** No call is ever stuck: unless it waits for the lock, it can proceed without failing, and a scan, too, if
      the manifest is there. */
  lemma {:induction false} CallCanProceed(cfg: Config, s: State, c: nat)
    requires Inv(s) && LocksOk(s) && RowsHaveData(s)
    requires c in s.procs && !s.procs[c].Finished? && !Waits(s, s.procs[c])
    ensures exists step :: Proceeds(step) && CallEnabled(cfg, s, c, step)
    ensures s.procs[c].Pinned? && s.pointer in s.manifests ==>
              exists todo: nat, anyRead: bool :: CallEnabled(cfg, s, c, OpenScan(todo, anyRead))
  {
    var p := s.procs[c];
    assert PhaseOk(p);
    match p
    case Idle(_) => PinCanStart(cfg, s, c);
    case Cleaning(_, _) => assert CallEnabled(cfg, s, c, PinFinish);
    case Pinned(_, _, _) =>
      assert CallEnabled(cfg, s, c, SkipScan);
      if s.pointer in s.manifests {
        var todo: nat := if s.manifests[s.pointer].rows == map[] then 0 else 1;
        var read: bool :| read == HasData(CurrentFiles(s));
        assert CallEnabled(cfg, s, c, OpenScan(todo, read));
      }
    case Rewriting(_, _, _, _, _, _, _, _) => StagingCanProceed(cfg, s, c);
    case RollingBack(_, _, _, _, _) => assert CallEnabled(cfg, s, c, RollbackFiles);
    case Deleting(_, _, _, _) => assert CallEnabled(cfg, s, c, RollbackManifest);
    case Published(_, _) => assert CallEnabled(cfg, s, c, DropIntent);
  }

  lemma {:induction false} StagingCanProceed(cfg: Config, s: State, c: nat)
    requires c in s.procs && s.procs[c].Rewriting? && PhaseOk(s.procs[c]) && !Waits(s, s.procs[c])
    ensures exists step :: Proceeds(step) && CallEnabled(cfg, s, c, step)
  {
    var p := s.procs[c];
    if p.chunk.Some? {
      if p.chunk.value.done == 0 {
        assert CallEnabled(cfg, s, c, WriteParts);
      } else {
        assert CallEnabled(cfg, s, c, RenameNext);
      }
    } else if p.todo > 0 {
      assert CallEnabled(cfg, s, c, Journal);
    } else if p.scan.anyRead {
      assert CallEnabled(cfg, s, c, Commit);
    } else {
      assert CallEnabled(cfg, s, c, StopEmpty);
    }
  }

  lemma {:induction false} PinCanStart(cfg: Config, s: State, c: nat)
    requires c in s.procs && s.procs[c].Idle? && s.lock.Free?
    ensures exists step :: Proceeds(step) && CallEnabled(cfg, s, c, step)
  {
    if s.manifests == map[] {
      assert CallEnabled(cfg, s, c, PinNothing);
    } else if s.pointer in s.manifests {
      assert CallEnabled(cfg, s, c, PinStart(s.pointer));
    } else {
      var some: nat :| some in s.manifests;
      var at := HighestKey(s.manifests.Keys);
      assert CallEnabled(cfg, s, c, PinStart(at));
    }
  }

  lemma {:induction false} HighestKey(keys: set<nat>) returns (m: nat)
    requires keys != {}
    ensures m in keys && forall k: nat :: k in keys ==> k <= m
    decreases keys
  {
    var some :| some in keys;
    m := some;
    var rest := keys - {some};
    assert forall k: nat :: k in keys ==> k == some || k in rest;
    if rest != {} {
      var n := HighestKey(rest);
      if n > m { m := n; }
    }
  }
}
