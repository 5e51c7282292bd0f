// What a single compactor, and writers that may give up or die, keep in every run: the committed manifests,
// their row groups, and all their files.
module CommitSafety {
  import opened Collections
  import opened CommitProtocol

  /** Committed manifests are safe: at most one compactor, and with one no commit fails after it has chosen
      its sequence and no writer gives up. */
  predicate HistoryGuarded(cfg: Config) {
    cfg.compactors == 0 || (cfg.compactors == 1 && !cfg.commitFails && !cfg.writersGiveUp)
  }

  /** Row groups are safe: at most one compactor, and with one no writer gives up. */
  predicate RowGroupsGuarded(cfg: Config) {
    cfg.compactors == 0 || (cfg.compactors == 1 && !cfg.writersGiveUp)
  }

  /** All files are safe: at most one compactor, and with one no failing commit, and no call or writer that
      gives up half-way, dies or leaves its intent. */
  predicate AllFilesGuarded(cfg: Config) {
    || cfg.compactors == 0
    || (cfg.compactors == 1 && !cfg.commitFails && !cfg.callsDie && !cfg.writersGiveUp && !cfg.writersLeave)
  }

  /** The files whose place is guarded. */
  predicate Safe(cfg: Config, f: File) { IsCore(f) || AllFilesGuarded(cfg) }

  /** The files of every committed manifest are there: all of them, or those of the row groups. */
  ghost predicate InPlace(s: State, all: bool) {
    forall f :: CommittedRef(s, f) && (all || IsCore(f)) ==> f in s.files
  }

  /** A committed manifest refers to the file, or the writer at work has read it in one. */
  ghost predicate Needed(s: State, f: File) { CommittedRef(s, f) || f in WriterKept(s.lock) }

  /** A writer has cleaned the intents and has not moved the pointer yet. */
  predicate Preparing(lock: Lock) { lock.HeldByWriter? && !lock.w.Moved? }

  /** No intent lists a file that is needed. */
  ghost predicate Harmless(cfg: Config, s: State) {
    forall f :: f in Intended(s) && Safe(cfg, f) ==> !Needed(s, f)
  }

  /** Of the committed manifests only the current one refers to the file. */
  ghost predicate OnlyCurrent(s: State, f: File) {
    forall q: nat :: q in s.manifests && q <= s.pointer && f in s.manifests[q].files ==> q == s.pointer
  }

  ghost predicate IntentsOk(cfg: Config, s: State) {
    && (Preparing(s.lock) ==> Harmless(cfg, s))
    && forall f :: f in Intended(s) && Safe(cfg, f) ==> OnlyCurrent(s, f)
  }

  ghost predicate NeededInPlace(cfg: Config, s: State) {
    forall f :: Needed(s, f) && Safe(cfg, f) ==> f in s.files
  }

  function TxnOf(p: Phase): Option<nat> {
    if p.Rewriting? || p.RollingBack? || p.Deleting? || p.Published? then Some(p.txn) else None
  }

  function WriterTxn(lock: Lock): Option<nat> {
    if lock.HeldByWriter? && !lock.w.Cleaned? then Some(lock.w.txn) else None
  }

  /** When nothing fails or dies, every intent is that of a call or writer at work. */
  ghost predicate Tracked(cfg: Config, s: State) {
    AllFilesGuarded(cfg) && 0 in s.procs ==>
      forall t: nat :: t in s.intents ==> TxnOf(s.procs[0]) == Some(t) || WriterTxn(s.lock) == Some(t)
  }

  function DoneFiles(p: Phase): set<File> {
    if p.Rewriting? && p.chunk.Some? then
      var ch := p.chunk.value;
      (if ch.done >= 2 then {Data(ch.id)} else {}) + (if ch.done >= 3 then {Meta(ch.id)} else {})
    else {}
  }

  /** No manifest file above the pointer. */
  ghost predicate Trimmed(s: State) {
    forall q: nat :: q in s.manifests ==> q <= s.pointer
  }

  ghost predicate StillPinned(cfg: Config, s: State, indexes: set<File>) {
    Harmless(cfg, s) && indexes <= CurrentFiles(s)
  }

  ghost predicate SoloPhase(cfg: Config, s: State, p: Phase) {
    match p
    case Idle(_) => true
    case Cleaning(_, indexes) => s.intents == map[] && s.lock == HeldByCall(0) && indexes <= CurrentFiles(s)
    case Pinned(_, pinned, indexes) => Trimmed(s) && (pinned == s.pointer ==> StillPinned(cfg, s, indexes))
    case Rewriting(_, pinned, indexes, _, _, _, staged, _) =>
      && Trimmed(s) && (pinned == s.pointer ==> StillPinned(cfg, s, indexes))
      && (pinned == s.pointer && !Preparing(s.lock) ==> staged + DoneFiles(p) <= s.files)
    case RollingBack(_, _, staged, seqno, _) =>
      Trimmed(s) && (!cfg.commitFails ==> seqno == 0)
    case Deleting(_, _, seqno, _) => Trimmed(s) && (!cfg.commitFails ==> seqno == 0)
    case Published(_, _) => Trimmed(s)
    case Finished(_) => true
  }

  /** The current manifest is there, or none that is as high is left. */
  ghost predicate PointerOk(cfg: Config, s: State) {
    cfg.compactors > 0 ==>
      && (s.pointer !in s.manifests ==> forall q: nat :: q in s.manifests ==> q < s.pointer)
      && (HistoryGuarded(cfg) ==> s.pointer in s.manifests || s.manifests == map[])
  }

  ghost predicate WriterOk(cfg: Config, s: State) {
    AllFilesGuarded(cfg) ==>
      && WellNamed(s)
      && (s.lock.HeldByWriter? && s.lock.w.Staging? ==>
            PlanOk(CurrentFiles(s), s.pointer + 1, s.lock.w.kept, s.lock.w.names))
  }

  ghost predicate SoloInv(cfg: Config, s: State) {
    && s.procs.Keys <= {0} && (cfg.compactors == 0 ==> s.procs == map[])
    && PointerOk(cfg, s) && NeededInPlace(cfg, s) && IntentsOk(cfg, s) && Tracked(cfg, s) && WriterOk(cfg, s)
    && (s.lock.HeldByCall? ==> 0 in s.procs && s.procs[0].Cleaning?)
    && (0 in s.procs ==> SoloPhase(cfg, s, s.procs[0]))
  }

  // ---- lemmas about names ----

  lemma {:induction false} NotNeeded(s: State, who: Option<nat>, f: File)
    requires Inv(s) && Claimed(s, who, f)
    ensures !Needed(s, f)
  {
    assert !InUse(s, f);
    assert CommittedRef(s, f) ==> OnDisk(s, f);
  }

  lemma {:induction false} NotYetNamed(s: State, f: File)
    requires Inv(s) && IsCore(f) && f.id >= s.nextName
    ensures !Needed(s, f)
  {
    if Needed(s, f) { assert InUse(s, f); }
  }

  /** What a writer adds is needed by nobody yet. */
  lemma {:induction false} PlannedIsNew(cfg: Config, s: State, f: File)
    requires Inv(s) && WriterOk(cfg, s) && s.lock.HeldByWriter? && s.lock.w.Staging?
    requires f in s.lock.w.names && Safe(cfg, f)
    ensures !Needed(s, f)
  {
    if IsCore(f) {
      assert Claimed(s, None, f);
      NotNeeded(s, None, f);
    } else {
      ExtraIsNew(s, s.lock.w.kept, s.lock.w.names, f);
    }
  }

  lemma {:induction false} NewIsNotKept(fs: set<File>, f: File)
    requires IsNewVersion(fs, f)
    ensures !IsKeptUp(fs, f)
  {
  }

  lemma {:induction false} ExtraIsNew(s: State, kept: set<File>, names: set<File>, f: File)
    requires WellNamed(s) && PlanOk(CurrentFiles(s), s.pointer + 1, kept, names) && f in names && !IsCore(f)
    ensures !CommittedRef(s, f) && f !in kept
  {
    assert forall g :: g in CurrentFiles(s) ==> CommittedRef(s, g);
    if CommittedRef(s, f) {
      var q: nat :| q in s.manifests && q <= s.pointer && f in s.manifests[q].files;
      assert ManifestOk(q, s.manifests[q]);
      if f.Deletion? {
        NewIsNotKept(CurrentFiles(s), f);
      }
    }
  }

  // ---- steps that leave the committed manifests ----

  ghost predicate SameCommitted(s: State, s': State) {
    && s'.pointer == s.pointer
    && forall q: nat :: q <= s.pointer ==>
         && (q in s'.manifests <==> q in s.manifests)
         && (q in s.manifests ==> s'.manifests[q] == s.manifests[q])
  }

  ghost predicate NewManifestsOk(s: State) {
    forall q: nat :: q in s.manifests && q > s.pointer ==> ManifestOk(q, s.manifests[q])
  }

  /** Manifest files above the pointer do not count. */
  lemma {:induction false} CommittedKept(s: State, s': State)
    requires SameCommitted(s, s')
    ensures forall f :: CommittedRef(s', f) <==> CommittedRef(s, f)
    ensures forall f :: OnlyCurrent(s, f) ==> OnlyCurrent(s', f)
    ensures CurrentFiles(s') == CurrentFiles(s)
    ensures WellNamed(s) && NewManifestsOk(s') ==> WellNamed(s')
  {
    forall f
      ensures CommittedRef(s', f) <==> CommittedRef(s, f)
    {
      if CommittedRef(s, f) { CommittedStays(s, s', f); }
      if CommittedRef(s', f) { CommittedStays(s', s, f); }
    }
    forall f | OnlyCurrent(s, f)
      ensures OnlyCurrent(s', f)
    {
      forall q: nat | q in s'.manifests && q <= s'.pointer && f in s'.manifests[q].files
        ensures q == s'.pointer
      {
        assert q in s.manifests;
      }
    }
  }

  lemma {:induction false} CommittedStays(s: State, s': State, f: File)
    requires SameCommitted(s, s') && CommittedRef(s, f)
    ensures CommittedRef(s', f)
  {
    var q: nat :| q in s.manifests && q <= s.pointer && f in s.manifests[q].files;
    assert q in s'.manifests && f in s'.manifests[q].files;
  }

  // ---- the steps of a writer ----

  /** Manifests and pointer stay, and so does what is needed; the lock may move. */
  lemma {:induction false} SoloFrame(cfg: Config, s: State, s': State)
    requires SoloInv(cfg, s) && s'.pointer == s.pointer && s'.manifests == s.manifests
    requires s'.procs.Keys == s.procs.Keys && s'.lock == s.lock
    requires forall f :: f in s.files && Needed(s, f) && Safe(cfg, f) ==> f in s'.files
    requires forall f :: f in Intended(s') && Safe(cfg, f) ==> f in Intended(s) || !Needed(s, f)
    requires 0 in s'.procs ==> SoloPhase(cfg, s', s'.procs[0])
    requires s.lock.HeldByCall? ==> 0 in s'.procs && s'.procs[0].Cleaning?
    requires Tracked(cfg, s')
    ensures SoloInv(cfg, s')
  {
    assert forall f :: CommittedRef(s', f) <==> CommittedRef(s, f);
    assert CurrentFiles(s') == CurrentFiles(s);
    forall f | f in Intended(s') && Safe(cfg, f)
      ensures OnlyCurrent(s', f)
    {
      if f in Intended(s) { assert OnlyCurrent(s, f); }
    }
  }

  lemma {:induction false} SoloTakeLock(cfg: Config, s: State)
    requires Inv(s) && SoloInv(cfg, s) && WriterEnabled(cfg, s, TakeLock)
    ensures SoloInv(cfg, WriterApply(cfg, s, TakeLock))
  {
    var s' := WriterApply(cfg, s, TakeLock);
    CommittedKept(s, s');
    assert Intended(s') == {};
    forall f | Needed(s', f) && Safe(cfg, f)
      ensures f in s'.files
    {
      if f in Intended(s) { assert OnlyCurrent(s, f); }
    }
  }

  lemma {:induction false} SoloPlan(cfg: Config, s: State, step: WriterStep)
    requires Inv(s) && SoloInv(cfg, s) && step.Plan? && WriterEnabled(cfg, s, step)
    ensures SoloInv(cfg, WriterApply(cfg, s, step))
  {
    var s' := WriterApply(cfg, s, step);
    CommittedKept(s, s');
    assert Intended(s') == Intended(s);
    assert forall f :: f in step.kept ==> CommittedRef(s, f);
    assert s.pointer in s.manifests ==> s.pointer in s'.manifests;
    if s.manifests == map[] { assert s'.manifests == map[]; }
  }

  lemma {:induction false} SoloStage(cfg: Config, s: State, step: WriterStep)
    requires Inv(s) && SoloInv(cfg, s) && step.Stage? && WriterEnabled(cfg, s, step)
    ensures SoloInv(cfg, WriterApply(cfg, s, step))
  {
    var s' := WriterApply(cfg, s, step);
    CommittedKept(s, s');
    assert forall f :: Needed(s', f) <==> Needed(s, f);
    forall f | f in Intended(s') && Safe(cfg, f)
      ensures !Needed(s', f) && OnlyCurrent(s', f)
    {
      if f in step.listed { PlannedIsNew(cfg, s, f); }
      NotNeededOnlyCurrent(s', f);
    }
  }

  lemma {:induction false} NotNeededOnlyCurrent(s: State, f: File)
    requires !Needed(s, f)
    ensures OnlyCurrent(s, f)
  {
  }

  lemma {:induction false} SoloPublish(cfg: Config, s: State, step: WriterStep)
    requires Inv(s) && SoloInv(cfg, s) && ScansOk(s) && step.Publish? && WriterEnabled(cfg, s, step)
    ensures SoloInv(cfg, WriterApply(cfg, s, step))
  {
    var s' := DoPublish(s, step.rows);
    PublishCommits(s, step.rows);
    if AllFilesGuarded(cfg) { PublishWellNamed(cfg, s, step.rows); }
    PublishIntents(cfg, s, step.rows);
    if 0 in s.procs { assert ScanOk(s, s.procs[0]); }
  }

  lemma {:induction false} PublishIntents(cfg: Config, s: State, rows: Rows)
    requires IntentsOk(cfg, s) && CanPublish(s, rows)
    ensures forall f :: f in Intended(DoPublish(s, rows)) && Safe(cfg, f) ==> OnlyCurrent(DoPublish(s, rows), f)
  {
    var s' := DoPublish(s, rows);
    forall f | f in Intended(s') && Safe(cfg, f)
      ensures OnlyCurrent(s', f)
    {
      assert f in Intended(s) && !Needed(s, f);
    }
  }

  /** A file is committed after a writer's publication if it was before or is among the new ones. */
  lemma {:induction false} PublishCommits(s: State, rows: Rows)
    requires CanPublish(s, rows)
    ensures forall f :: CommittedRef(DoPublish(s, rows), f) ==> Needed(s, f) || f in s.lock.w.names
  {
    var s' := DoPublish(s, rows);
    forall f | CommittedRef(s', f)
      ensures Needed(s, f) || f in s.lock.w.names
    {
      var q: nat :| q in s'.manifests && q <= s'.pointer && f in s'.manifests[q].files;
      if q != s'.pointer { assert q in s.manifests; }
    }
  }

  lemma {:induction false} PublishWellNamed(cfg: Config, s: State, rows: Rows)
    requires Inv(s) && WriterOk(cfg, s) && AllFilesGuarded(cfg) && CanPublish(s, rows)
    ensures WellNamed(DoPublish(s, rows))
  {
    var s', m := DoPublish(s, rows), WriterManifest(s, rows);
    var kept, names := s.lock.w.kept, s.lock.w.names;
    assert CurrentFiles(s') == m.files;
    WriterManifestOk(s, rows);
    forall f | CommittedRef(s', f) && f.Deletion? && Meta(f.id) in m.files
      ensures IsKeptUp(m.files, f)
    {
      if f !in m.files {
        DroppedDeletion(s, rows, f);
      }
    }
  }

  lemma {:induction false} WriterManifestOk(s: State, rows: Rows)
    requires WellNamed(s) && CanPublish(s, rows)
    requires PlanOk(CurrentFiles(s), s.pointer + 1, s.lock.w.kept, s.lock.w.names)
    ensures ManifestOk(s.pointer + 1, WriterManifest(s, rows))
  {
    assert forall f :: f in s.lock.w.kept ==> f in CurrentFiles(s);
    assert s.pointer in s.manifests ==> ManifestOk(s.pointer, s.manifests[s.pointer]);
  }

  lemma {:induction false} NotNamed(s: State, f: File)
    requires Inv(s) && s.lock.HeldByWriter? && s.lock.w.Staging? && InUse(s, f) && IsCore(f)
    ensures f !in s.lock.w.names
  {
    assert !Claimed(s, None, f);
  }

  /** An old deletion vector of a kept row group has been replaced by a later one. */
  lemma {:induction false} DroppedDeletion(s: State, rows: Rows, f: File)
    requires Inv(s) && WellNamed(s) && CanPublish(s, rows)
    requires PlanOk(CurrentFiles(s), s.pointer + 1, s.lock.w.kept, s.lock.w.names)
    requires CommittedRef(DoPublish(s, rows), f) && f.Deletion? && Meta(f.id) in WriterManifest(s, rows).files
    requires f !in WriterManifest(s, rows).files
    ensures IsKeptUp(WriterManifest(s, rows).files, f)
  {
    PublishCommits(s, rows);
    var meta, fs := Meta(f.id), WriterManifest(s, rows).files;
    var q: nat :| q in s.manifests && q <= s.pointer && f in s.manifests[q].files;
    assert ManifestOk(q, s.manifests[q]);
    assert OnDisk(s, meta);
    NotNamed(s, meta);
    assert meta in CurrentFiles(s) && IsKeptUp(CurrentFiles(s), f);
    var g :| g in CurrentFiles(s) && g.Deletion? && g.id == f.id && f.version <= g.version;
    assert IsKeptUp(fs, g);
    var h :| h in fs && h.Deletion? && h.id == g.id && g.version <= h.version;
    assert h.id == f.id && f.version <= h.version;
  }

  lemma {:induction false} SoloDone(cfg: Config, s: State)
    requires Inv(s) && SoloInv(cfg, s) && WriterEnabled(cfg, s, Done)
    ensures SoloInv(cfg, WriterApply(cfg, s, Done))
  {
    var s' := WriterApply(cfg, s, Done);
    CommittedKept(s, s');
    FewerIntents(cfg, s, s');
  }

  /** Dropping intents and giving the lock back do no harm. */
  lemma {:induction false} FewerIntents(cfg: Config, s: State, s': State)
    requires forall t: nat :: t in s'.intents ==> t in s.intents && s'.intents[t] == s.intents[t]
    requires s'.pointer == s.pointer && s'.manifests == s.manifests && (s'.lock == s.lock || s'.lock.Free?)
    ensures forall f :: f in Intended(s') ==> f in Intended(s)
    ensures Harmless(cfg, s) ==> Harmless(cfg, s')
  {
    CommittedKept(s, s');
  }

  /** A writer that leaves its intent behind, when there is no compaction that could not take it. */
  lemma {:induction false} SoloStop(cfg: Config, s: State, step: WriterStep)
    requires Inv(s) && SoloInv(cfg, s) && step.Stop? && WriterEnabled(cfg, s, step) && RowGroupsGuarded(cfg)
    ensures SoloInv(cfg, WriterApply(cfg, s, step))
  {
    var s' := WriterApply(cfg, s, step);
    if step.left.Some? && AllFilesGuarded(cfg) { WriterManifestOk(s, step.left.value); }
    CommittedKept(s, s');
    assert Intended(s') == Intended(s);
  }

  lemma {:induction false} SoloUndo(cfg: Config, s: State, step: WriterStep)
    requires Inv(s) && SoloInv(cfg, s) && step.Undo? && WriterEnabled(cfg, s, step) && RowGroupsGuarded(cfg)
    ensures SoloInv(cfg, WriterApply(cfg, s, step))
  {
    var s' := WriterApply(cfg, s, step);
    assert cfg.compactors == 0;
    forall f | f in step.removed && Safe(cfg, f)
      ensures !Needed(s, f)
    {
      PlannedIsNew(cfg, s, f);
    }
    CommittedKept(s, s');
  }

  lemma {:induction false} SoloWriterStep(cfg: Config, s: State, step: WriterStep)
    requires Inv(s) && SoloInv(cfg, s) && ScansOk(s) && WriterEnabled(cfg, s, step) && RowGroupsGuarded(cfg)
    ensures SoloInv(cfg, WriterApply(cfg, s, step))
  {
    match step
    case TakeLock => SoloTakeLock(cfg, s);
    case Plan(_, _, _) => SoloPlan(cfg, s, step);
    case Stage(_, _) => SoloStage(cfg, s, step);
    case Publish(_) => SoloPublish(cfg, s, step);
    case Done => SoloDone(cfg, s);
    case Stop(_) => SoloStop(cfg, s, step);
    case Undo(_, _) => SoloUndo(cfg, s, step);
  }

  // ---- the steps of a call ----

  lemma {:induction false} SoloPinStart(cfg: Config, s: State, step: CallStep)
    requires Inv(s) && SoloInv(cfg, s) && 0 in s.procs && step.PinStart? && CallEnabled(cfg, s, 0, step)
    ensures SoloInv(cfg, CallApply(cfg, s, 0, step))
  {
    var s' := CallApply(cfg, s, 0, step);
    var t := s.(pointer := step.at);
    assert Intended(s') == {};
    forall f | CommittedRef(t, f)
      ensures CommittedRef(s, f)
      ensures f in Intended(s) && Safe(cfg, f) ==> f in CurrentFiles(t)
    {
      var q: nat :| q in t.manifests && q <= t.pointer && f in t.manifests[q].files;
      assert q in s.manifests && q <= s.pointer;
      if f in Intended(s) && Safe(cfg, f) { assert OnlyCurrent(s, f); }
    }
    if AllFilesGuarded(cfg) {
      assert s.intents == map[];
      CommittedKept(s, s');
    }
    assert CurrentFiles(s') == CurrentFiles(t);
    assert forall f :: CommittedRef(s', f) ==> CommittedRef(t, f);
  }

  lemma {:induction false} SoloPinFinish(cfg: Config, s: State)
    requires Inv(s) && SoloInv(cfg, s) && 0 in s.procs && CallEnabled(cfg, s, 0, PinFinish)
    ensures SoloInv(cfg, CallApply(cfg, s, 0, PinFinish))
  {
    var s' := CallApply(cfg, s, 0, PinFinish);
    CommittedKept(s, s');
    assert Intended(s') == {};
    if s.manifests == map[] { assert s'.manifests == map[]; }
  }

  lemma {:induction false} SoloPinFault(cfg: Config, s: State)
    requires Inv(s) && SoloInv(cfg, s) && 0 in s.procs && CallEnabled(cfg, s, 0, PinFault)
    ensures SoloInv(cfg, CallApply(cfg, s, 0, PinFault))
  {
    var s' := CallApply(cfg, s, 0, PinFault);
    CommittedKept(s, s');
    assert Intended(s') == {};
  }

  lemma {:induction false} SoloCommit(cfg: Config, s: State)
    requires Inv(s) && SoloInv(cfg, s) && ScansOk(s) && 0 in s.procs && Ready(s, 0) && RowGroupsGuarded(cfg)
    ensures SoloInv(cfg, DoCommit(s, 0))
  {
    var s', p := DoCommit(s, 0), s.procs[0];
    assert SoloPhase(cfg, s, p) && ScanOk(s, p);
    if WillPublish(s, 0) {
      SoloPublished(cfg, s);
    } else {
      assert Metas(p.staged) <= p.staged;
      SoloFrame(cfg, s, s');
    }
  }

  lemma {:induction false} SoloPublished(cfg: Config, s: State)
    requires Inv(s) && SoloInv(cfg, s) && ScansOk(s) && 0 in s.procs && WillPublish(s, 0)
    ensures SoloInv(cfg, DoCommit(s, 0))
  {
    var s', p := DoCommit(s, 0), s.procs[0];
    var m := NewManifest(s, 0);
    assert SoloPhase(cfg, s, p) && ScanOk(s, p);
    CommitCommits(s);
    assert CurrentFiles(s') == m.files;
    forall f | f in m.files && Safe(cfg, f)
      ensures f in s'.files
    {
      if f in p.indexes { assert CommittedRef(s, f); }
    }
    forall f | f in Intended(s') && Safe(cfg, f)
      ensures OnlyCurrent(s', f)
    {
      OwnIntentNew(cfg, s, f);
    }
    if AllFilesGuarded(cfg) { CommitWellNamed(cfg, s); }
  }

  /** What is committed after a publication was before or is in the new manifest. */
  lemma {:induction false} CommitCommits(s: State)
    requires 0 in s.procs && WillPublish(s, 0)
    ensures forall f :: CommittedRef(DoCommit(s, 0), f) ==> CommittedRef(s, f) || f in NewManifest(s, 0).files
  {
    var s' := DoCommit(s, 0);
    forall f | CommittedRef(s', f)
      ensures CommittedRef(s, f) || f in NewManifest(s, 0).files
    {
      var q: nat :| q in s'.manifests && q <= s'.pointer && f in s'.manifests[q].files;
      if q != s'.pointer { assert q in s.manifests; }
    }
  }

  /** What the published intent lists is new. */
  lemma {:induction false} OwnIntentNew(cfg: Config, s: State, f: File)
    requires Inv(s) && SoloInv(cfg, s) && ScansOk(s) && 0 in s.procs && WillPublish(s, 0)
    requires f in Intended(DoCommit(s, 0)) && Safe(cfg, f)
    ensures OnlyCurrent(DoCommit(s, 0), f)
  {
    var s', p := DoCommit(s, 0), s.procs[0];
    assert SoloPhase(cfg, s, p) && Harmless(cfg, s);
    if f in p.staged {
      assert Claimed(s, Some(0), f);
      NotNeeded(s, Some(0), f);
    } else if f in Extras(s'.pointer) {
      ExtraIsHigher(s, f);
    }
    assert !CommittedRef(s, f);
  }

  lemma {:induction false} ExtraIsHigher(s: State, f: File)
    requires WellNamed(s) && IsNumbered(f) && f.seqno > s.pointer
    ensures !CommittedRef(s, f)
  {
  }

  lemma {:induction false} NewManifestOk(cfg: Config, s: State)
    requires Inv(s) && SoloInv(cfg, s) && AllFilesGuarded(cfg) && 0 in s.procs && WillPublish(s, 0)
    ensures ManifestOk(s.pointer + 1, NewManifest(s, 0))
  {
    var p := s.procs[0];
    assert SoloPhase(cfg, s, p) && PhaseOk(p);
    StagedIsCore(s, 0);
    assert forall f :: f in p.staged ==> f in Core(p.staged);
    assert s.pointer in s.manifests ==> ManifestOk(s.pointer, s.manifests[s.pointer]);
  }

  lemma {:induction false} CommitWellNamed(cfg: Config, s: State)
    requires Inv(s) && SoloInv(cfg, s) && AllFilesGuarded(cfg) && 0 in s.procs && WillPublish(s, 0)
    ensures WellNamed(DoCommit(s, 0))
  {
    var s', m, p := DoCommit(s, 0), NewManifest(s, 0), s.procs[0];
    NewManifestOk(cfg, s);
    CommitCommits(s);
    assert CurrentFiles(s') == m.files;
    forall f | CommittedRef(s, f) && f.Deletion?
      ensures Meta(f.id) !in m.files
    {
      StagedHasNoDeletion(s, f);
    }
  }

  lemma {:induction false} StagedHasNoDeletion(s: State, f: File)
    requires Inv(s) && WellNamed(s) && 0 in s.procs && WillPublish(s, 0)
    requires CommittedRef(s, f) && f.Deletion?
    ensures Meta(f.id) !in NewManifest(s, 0).files
  {
    DeletionInUse(s, f);
    if Meta(f.id) in NewManifest(s, 0).files { NewIsStaged(s, Meta(f.id)); }
  }

  lemma {:induction false} DeletionInUse(s: State, f: File)
    requires WellNamed(s) && CommittedRef(s, f) && f.Deletion?
    ensures InUse(s, Meta(f.id))
  {
    var q: nat :| q in s.manifests && q <= s.pointer && f in s.manifests[q].files;
    assert ManifestOk(q, s.manifests[q]);
  }

  lemma {:induction false} NewIsStaged(s: State, f: File)
    requires Inv(s) && 0 in s.procs && WillPublish(s, 0) && IsCore(f) && f in NewManifest(s, 0).files
    ensures Claimed(s, Some(0), f)
  {
    assert PhaseOk(s.procs[0]);
  }

  lemma {:induction false} SoloCommitFault(cfg: Config, s: State, step: CallStep)
    requires Inv(s) && SoloInv(cfg, s) && 0 in s.procs && step.CommitFault? && CallEnabled(cfg, s, 0, step)
    ensures SoloInv(cfg, CallApply(cfg, s, 0, step))
  {
    var s', p := CallApply(cfg, s, 0, step), s.procs[0];
    assert SoloPhase(cfg, s, p);
    forall f | f in Intended(s') && IsCore(f)
      ensures f in Intended(s) || !Needed(s, f)
    {
      SealedIntent(s, step.written, f);
    }
    SoloFrame(cfg, s, s');
  }

  lemma {:induction false} SealedIntent(s: State, extras: set<File>, f: File)
    requires Inv(s) && 0 in s.procs && s.procs[0].Rewriting? && IsCore(f)
    requires extras <= Extras(s.procs[0].pinned + 1) && f in Intended(Sealed(s, 0, extras))
    ensures f in Intended(s) || !Needed(s, f)
  {
    var t: nat :| t in Sealed(s, 0, extras).intents && f in Sealed(s, 0, extras).intents[t];
    if t == s.procs[0].txn {
      assert Claimed(s, Some(0), f);
      NotNeeded(s, Some(0), f);
    }
  }

  lemma {:induction false} SoloCommitCrash(cfg: Config, s: State, step: CallStep)
    requires Inv(s) && SoloInv(cfg, s) && ScansOk(s)
    requires 0 in s.procs && step.CommitCrash? && CallEnabled(cfg, s, 0, step)
    ensures SoloInv(cfg, CallApply(cfg, s, 0, step))
  {
    var s', p := CallApply(cfg, s, 0, step), s.procs[0];
    assert ScanOk(s, p);
    CommittedKept(s, s');
    CrashIntents(cfg, s, step);
  }

  lemma {:induction false} CrashIntents(cfg: Config, s: State, step: CallStep)
    requires Inv(s) && IntentsOk(cfg, s) && 0 in s.procs && step.CommitCrash? && CallEnabled(cfg, s, 0, step)
    ensures forall f :: f in Intended(CallApply(cfg, s, 0, step)) && IsCore(f) ==>
              OnlyCurrent(CallApply(cfg, s, 0, step), f)
  {
    var s', p := CallApply(cfg, s, 0, step), s.procs[0];
    CommittedKept(s, s');
    forall f | f in Intended(s') && IsCore(f)
      ensures OnlyCurrent(s', f)
    {
      SealedIntent(s, Extras(p.pinned + 1), f);
      assert OnlyCurrent(s, f);
    }
  }

  lemma {:induction false} SoloOpenScan(cfg: Config, s: State, step: CallStep)
    requires Inv(s) && SoloInv(cfg, s) && 0 in s.procs && step.OpenScan? && CallEnabled(cfg, s, 0, step)
    ensures SoloInv(cfg, CallApply(cfg, s, 0, step))
  {
    var s' := CallApply(cfg, s, 0, step);
    assert SoloPhase(cfg, s, s.procs[0]);
    assert forall f :: f in Intended(s') ==> f in Intended(s);
    CommittedKept(s, s');
    SoloFrame(cfg, s, s');
  }

  lemma {:induction false} SoloJournal(cfg: Config, s: State)
    requires Inv(s) && SoloInv(cfg, s) && 0 in s.procs && CallEnabled(cfg, s, 0, Journal)
    ensures SoloInv(cfg, CallApply(cfg, s, 0, Journal))
  {
    var s', p := CallApply(cfg, s, 0, Journal), s.procs[0];
    assert SoloPhase(cfg, s, p);
    forall f | f in Intended(s')
      ensures f in Intended(s) || !Needed(s, f)
    {
      JournaledIsNew(s, f);
    }
    CommittedKept(s, s');
    SoloFrame(cfg, s, s');
  }

  lemma {:induction false} JournaledIsNew(s: State, f: File)
    requires Inv(s) && 0 in s.procs && s.procs[0].Rewriting? && s.procs[0].todo > 0
    requires f in Intended(DoJournal(s, 0))
    ensures f in Intended(s) || !Needed(s, f)
  {
    var p, intents := s.procs[0], DoJournal(s, 0).intents;
    var t: nat :| t in intents && f in intents[t];
    if t == p.txn {
      if f in p.staged {
        assert Claimed(s, Some(0), f);
        NotNeeded(s, Some(0), f);
      } else {
        NotYetNamed(s, f);
      }
    }
  }

  lemma {:induction false} SoloWriteParts(cfg: Config, s: State)
    requires Inv(s) && SoloInv(cfg, s) && 0 in s.procs && CallEnabled(cfg, s, 0, WriteParts)
    ensures SoloInv(cfg, CallApply(cfg, s, 0, WriteParts))
  {
    var s' := CallApply(cfg, s, 0, WriteParts);
    assert SoloPhase(cfg, s, s.procs[0]);
    assert Intended(s') == Intended(s);
    CommittedKept(s, s');
    SoloFrame(cfg, s, s');
  }

  lemma {:induction false} SoloRename(cfg: Config, s: State)
    requires Inv(s) && SoloInv(cfg, s) && 0 in s.procs && CallEnabled(cfg, s, 0, RenameNext)
    ensures SoloInv(cfg, CallApply(cfg, s, 0, RenameNext))
  {
    var p := s.procs[0];
    if NextFile(p.chunk.value) in s.parts {
      SoloRenamed(cfg, s);
    } else {
      SoloStageFault(cfg, s);
    }
  }

  lemma {:induction false} SoloRenamed(cfg: Config, s: State)
    requires Inv(s) && SoloInv(cfg, s) && 0 in s.procs && CallEnabled(cfg, s, 0, RenameNext)
    requires NextFile(s.procs[0].chunk.value) in s.parts
    ensures SoloInv(cfg, CallApply(cfg, s, 0, RenameNext))
  {
    var s', p := CallApply(cfg, s, 0, RenameNext), s.procs[0];
    assert SoloPhase(cfg, s, p) && PhaseOk(p);
    assert Intended(s') == Intended(s);
    SoloFrame(cfg, s, s');
  }

  lemma {:induction false} SoloRollbackFiles(cfg: Config, s: State)
    requires Inv(s) && SoloInv(cfg, s) && 0 in s.procs && CallEnabled(cfg, s, 0, RollbackFiles)
    ensures SoloInv(cfg, CallApply(cfg, s, 0, RollbackFiles))
  {
    var s', p := CallApply(cfg, s, 0, RollbackFiles), s.procs[0];
    assert SoloPhase(cfg, s, p) && PhaseOk(p);
    forall f | f in p.staged && Safe(cfg, f)
      ensures !Needed(s, f)
    {
      assert f in Core(p.staged);
      assert Claimed(s, Some(0), f);
      NotNeeded(s, Some(0), f);
    }
    assert Intended(s') == Intended(s);
    SoloFrame(cfg, s, s');
  }

  /** Losing a manifest loses no file of the others. */
  lemma {:induction false} SoloRollbackManifest(cfg: Config, s: State)
    requires Inv(s) && SoloInv(cfg, s) && 0 in s.procs && CallEnabled(cfg, s, 0, RollbackManifest)
    ensures SoloInv(cfg, CallApply(cfg, s, 0, RollbackManifest))
  {
    var s', p := CallApply(cfg, s, 0, RollbackManifest), s.procs[0];
    assert SoloPhase(cfg, s, p);
    assert forall f :: f in Intended(s') ==> f in Intended(s);
    if p.seqno == 0 {
      assert s'.manifests == s.manifests;
      CommittedKept(s, s');
      SoloFrame(cfg, s, s');
    } else {
      FewerCommitted(s, s');
    }
  }

  lemma {:induction false} FewerCommitted(s: State, s': State)
    requires s'.pointer == s.pointer && FewerManifests(s, s')
    ensures forall f :: CommittedRef(s', f) ==> CommittedRef(s, f)
    ensures forall f :: OnlyCurrent(s, f) ==> OnlyCurrent(s', f)
  {
  }

  lemma {:induction false} SoloStageFault(cfg: Config, s: State)
    requires Inv(s) && SoloInv(cfg, s) && 0 in s.procs && CallEnabled(cfg, s, 0, StageFault)
    ensures SoloInv(cfg, CallApply(cfg, s, 0, StageFault))
  {
    var s' := CallApply(cfg, s, 0, StageFault);
    assert SoloPhase(cfg, s, s.procs[0]);
    SoloFrame(cfg, s, s');
  }

  /** A call that dies: only where intents may be left. */
  lemma {:induction false} SoloCrash(cfg: Config, s: State)
    requires Inv(s) && SoloInv(cfg, s) && 0 in s.procs && CallEnabled(cfg, s, 0, Crash)
    ensures SoloInv(cfg, CallApply(cfg, s, 0, Crash))
  {
    var s' := CallApply(cfg, s, 0, Crash);
    assert SoloPhase(cfg, s, s.procs[0]);
    CommittedKept(s, s');
    assert Intended(s') == Intended(s);
  }

  /** The steps that only end a call or start again. */
  lemma {:induction false} SoloQuiet(cfg: Config, s: State, step: CallStep)
    requires Inv(s) && SoloInv(cfg, s) && 0 in s.procs && CallEnabled(cfg, s, 0, step)
    requires step.PinNothing? || step.SkipScan? || step.Restart?
    ensures SoloInv(cfg, CallApply(cfg, s, 0, step))
  {
    var s' := CallApply(cfg, s, 0, step);
    assert SoloPhase(cfg, s, s.procs[0]);
    SoloFrame(cfg, s, s');
  }

  /** The steps that drop the call's intent. */
  lemma {:induction false} SoloDrop(cfg: Config, s: State, step: CallStep)
    requires Inv(s) && SoloInv(cfg, s) && 0 in s.procs && CallEnabled(cfg, s, 0, step)
    requires step.StopEmpty? || step.DropIntent?
    ensures SoloInv(cfg, CallApply(cfg, s, 0, step))
  {
    var s' := CallApply(cfg, s, 0, step);
    assert SoloPhase(cfg, s, s.procs[0]);
    FewerIntents(cfg, s, s');
    SoloFrame(cfg, s, s');
  }

  lemma {:induction false} SoloCallStep(cfg: Config, s: State, step: CallStep)
    requires Inv(s) && SoloInv(cfg, s) && ScansOk(s) && RowGroupsGuarded(cfg)
    requires 0 in s.procs && CallEnabled(cfg, s, 0, step)
    ensures SoloInv(cfg, CallApply(cfg, s, 0, step))
  {
    match step
    case PinStart(_) => SoloPinStart(cfg, s, step);
    case PinFinish => SoloPinFinish(cfg, s);
    case PinFault => SoloPinFault(cfg, s);
    case OpenScan(_, _) => SoloOpenScan(cfg, s, step);
    case Journal => SoloJournal(cfg, s);
    case WriteParts => SoloWriteParts(cfg, s);
    case RenameNext => SoloRename(cfg, s);
    case Commit => SoloCommit(cfg, s);
    case _ => SoloEndStep(cfg, s, step);
  }

  lemma {:induction false} SoloEndStep(cfg: Config, s: State, step: CallStep)
    requires Inv(s) && SoloInv(cfg, s) && ScansOk(s) && 0 in s.procs && CallEnabled(cfg, s, 0, step)
    requires !step.PinStart? && !step.PinFinish? && !step.PinFault? && !step.OpenScan? && !step.Journal?
    requires !step.WriteParts? && !step.RenameNext? && !step.Commit?
    ensures SoloInv(cfg, CallApply(cfg, s, 0, step))
  {
    match step
    case CommitFault(_) => SoloCommitFault(cfg, s, step);
    case CommitCrash(_) => SoloCommitCrash(cfg, s, step);
    case RollbackFiles => SoloRollbackFiles(cfg, s);
    case RollbackManifest => SoloRollbackManifest(cfg, s);
    case StageFault => SoloStageFault(cfg, s);
    case StopEmpty => SoloDrop(cfg, s, step);
    case DropIntent => SoloDrop(cfg, s, step);
    case Crash => SoloCrash(cfg, s);
    case _ => SoloQuiet(cfg, s, step);
  }

  // ---- what a cleanup takes ----

  /** A file that an intent lists. */
  ghost predicate IsListed(s: State, f: File) { exists t: nat :: t in s.intents && f in s.intents[t] }

  /** The first half of a pin takes exactly the listed files but the row groups of the manifest it has loaded,
      and all intents; the second half takes the staged files and the manifests above the pointer. */
  lemma {:induction false} PinCleans(cfg: Config, s: State, c: nat, step: CallStep)
    requires c in s.procs && CallEnabled(cfg, s, c, step)
    ensures step.PinStart? ==>
              var s' := CallApply(cfg, s, c, step);
              && s'.intents == map[] && s'.manifests == s.manifests && s'.parts == s.parts && s'.pointer in s.manifests
              && forall f :: f in s'.files <==>
                   f in s.files && (!IsListed(s, f) || (IsCore(f) && f in s.manifests[s'.pointer].files))
    ensures step.PinFinish? ==>
              var s' := CallApply(cfg, s, c, step);
              && s'.parts == {} && s'.files == s.files && s'.intents == s.intents && s'.lock.Free?
              && forall q: nat :: q in s'.manifests <==> q in s.manifests && q <= s.pointer
  {
    assert forall f :: f in Intended(s) <==> IsListed(s, f);
  }

  /** A writer's cleanup spares every file of the current manifest. */
  lemma {:induction false} WriterCleans(cfg: Config, s: State, step: WriterStep)
    requires WriterEnabled(cfg, s, step)
    ensures step.TakeLock? ==>
              var s' := WriterApply(cfg, s, step);
              && s'.intents == map[] && s'.manifests == s.manifests && s'.parts == s.parts
              && forall f :: f in s'.files <==>
                   f in s.files && (!IsListed(s, f) || (s.pointer in s.manifests && f in s.manifests[s.pointer].files))
    ensures step.Plan? ==>
              var s' := WriterApply(cfg, s, step);
              && s'.parts == {} && s'.files == s.files && s'.intents == s.intents
              && forall q: nat :: q in s'.manifests <==> q in s.manifests && q <= s.pointer
  {
    assert forall f :: f in Intended(s) <==> IsListed(s, f);
  }

  // ---- runs ----

  lemma {:induction false} SoloStep(cfg: Config, s: State, a: Action)
    requires Inv(s) && SoloInv(cfg, s) && ScansOk(s) && Enabled(cfg, s, a) && RowGroupsGuarded(cfg)
    ensures SoloInv(cfg, Apply(cfg, s, a))
    ensures HistoryGuarded(cfg) ==> KeepsHistory(s, Apply(cfg, s, a))
  {
    match a
    case Call(c, step) =>
      assert c == 0;
      SoloCallStep(cfg, s, step);
      if HistoryGuarded(cfg) { CallKeepsHistory(cfg, s, step); }
    case Write(step) =>
      SoloWriterStep(cfg, s, step);
      WriterMoves(cfg, s, step);
  }

  lemma {:induction false} CallKeepsHistory(cfg: Config, s: State, step: CallStep)
    requires Inv(s) && SoloInv(cfg, s) && HistoryGuarded(cfg) && 0 in s.procs && CallEnabled(cfg, s, 0, step)
    ensures KeepsHistory(s, CallApply(cfg, s, 0, step))
  {
    var p := s.procs[0];
    assert p.Deleting? ==> p.seqno == 0 by {
      assert SoloPhase(cfg, s, p);
    }
    HistoryKeptBy(cfg, s, step);
  }

  /** What a step asks for to lose no manifest. */
  lemma {:induction false} HistoryKeptBy(cfg: Config, s: State, step: CallStep)
    requires 0 in s.procs && CallEnabled(cfg, s, 0, step)
    requires s.pointer in s.manifests || s.manifests == map[]
    requires s.procs[0].Deleting? ==> s.procs[0].seqno == 0 && 0 !in s.manifests
    ensures KeepsHistory(s, CallApply(cfg, s, 0, step))
  {
    match step
    case Commit =>
    case RenameNext =>
    case _ =>
  }

  lemma {:induction false} SoloInit(cfg: Config, s: State)
    requires Init(cfg, s) && cfg.compactors <= 1
    ensures SoloInv(cfg, s)
  {
    assert forall c: nat :: c in s.procs ==> c < cfg.compactors && s.procs[c] == Idle(0);
    assert Intended(s) == {};
    if cfg.compactors == 0 { assert s.procs == map[]; }
    if s.pointer !in s.manifests {
      assert forall q: nat :: q !in s.manifests;
      assert s.manifests == map[];
    }
  }

  lemma {:induction false} SoloRun(cfg: Config, run: seq<State>, j: nat)
    requires IsRun(cfg, run) && RowGroupsGuarded(cfg) && j < |run|
    ensures SoloInv(cfg, run[j])
    ensures HistoryGuarded(cfg) && j + 1 < |run| ==> KeepsHistory(run[j], run[j + 1])
    decreases j
  {
    if j == 0 {
      SoloInit(cfg, run[0]);
    } else {
      SoloRun(cfg, run, j - 1);
      SoloRunStep(cfg, run, j - 1);
    }
    if j + 1 < |run| {
      SoloRunStep(cfg, run, j);
    }
  }

  lemma {:induction false} SoloRunStep(cfg: Config, run: seq<State>, j: nat)
    requires IsRun(cfg, run) && RowGroupsGuarded(cfg) && j + 1 < |run| && SoloInv(cfg, run[j])
    ensures SoloInv(cfg, run[j + 1]) && (HistoryGuarded(cfg) ==> KeepsHistory(run[j], run[j + 1]))
  {
    InvRun(cfg, run, j);
    ScansOkRun(cfg, run, j);
    assert Next(cfg, run[j], run[j + 1]);
    var a :| Enabled(cfg, run[j], a) && run[j + 1] == Apply(cfg, run[j], a);
    SoloStep(cfg, run[j], a);
  }

  /** The invariant says what is there. */
  lemma {:induction false} SoloInPlace(cfg: Config, s: State)
    requires SoloInv(cfg, s)
    ensures InPlace(s, AllFilesGuarded(cfg))
  {
    assert forall f :: CommittedRef(s, f) ==> Needed(s, f);
  }
}
