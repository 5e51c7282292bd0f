// Exactly when compaction is safe: the three conditions of `CommitSafety` are necessary, by runs that break
// them, and one compaction at a time is what publications need.
module CommitLimits {
  import opened Collections
  import opened CommitProtocol
  import opened CommitSafety

  /** In every run, committed manifests stay and the pointer never goes back. */
  ghost predicate HistorySafe(cfg: Config) {
    forall run: seq<State>, i: nat :: IsRun(cfg, run) && i + 1 < |run| ==> KeepsHistory(run[i], run[i + 1])
  }

  /** In every state of every run, the files of the committed manifests are there. */
  ghost predicate FilesSafe(cfg: Config, all: bool) {
    forall run: seq<State>, i: nat :: IsRun(cfg, run) && i < |run| ==> InPlace(run[i], all)
  }

  /** In every run, every publication is its immediate predecessor, rewritten. */
  ghost predicate PublicationsSafe(cfg: Config) {
    forall run: seq<State>, i: nat :: IsRun(cfg, run) && i + 1 < |run| ==> PublishesWell(run[i], run[i + 1])
  }

  ghost predicate PublishesWell(s: State, s': State) {
    forall c: nat :: Publishes(s, s', c) ==> BuiltOnPredecessor(s, s')
  }

  // ---- building runs ----

  ghost function Last(run: seq<State>): State
    requires run != []
  {
    run[|run| - 1]
  }

  lemma {:induction false} Continue(cfg: Config, run: seq<State>, a: Action) returns (run': seq<State>)
    requires IsRun(cfg, run) && Enabled(cfg, Last(run), a)
    ensures IsRun(cfg, run') && |run'| == |run| + 1 && run'[..|run|] == run
    ensures Last(run') == Apply(cfg, Last(run), a)
  {
    run' := run + [Apply(cfg, Last(run), a)];
    forall i | 0 <= i < |run'| - 1
      ensures Next(cfg, run'[i], run'[i + 1])
    {
      if i < |run| - 1 {
        assert Next(cfg, run[i], run[i + 1]);
      }
    }
  }

  /** Everything but the calls. */
  ghost predicate Table(s: State, pointer: nat, manifests: map<nat, Manifest>, files: set<File>, parts: set<File>,
                        intents: map<nat, set<File>>, lock: Lock)
  {
    s.pointer == pointer && s.manifests == manifests && s.files == files && s.parts == parts
    && s.intents == intents && s.lock == lock
  }

  ghost predicate Slot(s: State, c: nat, p: Phase) { c in s.procs && s.procs[c] == p }

  function GroupsOf(rows: Rows): nat { if rows == map[] then 0 else 1 }

  function OneRow(): Rows { map[0 := "x"] }

  /** A table of one row group, with a deletion vector if no row is left. */
  function FirstFiles(rows: Rows): set<File> {
    ChunkFiles(0) + if rows == map[] then {Deletion(0, 1)} else {}
  }

  function First(rows: Rows): map<nat, Manifest> { map[1 := Manifest(rows, FirstFiles(rows), ByWriter)] }

  function FirstState(cfg: Config, rows: Rows): State {
    State(1, First(rows), FirstFiles(rows), {}, map[], Free, IdleSlots(cfg.compactors), 1)
  }

  lemma {:induction false} Start(cfg: Config, rows: Rows) returns (run: seq<State>)
    ensures IsRun(cfg, run) && |run| == 1 && Last(run) == FirstState(cfg, rows)
  {
    FirstIsInit(cfg, rows);
    run := [FirstState(cfg, rows)];
  }

  lemma {:induction false} FirstIsInit(cfg: Config, rows: Rows)
    ensures Init(cfg, FirstState(cfg, rows))
  {
    var s := FirstState(cfg, rows);
    FirstHasData(rows);
    FirstWellNamed(s, rows);
    forall q: nat | q in s.manifests
      ensures q == 1 && s.manifests[q].files == FirstFiles(rows)
    {
    }
  }

  lemma {:induction false} FirstHasData(rows: Rows)
    ensures HasData(FirstFiles(rows)) && forall f :: f in FirstFiles(rows) && IsCore(f) ==> f.id == 0
  {
    assert Data(0) in FirstFiles(rows);
  }

  lemma {:induction false} FirstWellNamed(s: State, rows: Rows)
    requires s.pointer == 1 && s.manifests == First(rows)
    ensures WellNamed(s)
  {
    assert Meta(0) in FirstFiles(rows) && CurrentFiles(s) == FirstFiles(rows);
    forall f | CommittedRef(s, f)
      ensures f in FirstFiles(rows)
    {
    }
  }

  /** Call 0 has pinned the table. */
  lemma {:induction false} RunToPin(cfg: Config, rows: Rows) returns (run: seq<State>)
    requires cfg.compactors >= 1
    ensures IsRun(cfg, run) && Last(run).nextName == 1
    ensures Table(Last(run), 1, First(rows), FirstFiles(rows), {}, map[], Free)
    ensures Slot(Last(run), 0, Pinned(0, 1, {}))
    ensures cfg.compactors >= 2 ==> Slot(Last(run), 1, Idle(0))
  {
    run := Start(cfg, rows);
    var s := Last(run);
    assert 0 in s.procs && 1 in s.manifests;
    NothingToClean(s, rows);
    run := Continue(cfg, run, Call(0, PinStart(1)));
    assert Table(Last(run), 1, First(rows), FirstFiles(rows), {}, map[], HeldByCall(0));
    assert Slot(Last(run), 0, Cleaning(0, {}));
    run := Continue(cfg, run, Call(0, PinFinish));
    assert CleanRest(s).manifests == First(rows);
  }

  lemma {:induction false} NothingToClean(s: State, rows: Rows)
    requires s.pointer == 1 && s.manifests == First(rows) && s.intents == map[]
    ensures CleanIntents(s, Core(CurrentFiles(s))) == s && Indexes(CurrentFiles(s)) == {}
  {
    assert Intended(s) == {};
    assert CurrentFiles(s) == FirstFiles(rows);
  }

  /** Call 0 has pinned and scanned the table; call 1, if any, is idle. */
  lemma {:induction false} RunToScan(cfg: Config, rows: Rows) returns (run: seq<State>)
    requires cfg.compactors >= 1
    ensures IsRun(cfg, run) && Last(run).nextName == 2
    ensures Table(Last(run), 1, First(rows), FirstFiles(rows), {}, map[1 := {}], Free)
    ensures Slot(Last(run), 0, Rewriting(0, 1, {}, Scan(1, rows, true, GroupsOf(rows)), 1, GroupsOf(rows), {},
                                            None))
    ensures cfg.compactors >= 2 ==> Slot(Last(run), 1, Idle(0))
  {
    run := RunToPin(cfg, rows);
    assert 1 in Last(run).manifests && CurrentFiles(Last(run)) == FirstFiles(rows);
    assert Data(0) in FirstFiles(rows);
    run := Continue(cfg, run, Call(0, OpenScan(GroupsOf(rows), true)));
    assert Last(run).intents == map[1 := {}];
  }

  /** Call 0 on the table of `First(OneRow())`, with its only row group under way. */
  function AtChunk(done: nat): Phase {
    Rewriting(0, 1, {}, Scan(1, OneRow(), true, 1), 1, 0, {}, Some(Chunk(2, done)))
  }

  function Staged(): Phase {
    Rewriting(0, 1, {}, Scan(1, OneRow(), true, 1), 1, 0, ChunkFiles(2), None)
  }

  function Journaled(): map<nat, set<File>> { map[1 := ChunkFiles(2)] }

  lemma {:induction false} RunToJournal(cfg: Config) returns (run: seq<State>)
    requires cfg.compactors >= 1
    ensures IsRun(cfg, run) && Last(run).nextName == 3 && Slot(Last(run), 0, AtChunk(0))
    ensures Table(Last(run), 1, First(OneRow()), ChunkFiles(0), {}, Journaled(), Free)
    ensures cfg.compactors >= 2 ==> Slot(Last(run), 1, Idle(0))
  {
    assert 0 in OneRow();
    run := RunToScan(cfg, OneRow());
    assert FirstFiles(OneRow()) == ChunkFiles(0);
    run := Continue(cfg, run, Call(0, Journal));
    assert {} + ChunkFiles(2) == ChunkFiles(2);
    assert Last(run).intents == Journaled();
  }

  /** Call 0 has its data file in place and its metadata file still in staging. */
  lemma {:induction false} RunToTornRename(cfg: Config) returns (run: seq<State>)
    requires cfg.compactors >= 1
    ensures IsRun(cfg, run) && Last(run).nextName == 3 && Slot(Last(run), 0, AtChunk(2))
    ensures Table(Last(run), 1, First(OneRow()), ChunkFiles(0) + {Data(2)}, {Meta(2), Agg(2)}, Journaled(), Free)
    ensures cfg.compactors >= 2 ==> Slot(Last(run), 1, Idle(0))
  {
    run := RunToJournal(cfg);
    run := Continue(cfg, run, Call(0, WriteParts));
    assert Slot(Last(run), 0, AtChunk(1));
    run := Continue(cfg, run, Call(0, RenameNext));
    assert Last(run).parts == {Meta(2), Agg(2)} && Last(run).files == ChunkFiles(0) + {Data(2)};
  }

  /** The remaining two renames. */
  lemma {:induction false} RunRenames(cfg: Config, before: seq<State>) returns (run: seq<State>)
    requires IsRun(cfg, before) && Slot(Last(before), 0, AtChunk(2)) && Last(before).parts == {Meta(2), Agg(2)}
    ensures IsRun(cfg, run) && Slot(Last(run), 0, Staged())
    ensures Last(run)
         == Last(before).(files := Last(before).files + {Meta(2), Agg(2)}, parts := {}, procs := Last(run).procs)
    ensures forall c: nat :: c != 0 && c in Last(before).procs ==> Slot(Last(run), c, Last(before).procs[c])
  {
    run := Continue(cfg, before, Call(0, RenameNext));
    assert Slot(Last(run), 0, AtChunk(3));
    assert Last(run).parts == {Agg(2)};
    run := Continue(cfg, run, Call(0, RenameNext));
    assert {} + ChunkFiles(2) == ChunkFiles(2);
    assert Last(run).parts == {};
    assert Last(run).files == Last(before).files + {Meta(2), Agg(2)};
  }

  /** Call 0 has staged everything. */
  lemma {:induction false} RunToStaged(cfg: Config) returns (run: seq<State>)
    requires cfg.compactors >= 1
    ensures IsRun(cfg, run) && Last(run).nextName == 3 && Slot(Last(run), 0, Staged())
    ensures Table(Last(run), 1, First(OneRow()), ChunkFiles(0) + ChunkFiles(2), {}, Journaled(), Free)
    ensures cfg.compactors >= 2 ==> Slot(Last(run), 1, Idle(0))
  {
    run := RunToTornRename(cfg);
    run := RunRenames(cfg, run);
    assert Last(run).files == ChunkFiles(0) + ChunkFiles(2);
  }

  // ---- writers in runs ----

  /** What a writer may publish next. */
  ghost predicate MayWrite(s: State, rows: Rows, kept: set<File>, names: set<File>, upTo: nat) {
    && s.lock.Free? && s.pointer in s.manifests && Trimmed(s) && s.nextName < upTo
    && PlanOk(CurrentFiles(s), s.pointer + 1, kept, names)
    && (forall f :: f in names && IsCore(f) ==> s.nextName < f.id < upTo)
    && (rows != map[] ==> HasData(kept + names))
  }

  /** A writer goes as far as moving the pointer, whatever the calls are doing. */
  lemma {:induction false} WriterMovesPointer(cfg: Config, before: seq<State>, rows: Rows, kept: set<File>,
                                              names: set<File>, upTo: nat)
    returns (run: seq<State>)
    requires IsRun(cfg, before) && MayWrite(Last(before), rows, kept, names, upTo)
    ensures IsRun(cfg, run) && |run| > |before|
    ensures var s, s' := Last(before), Last(run);
            && s'.pointer == s.pointer + 1 && s'.procs == s.procs && s'.lock == HeldByWriter(Moved(s.nextName))
            && s'.intents == map[s.nextName := names] && s'.nextName == upTo
            && s'.manifests == s.manifests[s.pointer + 1 := Manifest(rows, kept + names, ByWriter)]
  {
    var s := Last(before);
    run := Continue(cfg, before, Write(TakeLock));
    assert CleanRest(Last(run)).manifests == s.manifests;
    run := Continue(cfg, run, Write(Plan(kept, names, upTo)));
    run := Continue(cfg, run, Write(Stage(names, names)));
    assert Last(run).intents == map[s.nextName := names];
    run := Continue(cfg, run, Write(Publish(rows)));
  }

  lemma {:induction false} WriterRuns(cfg: Config, before: seq<State>, rows: Rows, kept: set<File>, names: set<File>,
                                      upTo: nat)
    returns (run: seq<State>)
    requires IsRun(cfg, before) && MayWrite(Last(before), rows, kept, names, upTo)
    ensures IsRun(cfg, run) && |run| > |before|
    ensures var s, s' := Last(before), Last(run);
            && s'.pointer == s.pointer + 1 && s'.procs == s.procs && s'.lock.Free? && s'.intents == map[]
            && s'.manifests == s.manifests[s.pointer + 1 := Manifest(rows, kept + names, ByWriter)]
            && s'.nextName == upTo
  {
    run := WriterMovesPointer(cfg, before, rows, kept, names, upTo);
    run := Continue(cfg, run, Write(Done));
    assert Last(run).intents == map[];
  }

  /** The manifest of a writer that has deleted the only row. */
  function DeletedNames(): set<File> { {Deletion(0, 1), Checkpoint(2)} }

  function Deleted(): Manifest { Manifest(map[], ChunkFiles(0) + DeletedNames(), ByWriter) }

  lemma {:induction false} MayDelete(s: State)
    requires s.lock.Free? && s.pointer == 1 && s.manifests == First(OneRow())
    ensures MayWrite(s, map[], ChunkFiles(0), DeletedNames(), s.nextName + 1)
  {
    assert 0 in OneRow();
    assert 1 in s.manifests && FirstFiles(OneRow()) == ChunkFiles(0);
    assert CurrentFiles(s) == ChunkFiles(0);
    assert Meta(0) in ChunkFiles(0);
  }

  lemma {:induction false} WriterDeletes(cfg: Config, before: seq<State>) returns (run: seq<State>)
    requires IsRun(cfg, before) && Last(before).lock.Free? && Last(before).pointer == 1
    requires Last(before).manifests == First(OneRow())
    ensures IsRun(cfg, run) && |run| > |before|
    ensures Last(run).pointer == 2 && Last(run).procs == Last(before).procs && Last(run).lock.Free?
    ensures Last(run).intents == map[] && Last(run).manifests == First(OneRow())[2 := Deleted()]
    ensures Last(run).nextName == Last(before).nextName + 1
  {
    MayDelete(Last(before));
    run := WriterRuns(cfg, before, map[], ChunkFiles(0), DeletedNames(), Last(before).nextName + 1);
  }

  // ---- a cleanup during compaction ----

  lemma {:induction false} ListedFiles(s: State)
    requires s.intents == Journaled()
    ensures Intended(s) == ChunkFiles(2)
  {
    forall f | f in ChunkFiles(2)
      ensures f in Intended(s)
    {
      assert 1 in s.intents && f in s.intents[1];
    }
  }

  /** The table of the first manifest while call 0 stages its row group. */
  ghost predicate UnderWay(s: State) {
    s.pointer == 1 && s.manifests == First(OneRow()) && s.intents == Journaled() && s.lock.Free?
    && ChunkFiles(0) <= s.files <= ChunkFiles(0) + ChunkFiles(2)
  }

  /** Another call starts: its cleanup takes the files of call 0. */
  lemma {:induction false} RunSecondPin(cfg: Config, before: seq<State>) returns (run: seq<State>)
    requires IsRun(cfg, before) && Slot(Last(before), 1, Idle(0)) && UnderWay(Last(before))
    ensures IsRun(cfg, run) && Slot(Last(run), 1, Cleaning(0, {}))
    ensures Last(run)
         == Last(before).(files := ChunkFiles(0), intents := map[], lock := HeldByCall(1), procs := Last(run).procs)
    ensures forall c: nat :: c != 1 && c in Last(before).procs ==> Slot(Last(run), c, Last(before).procs[c])
  {
    assert 0 in OneRow();
    assert 1 in Last(before).manifests && CurrentFiles(Last(before)) == ChunkFiles(0);
    assert Indexes(ChunkFiles(0)) == {} && Core(ChunkFiles(0)) == ChunkFiles(0);
    ListedFiles(Last(before));
    run := Continue(cfg, before, Call(1, PinStart(1)));
    assert Last(run).files == ChunkFiles(0);
  }

  /** A writer takes the lock: so does its cleanup. */
  lemma {:induction false} RunCleaning(cfg: Config, before: seq<State>) returns (run: seq<State>)
    requires IsRun(cfg, before) && UnderWay(Last(before))
    ensures IsRun(cfg, run)
    ensures Last(run) == Last(before).(files := ChunkFiles(0), intents := map[], lock := HeldByWriter(Cleaned))
  {
    assert 0 in OneRow();
    assert 1 in Last(before).manifests && CurrentFiles(Last(before)) == ChunkFiles(0);
    ListedFiles(Last(before));
    run := Continue(cfg, before, Write(TakeLock));
    assert Last(run).files == ChunkFiles(0);
  }

  // ---- manifests that are lost ----

  /** The staged metadata is gone when call 0 comes to commit: it chooses sequence 2 and fails. */
  lemma {:induction false} CommitFails(cfg: Config, before: seq<State>) returns (run: seq<State>)
    requires IsRun(cfg, before) && Slot(Last(before), 0, Staged()) && Last(before).files == ChunkFiles(0)
    requires Last(before).pointer == 1 && Last(before).manifests == First(OneRow()) && Last(before).lock.Free?
    ensures IsRun(cfg, run) && Last(run) == Last(before).(procs := Last(run).procs)
    ensures Last(run).procs == Last(before).procs[0 := RollingBack(0, 1, ChunkFiles(2), 2, false)]
  {
    assert Meta(2) in Metas(ChunkFiles(2)) && Meta(2) !in Last(before).files;
    run := Continue(cfg, before, Call(0, Commit));
  }

  lemma {:induction false} RunToFailedCommit(cfg: Config) returns (run: seq<State>)
    requires cfg.compactors >= 2
    ensures IsRun(cfg, run) && Last(run).pointer == 1 && Last(run).lock.Free?
    ensures Last(run).manifests == First(OneRow())
    ensures Slot(Last(run), 0, RollingBack(0, 1, ChunkFiles(2), 2, false)) && Slot(Last(run), 1, Pinned(0, 1, {}))
  {
    run := RunToStaged(cfg);
    run := RunSecondPin(cfg, run);
    run := Continue(cfg, run, Call(1, PinFinish));
    assert Last(run).manifests == First(OneRow());
    run := CommitFails(cfg, run);
  }

  /** With one compactor: a writer cleans and gives up, or the commit fails by itself. */
  lemma {:induction false} RunToFailure(cfg: Config) returns (run: seq<State>)
    requires cfg.compactors >= 1 && (cfg.writersGiveUp || cfg.commitFails)
    ensures IsRun(cfg, run) && Last(run).pointer == 1 && Last(run).lock.Free?
    ensures Last(run).manifests == First(OneRow())
    ensures 0 in Last(run).procs && Last(run).procs[0].RollingBack? && Last(run).procs[0].seqno == 2
    ensures !cfg.writersGiveUp ==> Checkpoint(2) in Last(run).procs[0].staged
  {
    run := RunToStaged(cfg);
    if cfg.writersGiveUp {
      run := RunCleaning(cfg, run);
      run := Continue(cfg, run, Write(Stop(None)));
      run := CommitFails(cfg, run);
    } else {
      run := Continue(cfg, run, Call(0, CommitFault({Checkpoint(2)})));
    }
  }

  /** A rollback that carries a sequence deletes whatever manifest has it by then. */
  lemma {:induction false} RollbackLoses(cfg: Config, before: seq<State>) returns (run: seq<State>)
    requires IsRun(cfg, before) && Last(before).lock.Free? && Last(before).pointer == 1
    requires Last(before).manifests == First(OneRow())
    requires 0 in Last(before).procs && Last(before).procs[0].RollingBack? && Last(before).procs[0].seqno == 2
    ensures IsRun(cfg, run) && |run| >= 2 && !KeepsHistory(run[|run| - 2], run[|run| - 1])
  {
    run := WriterDeletes(cfg, before);
    run := Continue(cfg, run, Call(0, RollbackFiles));
    assert 2 in Last(run).manifests;
    run := Continue(cfg, run, Call(0, RollbackManifest));
  }

  lemma {:induction false} HistoryLost(cfg: Config) returns (run: seq<State>)
    requires !HistoryGuarded(cfg)
    ensures IsRun(cfg, run) && |run| >= 2 && !KeepsHistory(run[|run| - 2], run[|run| - 1])
  {
    if cfg.compactors >= 2 {
      run := RunToFailedCommit(cfg);
    } else {
      run := RunToFailure(cfg);
    }
    run := RollbackLoses(cfg, run);
  }

  /** No committed manifest is ever lost if and only if there is at most one compactor, and with one no commit
      fails after choosing its sequence and no writer gives up. */
  lemma {:induction false} HistorySafeIff(cfg: Config)
    ensures HistorySafe(cfg) <==> HistoryGuarded(cfg)
  {
    if HistoryGuarded(cfg) {
      forall run: seq<State>, i: nat | IsRun(cfg, run) && i + 1 < |run|
        ensures KeepsHistory(run[i], run[i + 1])
      {
        SoloRun(cfg, run, i);
      }
    } else {
      var run := HistoryLost(cfg);
      assert |run| - 2 + 1 == |run| - 1;
    }
  }

  // ---- row groups that are lost ----

  /** A cleanup between two renames takes the data file and leaves the metadata, which is all that the
      commit looks at. */
  lemma {:induction false} CommitWithoutData(cfg: Config, before: seq<State>) returns (run: seq<State>)
    requires IsRun(cfg, before) && Last(before).files == ChunkFiles(0) + {Meta(2), Agg(2)} && Last(before).lock.Free?
    requires Last(before).pointer == 1 && Last(before).manifests == First(OneRow())
    requires Slot(Last(before), 0, Staged())
    ensures IsRun(cfg, run) && !InPlace(Last(run), false)
  {
    assert Metas(Staged().staged) <= {Meta(2)} && WillPublish(Last(before), 0);
    run := Continue(cfg, before, Call(0, Commit));
    assert 2 in Last(run).manifests && Data(2) in Last(run).manifests[2].files;
    FileMissing(Last(run), 2, Data(2), false);
  }

  lemma {:induction false} FileMissing(s: State, q: nat, f: File, all: bool)
    requires q in s.manifests && q <= s.pointer && f in s.manifests[q].files && f !in s.files && (all || IsCore(f))
    ensures !InPlace(s, all)
  {
    assert CommittedRef(s, f);
  }

  /** The cleanup of another call comes between the renames. */
  lemma {:induction false} RunToDataGone(cfg: Config) returns (run: seq<State>)
    requires cfg.compactors >= 2
    ensures IsRun(cfg, run) && Last(run).files == ChunkFiles(0) + {Meta(2), Agg(2)} && Last(run).lock.Free?
    ensures Last(run).pointer == 1 && Last(run).manifests == First(OneRow()) && Slot(Last(run), 0, Staged())
  {
    run := RunToTornRename(cfg);
    run := RunSecondPin(cfg, run);
    run := RunRenames(cfg, run);
    run := Continue(cfg, run, Call(1, PinFinish));
    assert Last(run).manifests == First(OneRow());
  }

  /** The cleanup of a writer that then gives up comes between the renames. */
  lemma {:induction false} RunToDataGoneByWriter(cfg: Config) returns (run: seq<State>)
    requires cfg.compactors >= 1 && cfg.writersGiveUp
    ensures IsRun(cfg, run) && Last(run).files == ChunkFiles(0) + {Meta(2), Agg(2)} && Last(run).lock.Free?
    ensures Last(run).pointer == 1 && Last(run).manifests == First(OneRow()) && Slot(Last(run), 0, Staged())
  {
    run := RunToTornRename(cfg);
    run := RunCleaning(cfg, run);
    run := RunRenames(cfg, run);
    run := Continue(cfg, run, Write(Stop(None)));
  }

  lemma {:induction false} DataLost(cfg: Config) returns (run: seq<State>)
    requires !RowGroupsGuarded(cfg)
    ensures IsRun(cfg, run) && !InPlace(Last(run), false)
  {
    if cfg.compactors >= 2 {
      run := RunToDataGone(cfg);
    } else {
      run := RunToDataGoneByWriter(cfg);
    }
    run := CommitWithoutData(cfg, run);
  }

  lemma {:induction false} FilesLost(cfg: Config, all: bool, run: seq<State>)
    requires IsRun(cfg, run) && !InPlace(Last(run), all)
    ensures !FilesSafe(cfg, all)
  {
  }

  /** The row groups of committed manifests stay in place in every run if and only if there is at most
      one compactor, and with one no writer gives up between its cleanup and its publication. */
  lemma {:induction false} RowGroupsSafeIff(cfg: Config)
    ensures FilesSafe(cfg, false) <==> RowGroupsGuarded(cfg)
  {
    if RowGroupsGuarded(cfg) {
      forall run: seq<State>, i: nat | IsRun(cfg, run) && i < |run|
        ensures InPlace(run[i], false)
      {
        SoloRun(cfg, run, i);
        SoloInPlace(cfg, run[i]);
      }
    } else {
      var run := DataLost(cfg);
      FilesLost(cfg, false, run);
    }
  }

  // ---- other files that are lost ----

  /** A pin while an intent lists a file of the current manifest that belongs to no row group. */
  lemma {:induction false} PinTakes(cfg: Config, before: seq<State>, c: nat, t: nat, f: File) returns (run: seq<State>)
    requires IsRun(cfg, before) && Last(before).pointer == 2 && Last(before).lock.Free?
    requires 2 in Last(before).manifests && f in Last(before).manifests[2].files && !IsCore(f)
    requires t in Last(before).intents && f in Last(before).intents[t] && Slot(Last(before), c, Idle(0))
    ensures IsRun(cfg, run) && !InPlace(Last(run), true)
  {
    assert f in Intended(Last(before)) && f !in Core(CurrentFiles(Last(before)));
    run := Continue(cfg, before, Call(c, PinStart(2)));
    FileMissing(Last(run), 2, f, true);
  }

  /** Call 0 has published, and its intent is still there. */
  lemma {:induction false} RunToPublished(cfg: Config) returns (run: seq<State>)
    requires cfg.compactors >= 1
    ensures IsRun(cfg, run) && Last(run).pointer == 2 && Last(run).lock.Free?
    ensures 2 in Last(run).manifests && Extras(2) <= Last(run).manifests[2].files
    ensures Last(run).intents == map[1 := Extras(2)]
    ensures Slot(Last(run), 0, Published(2, 1))
    ensures cfg.compactors >= 2 ==> Slot(Last(run), 1, Idle(0))
  {
    run := RunToScan(cfg, map[]);
    assert Metas({}) == {};
    run := Continue(cfg, run, Call(0, Commit));
    assert {} + Extras(2) == Extras(2);
  }

  /** A call has published and died, or another pins before it has dropped its intent. */
  lemma {:induction false} ExtrasLostByCall(cfg: Config) returns (run: seq<State>)
    requires cfg.compactors >= 2 || (cfg.compactors == 1 && cfg.callsDie)
    ensures IsRun(cfg, run) && !InPlace(Last(run), true)
  {
    run := RunToPublished(cfg);
    assert RowIndexBase(2) in Extras(2);
    if cfg.compactors >= 2 {
      run := PinTakes(cfg, run, 1, 1, RowIndexBase(2));
    } else {
      run := Continue(cfg, run, Call(0, Crash));
      run := Continue(cfg, run, Call(0, Restart));
      run := PinTakes(cfg, run, 0, 1, RowIndexBase(2));
    }
  }

  /** A writer has deleted a row and died before it dropped its intent: the next pin deletes the deletion
      vector. */
  lemma {:induction false} DeletionLostByWriter(cfg: Config) returns (run: seq<State>)
    requires cfg.compactors >= 1 && cfg.writersLeave
    ensures IsRun(cfg, run) && !InPlace(Last(run), true)
  {
    run := Start(cfg, OneRow());
    assert 0 in Last(run).procs;
    MayDelete(Last(run));
    run := WriterMovesPointer(cfg, run, map[], ChunkFiles(0), DeletedNames(), 2);
    run := Continue(cfg, run, Write(Stop(None)));
    assert 2 in Last(run).manifests && Deletion(0, 1) in DeletedNames();
    run := PinTakes(cfg, run, 0, 1, Deletion(0, 1));
  }

  /** The rollback of a failed commit deletes the checkpoint that a writer has meanwhile written under the
      same number. */
  lemma {:induction false} CheckpointLostByRollback(cfg: Config) returns (run: seq<State>)
    requires cfg.compactors >= 1 && cfg.commitFails && !cfg.writersGiveUp
    ensures IsRun(cfg, run) && !InPlace(Last(run), true)
  {
    run := RunToFailure(cfg);
    run := WriterDeletes(cfg, run);
    run := Continue(cfg, run, Call(0, RollbackFiles));
    assert 2 in Last(run).manifests && Checkpoint(2) in Last(run).manifests[2].files;
    FileMissing(Last(run), 2, Checkpoint(2), true);
  }

  /** Other files of committed manifests are lost by a leftover intent, of a call or of a writer, or by a
      rollback. */
  lemma {:induction false} ExtrasLost(cfg: Config) returns (run: seq<State>)
    requires !AllFilesGuarded(cfg) && RowGroupsGuarded(cfg)
    ensures IsRun(cfg, run) && !InPlace(Last(run), true)
  {
    if cfg.callsDie {
      run := ExtrasLostByCall(cfg);
    } else if cfg.writersLeave {
      run := DeletionLostByWriter(cfg);
    } else {
      run := CheckpointLostByRollback(cfg);
    }
  }

  /** All files of committed manifests, deletion vectors, index files and checkpoints included, stay in place
      in every run if and only if there is at most one compactor, and with one no commit fails and no call or
      writer gives up half-way, dies or leaves its intent. */
  lemma {:induction false} AllFilesSafeIff(cfg: Config)
    ensures FilesSafe(cfg, true) <==> AllFilesGuarded(cfg)
  {
    if AllFilesGuarded(cfg) {
      forall run: seq<State>, i: nat | IsRun(cfg, run) && i < |run|
        ensures InPlace(run[i], true)
      {
        SoloRun(cfg, run, i);
        SoloInPlace(cfg, run[i]);
      }
    } else if RowGroupsGuarded(cfg) {
      var run := ExtrasLost(cfg);
      FilesLost(cfg, true, run);
    } else {
      var run := DataLost(cfg);
      FilesLost(cfg, true, run);
    }
  }

  // ---- publications when history is lost ----

  ghost predicate IsScanOf2(p: Phase) {
    p.Rewriting? && p.pinned == 2 && p.scan == Scan(2, map[], true, 0) && p.todo == 0 && p.chunk.None? && p.staged == {}
  }

  /** A writer has published the manifest 2 that call 0 is about to delete. */
  lemma {:induction false} RunToDoomed2(cfg: Config) returns (run: seq<State>)
    requires cfg.compactors >= 2
    ensures IsRun(cfg, run) && Last(run).lock.Free? && Last(run).pointer == 2
    ensures Last(run).manifests == First(OneRow())[2 := Deleted()]
    ensures Slot(Last(run), 0, RollingBack(0, 1, ChunkFiles(2), 2, false)) && Slot(Last(run), 1, Idle(0))
  {
    run := RunToFailedCommit(cfg);
    run := Continue(cfg, run, Call(1, SkipScan));
    run := Continue(cfg, run, Call(1, Restart));
    run := WriterDeletes(cfg, run);
  }

  /** Call 1 has pinned it. */
  lemma {:induction false} RunToPinOf2(cfg: Config) returns (run: seq<State>)
    requires cfg.compactors >= 2
    ensures IsRun(cfg, run) && Last(run).lock.Free? && Last(run).pointer == 2
    ensures Last(run).manifests == First(OneRow())[2 := Deleted()]
    ensures Slot(Last(run), 0, RollingBack(0, 1, ChunkFiles(2), 2, false))
    ensures 1 in Last(run).procs && Last(run).procs[1].Pinned? && Last(run).procs[1].pinned == 2
  {
    run := RunToDoomed2(cfg);
    var m := Last(run).manifests;
    assert 2 in m;
    run := Continue(cfg, run, Call(1, PinStart(2)));
    run := Continue(cfg, run, Call(1, PinFinish));
    assert Last(run).manifests == m;
  }

  /** It has scanned it, too. */
  lemma {:induction false} RunToScanOf2(cfg: Config) returns (run: seq<State>)
    requires cfg.compactors >= 2
    ensures IsRun(cfg, run) && Last(run).lock.Free? && Last(run).pointer == 2
    ensures Last(run).manifests == First(OneRow())[2 := Deleted()]
    ensures Slot(Last(run), 0, RollingBack(0, 1, ChunkFiles(2), 2, false))
    ensures 1 in Last(run).procs && IsScanOf2(Last(run).procs[1])
  {
    run := RunToPinOf2(cfg);
    assert 2 in Last(run).manifests && Data(0) in Deleted().files;
    run := Continue(cfg, run, Call(1, OpenScan(0, true)));
  }

  /** Call 0's rollback has taken manifest 2, which call 1 has pinned and scanned. */
  lemma {:induction false} RunToLostPin(cfg: Config) returns (run: seq<State>)
    requires cfg.compactors >= 2
    ensures IsRun(cfg, run) && Last(run).lock.Free? && Last(run).pointer == 2
    ensures Last(run).manifests == First(OneRow())
    ensures Slot(Last(run), 0, Finished(Failed))
    ensures 1 in Last(run).procs && IsScanOf2(Last(run).procs[1])
  {
    run := RunToScanOf2(cfg);
    run := Continue(cfg, run, Call(0, RollbackFiles));
    run := Continue(cfg, run, Call(0, RollbackManifest));
    assert Last(run).manifests == First(OneRow());
  }

  /** The pointer went back to manifest 1. */
  lemma {:induction false} RunToRepair(cfg: Config) returns (run: seq<State>)
    requires cfg.compactors >= 2
    ensures IsRun(cfg, run) && Last(run).lock.Free? && Last(run).pointer == 1
    ensures Last(run).manifests == First(OneRow())
    ensures 1 in Last(run).procs && IsScanOf2(Last(run).procs[1])
  {
    run := RunToLostPin(cfg);
    run := Continue(cfg, run, Call(0, Restart));
    var m := Last(run).manifests;
    assert 1 in m && 2 !in m;
    run := Continue(cfg, run, Call(0, PinStart(1)));
    run := Continue(cfg, run, Call(0, PinFinish));
    assert Last(run).manifests == m;
  }

  /** And forward to another manifest 2, with which a writer has replaced everything. */
  lemma {:induction false} RunToOther2(cfg: Config) returns (run: seq<State>)
    requires cfg.compactors >= 2
    ensures IsRun(cfg, run) && Last(run).lock.Free? && Last(run).pointer == 2
    ensures Last(run).manifests.Keys == {1, 2} && Last(run).manifests[2].rows == map[1 := "y"]
    ensures 1 in Last(run).procs && IsScanOf2(Last(run).procs[1])
  {
    run := RunToRepair(cfg);
    var s := Last(run);
    var none: set<File>, names := {}, ChunkFiles(s.nextName + 1) + {Checkpoint(2)};
    assert Data(s.nextName + 1) in none + names;
    assert 1 in s.manifests;
    run := WriterRuns(cfg, run, map[1 := "y"], none, names, s.nextName + 2);
  }

  /** Then call 1, which still holds the old manifest 2, overwrites the new one with what it scanned before. */
  lemma {:induction false} PublishesOnLostManifest(cfg: Config) returns (run: seq<State>)
    requires cfg.compactors >= 2
    ensures IsRun(cfg, run) && |run| >= 2
    ensures Publishes(run[|run| - 2], run[|run| - 1], 1) && !BuiltOnPredecessor(run[|run| - 2], run[|run| - 1])
  {
    var before := RunToOther2(cfg);
    var none: set<File> := {};
    assert Metas(none) == {};
    run := Continue(cfg, before, Call(1, Commit));
    assert run[|run| - 2] == run[..|before|][|before| - 1];
    assert 1 in map[1 := "y"];
  }

  /** Every publication in every run is built on its predecessor if and only if there is at most one
      compactor; failures and deaths do no harm here. */
  lemma {:induction false} PublicationsSafeIff(cfg: Config)
    ensures PublicationsSafe(cfg) <==> cfg.compactors <= 1
  {
    if cfg.compactors <= 1 {
      forall run: seq<State>, i: nat | IsRun(cfg, run) && i + 1 < |run|
        ensures PublishesWell(run[i], run[i + 1])
      {
        var s, s' := run[i], run[i + 1];
        forall c: nat | Publishes(s, s', c)
          ensures BuiltOnPredecessor(s, s')
        {
          EveryPublicationIsBuiltOnPredecessor(cfg, run, i, c);
        }
      }
    } else {
      var run := PublishesOnLostManifest(cfg);
      var i: nat := |run| - 2;
      assert run[i + 1] == run[|run| - 1] && !PublishesWell(run[i], run[i + 1]);
    }
  }
}
