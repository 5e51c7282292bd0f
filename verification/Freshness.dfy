// How a live native connection stays current (`_NativeIcefallDBConnection` in
// python/icefalldb/adapter.py), over tables whose state is a manifest pointer and a mutation log
// (`live_manifest` and `checkpoint_locked` in crates/icefalldb-core/src/mutation_wal.rs).
// Other processes may commit or checkpoint between any two reads of a file.
module Freshness {
  import opened Collections

  // ---- the two files of a table ----

  /** Commits are numbered 1, 2, ... . The manifest behind the pointer contains the commits up to `pointer`,
      the log the deferred ones; `live` counts all. Each file has a version that every change raises. */
  datatype Disk = Disk(pointer: nat, log: Option<set<nat>>, live: nat, pointerVersion: nat, logVersion: nat)

  function Logged(d: Disk): set<nat> { if d.log.Some? then d.log.value else {} }

  ghost predicate WellFormed(d: Disk) {
    && d.pointer <= d.live
    && (forall r: nat :: r in Logged(d) ==> r <= d.live)
    && (forall r: nat :: d.pointer < r <= d.live ==> r in Logged(d))
    && (d.log.Some? ==> d.log.value != {})
  }

  /** What other processes do. A checkpoint folds the log into a new manifest, moves the pointer, and then
      deletes the log. */
  datatype Step = LogCommit | PointerCommit | Fold | Clear

  predicate Enabled(d: Disk, s: Step) {
    match s
    case Fold => d.log.Some?
    case Clear => d.log.Some? && forall r :: r in d.log.value ==> r <= d.pointer
    case _ => true
  }

  function Apply(d: Disk, s: Step): Disk {
    match s
    case LogCommit => d.(log := Some(Logged(d) + {d.live + 1}), live := d.live + 1, logVersion := d.logVersion + 1)
    case PointerCommit => d.(pointer := d.live + 1, live := d.live + 1, pointerVersion := d.pointerVersion + 1)
    case Fold => d.(pointer := d.live, pointerVersion := d.pointerVersion + 1)
    case Clear => d.(log := None, logVersion := d.logVersion + 1)
  }

  /** A history of one table: every state it went through. */
  type History = seq<Disk>

  ghost predicate IsHistory(h: History) {
    && h != [] && WellFormed(h[0])
    && forall i :: 0 <= i < |h| - 1 ==> IsStep(h[i], h[i + 1])
  }

  ghost predicate IsStep(d: Disk, e: Disk) {
    exists s :: Enabled(d, s) && e == Apply(d, s)
  }

  /** No checkpoint deletes the log between two points. */
  ghost predicate NoClear(h: History, i: nat, j: nat)
    requires i <= j < |h|
  {
    forall k :: i <= k < j ==> !(h[k].log.Some? && h[k + 1].log.None?)
  }

  // ---- what a history keeps ----

  lemma {:induction false} HistoryWellFormed(h: History, i: nat)
    requires IsHistory(h) && i < |h|
    ensures WellFormed(h[i])
  {
    if i > 0 {
      HistoryWellFormed(h, i - 1);
      assert IsStep(h[i - 1], h[i - 1 + 1]);
      var s :| Enabled(h[i - 1], s) && h[i] == Apply(h[i - 1], s);
      StepWellFormed(h[i - 1], s);
    }
  }

  lemma {:induction false} NothingPending(d: Disk)
    requires WellFormed(d) && d.log.None?
    ensures d.live == d.pointer
  {
    assert d.pointer < d.live ==> d.live in Logged(d);
  }

  lemma {:induction false} StepWellFormed(d: Disk, s: Step)
    requires WellFormed(d) && Enabled(d, s)
    ensures WellFormed(Apply(d, s))
  {
    var e := Apply(d, s);
    if s.Clear? {
      assert e.pointer < e.live ==> e.live in Logged(d);
    } else if s.LogCommit? {
      assert e.live in Logged(e);
    }
  }

  /** Time only moves on; a file with the same version is the same file; without a clearing the log only grows. */
  ghost predicate Later(d: Disk, e: Disk, cleared: bool) {
    && d.pointer <= e.pointer && d.live <= e.live
    && d.pointerVersion <= e.pointerVersion && d.logVersion <= e.logVersion
    && (d.pointerVersion == e.pointerVersion ==> d.pointer == e.pointer)
    && (d.logVersion == e.logVersion ==> d.log == e.log)
    && (forall r: nat :: r in Logged(e) ==> (r in Logged(d) && !cleared) || r > d.live)
    && (!cleared ==> Logged(d) <= Logged(e) && (d.log.Some? ==> e.log.Some?))
    && (cleared && d.log.None? ==> e.pointerVersion > d.pointerVersion)
    && (!cleared && d.log.None? && e.log.None? ==> e.logVersion == d.logVersion)
  }

  lemma {:induction false} LaterInHistory(h: History, i: nat, j: nat)
    requires IsHistory(h) && i <= j < |h|
    ensures Later(h[i], h[j], !NoClear(h, i, j))
    decreases j
  {
    HistoryWellFormed(h, i);
    if i < j {
      LaterInHistory(h, i, j - 1);
      HistoryWellFormed(h, j - 1);
      assert IsStep(h[j - 1], h[j - 1 + 1]);
      var s :| Enabled(h[j - 1], s) && h[j] == Apply(h[j - 1], s);
      NoClearSnoc(h, i, j);
      LaterStep(h[i], h[j - 1], s, !NoClear(h, i, j - 1));
    }
  }

  lemma {:induction false} NoClearSnoc(h: History, i: nat, j: nat)
    requires i < j < |h|
    ensures NoClear(h, i, j) <==> NoClear(h, i, j - 1) && !(h[j - 1].log.Some? && h[j].log.None?)
  {
    if NoClear(h, i, j) {
      assert !(h[j - 1].log.Some? && h[j - 1 + 1].log.None?);
    }
  }

  lemma {:induction false} LaterStep(d: Disk, e: Disk, s: Step, cleared: bool)
    requires WellFormed(d) && WellFormed(e) && Enabled(e, s) && Later(d, e, cleared)
    ensures Later(d, Apply(e, s), cleared || s.Clear?)
  {
    if s.Clear? && d.log.None? && !cleared {
      var r: nat :| r in e.log.value;
      assert r > d.live && r <= e.pointer;
    }
  }

  // ---- what a load shows ----

  /** A loaded snapshot: the manifest it started from and the log records it applied on top. */
  datatype View = View(base: nat, applied: set<nat>)

  /** `live_manifest`: the records above the manifest's number, whether or not they follow on it. */
  function Show(pointer: nat, log: set<nat>): View {
    View(pointer, set r | r in log && r > pointer)
  }

  /** The view contains every commit up to `n`. */
  ghost predicate Shows(v: View, n: nat) {
    forall r: nat :: 0 < r <= n ==> r <= v.base || r in v.applied
  }

  /** Loading reads the pointer first and the log later. The result contains the commits up to `n` that
      were there at the first read, if and only if they are all in the manifest or no checkpoint deletes
      the log between the two reads. */
  lemma {:induction false} LoadShowsIff(h: History, i: nat, j: nat, n: nat)
    requires IsHistory(h) && i <= j < |h| && n <= h[i].live
    ensures Shows(Show(h[i].pointer, Logged(h[j])), n) <==> n <= h[i].pointer || NoClear(h, i, j)
  {
    LaterInHistory(h, i, j);
    HistoryWellFormed(h, i);
    var v := Show(h[i].pointer, Logged(h[j]));
    if n > h[i].pointer && !NoClear(h, i, j) {
      assert n !in Logged(h[j]);
      assert n !in v.applied;
    }
  }

  /** A load torn by a checkpoint misses a commit that was there before it began. */
  lemma {:induction false} TornLoad() returns (h: History)
    ensures IsHistory(h) && h[0].live == 6
    ensures !Shows(Show(h[0].pointer, Logged(h[|h| - 1])), 6)
  {
    var d := Disk(5, Some({6}), 6, 0, 0);
    var e, f := Apply(d, Fold), Apply(Apply(d, Fold), Clear);
    h := [d, e, f];
    assert Enabled(d, Fold) && Enabled(e, Clear);
    assert IsStep(d, e) && IsStep(e, f);
    assert 6 !in Show(5, Logged(f)).applied;
  }

  // ---- what a signature tells ----

  /** The stat signature: versions of the two files; a missing log has none. */
  datatype Sig = Sig(pointer: nat, log: Option<nat>)

  function LogSig(d: Disk): Option<nat> { if d.log.Some? then Some(d.logVersion) else None }

  /** A signature captured at (i1, j1), a load at (a, b) and a check at (c1, c2), in this order. */
  ghost predicate InOrder(h: History, i1: nat, j1: nat, a: nat, b: nat, c1: nat, c2: nat) {
    i1 <= j1 <= a <= b <= c1 <= c2 < |h|
  }

  ghost predicate Matches(h: History, i1: nat, j1: nat, c1: nat, c2: nat)
    requires i1 < |h| && j1 < |h| && c1 < |h| && c2 < |h|
  {
    h[c1].pointerVersion == h[i1].pointerVersion && LogSig(h[c2]) == LogSig(h[j1])
  }

  /** When the signature matches, the loaded view contains everything committed before the check if and
      only if a log was there when the signature was captured, or none was at the check, or nothing was
      committed since the load. */
  lemma {:induction false} CheckIsSoundIff(h: History, i1: nat, j1: nat, a: nat, b: nat, c1: nat, c2: nat)
    requires IsHistory(h) && InOrder(h, i1, j1, a, b, c1, c2) && Matches(h, i1, j1, c1, c2)
    ensures Shows(Show(h[a].pointer, Logged(h[b])), h[c1].live) <==>
            h[j1].log.Some? || h[c1].log.None? || h[b].live == h[c1].live
  {
    SamePointer(h, i1, a, b, c1);
    HistoryWellFormed(h, b);
    HistoryWellFormed(h, c1);
    LaterInHistory(h, b, c1);
    var v := Show(h[a].pointer, Logged(h[b]));
    if h[j1].log.Some? {
      SameLog(h, j1, b, c1, c2);
    } else if h[c1].log.None? {
      NothingPending(h[c1]);
    } else if h[b].live < h[c1].live {
      assert h[c1].live !in v.applied;
    }
  }

  /** The pointer did not move from the capture to the check. */
  lemma {:induction false} SamePointer(h: History, i1: nat, a: nat, b: nat, c1: nat)
    requires IsHistory(h) && i1 <= a <= b <= c1 < |h| && h[c1].pointerVersion == h[i1].pointerVersion
    ensures h[a].pointer == h[b].pointer == h[c1].pointer
    ensures h[b].pointerVersion == h[c1].pointerVersion
  {
    LaterInHistory(h, i1, a);
    LaterInHistory(h, a, b);
    LaterInHistory(h, b, c1);
  }

  /** A log that was there at the capture and has the same version at the check did not change. */
  lemma {:induction false} SameLog(h: History, j1: nat, b: nat, c1: nat, c2: nat)
    requires IsHistory(h) && j1 <= b <= c1 <= c2 < |h| && h[j1].log.Some? && LogSig(h[c2]) == LogSig(h[j1])
    ensures h[b].log == h[c1].log
  {
    LaterInHistory(h, j1, b);
    LaterInHistory(h, b, c1);
    LaterInHistory(h, c1, c2);
  }

  /** In particular when no checkpoint deletes the log during the check. */
  lemma {:induction false} CheckIsSound(h: History, i1: nat, j1: nat, a: nat, b: nat, c1: nat, c2: nat)
    requires IsHistory(h) && InOrder(h, i1, j1, a, b, c1, c2) && Matches(h, i1, j1, c1, c2) && NoClear(h, c1, c2)
    ensures Shows(Show(h[a].pointer, Logged(h[b])), h[c1].live)
  {
    LaterInHistory(h, c1, c2);
    CheckIsSoundIff(h, i1, j1, a, b, c1, c2);
  }

  /** A check torn by a checkpoint takes an outdated view for current: the log was missing when the signature
      was captured and is missing again, and the pointer was looked at before it moved. */
  lemma {:induction false} TornCheck() returns (h: History, c1: nat, c2: nat)
    ensures IsHistory(h) && InOrder(h, 0, 0, 0, 0, c1, c2) && Matches(h, 0, 0, c1, c2)
    ensures !Shows(Show(h[0].pointer, Logged(h[0])), h[c1].live)
  {
    var d := Disk(5, None, 5, 0, 0);
    var e := Apply(d, LogCommit);
    var f := Apply(e, Fold);
    var g := Apply(f, Clear);
    h, c1, c2 := [d, e, f, g], 1, 3;
    assert Enabled(d, LogCommit) && Enabled(e, Fold) && Enabled(f, Clear);
    assert IsStep(d, e) && IsStep(e, f) && IsStep(f, g);
    CheckIsSoundIff(h, 0, 0, 0, 0, c1, c2);
  }

  // ---- the world: the files of several tables, changed by anyone at any time ----

  type Table = string

  class World {
    /** Every table with its history; the last state is the present one. */
    var history: map<Table, History>
    /** How many loads have failed so far. */
    ghost var failures: nat

    ghost predicate Valid()
      reads this
    {
      forall t :: t in history ==> IsHistory(history[t])
    }

    constructor (history: map<Table, History>)
      requires forall t :: t in history ==> IsHistory(history[t])
      ensures Valid() && this.history == history && failures == 0
    {
      this.history := history;
      failures := 0;
    }

    /** One step of one table. */
    method Advance(t: Table, s: Step)
      requires Valid() && t in history && Enabled(Now(history[t]), s)
      modifies this
      ensures Valid() && Extended(old(history), history) && failures == old(failures)
      ensures history[t] == old(history)[t] + [Apply(Now(old(history)[t]), s)]
    {
      AdvanceIsHistory(history[t], s);
      history := history[t := history[t] + [Apply(Now(history[t]), s)]];
    }

    /** Any steps of any tables. */
    method Others()
      requires Valid()
      modifies this
      ensures Valid() && Extended(old(history), history) && failures == old(failures)
    {
      var n: nat := *;
      while n > 0
        invariant Valid() && Extended(old(history), history) && failures == old(failures)
      {
        var t: Table := *;
        var s: Step := *;
        if t in history && Enabled(Now(history[t]), s) {
          Advance(t, s);
        }
        n := n - 1;
      }
    }

    /** `_manifest_sig`: stat the pointer, then the log. */
    method Stat(t: Table) returns (sig: Sig, ghost i: nat, ghost j: nat)
      requires Valid() && t in history
      modifies this
      ensures Valid() && Extended(old(history), history) && |old(history)[t]| - 1 <= i <= j < |history[t]|
      ensures sig == Sig(history[t][i].pointerVersion, LogSig(history[t][j])) && failures == old(failures)
    {
      Others();
      var pointer := Now(history[t]).pointerVersion;
      i := |history[t]| - 1;
      Others();
      sig := Sig(pointer, LogSig(Now(history[t])));
      j := |history[t]| - 1;
      Others();
    }

    /** `Catalog::load`: read the manifest behind the pointer, then the log. */
    method ReadBoth(t: Table) returns (v: View, ghost i: nat, ghost j: nat)
      requires Valid() && t in history
      modifies this
      ensures Valid() && Extended(old(history), history) && |old(history)[t]| - 1 <= i <= j < |history[t]|
      ensures v == Show(history[t][i].pointer, Logged(history[t][j])) && failures == old(failures)
    {
      Others();
      var pointer := Now(history[t]).pointer;
      i := |history[t]| - 1;
      Others();
      v := Show(pointer, Logged(Now(history[t])));
      j := |history[t]| - 1;
      Others();
    }

    /** A load may fail. */
    method Load(t: Table) returns (v: Option<View>, ghost i: nat, ghost j: nat)
      requires Valid() && t in history
      modifies this
      ensures Valid() && Extended(old(history), history) && |old(history)[t]| - 1 <= i <= j < |history[t]|
      ensures v.Some? ==> v.value == Show(history[t][i].pointer, Logged(history[t][j]))
      ensures failures == old(failures) + if v.None? then 1 else 0
    {
      var view;
      view, i, j := ReadBoth(t);
      var fails: bool := *;
      if fails {
        failures := failures + 1;
        return None, i, j;
      }
      v := Some(view);
    }
  }

  function Now(h: History): Disk
    requires h != []
  {
    h[|h| - 1]
  }

  lemma {:induction false} AdvanceIsHistory(h: History, s: Step)
    requires IsHistory(h) && Enabled(Now(h), s)
    ensures IsHistory(h + [Apply(Now(h), s)])
  {
    var g := h + [Apply(Now(h), s)];
    forall i | 0 <= i < |g| - 1
      ensures IsStep(g[i], g[i + 1])
    {
      if i < |h| - 1 { assert IsStep(h[i], h[i + 1]); }
    }
  }

  /** Histories only grow. */
  ghost predicate Extended(before: map<Table, History>, after: map<Table, History>) {
    && before.Keys == after.Keys
    && forall t :: t in before ==> before[t] <= after[t]
  }

  // ---- captures, loads and checks of one table ----

  /** When the two files were read, as points of the table's history. */
  datatype Points = Points(first: nat, second: nat)

  ghost predicate Since(h: History, start: nat, at: Points) {
    start <= at.first <= at.second < |h|
  }

  ghost predicate CapturedAt(h: History, sig: Sig, at: Points) {
    at.first < |h| && at.second < |h| && sig == Sig(h[at.first].pointerVersion, LogSig(h[at.second]))
  }

  ghost predicate LoadedAt(h: History, v: View, at: Points) {
    at.first < |h| && at.second < |h| && v == Show(h[at.first].pointer, Logged(h[at.second]))
  }

  /** A signature captured before the view was loaded. */
  ghost predicate TableOk(h: History, sig: Sig, v: View, captured: Points, read: Points) {
    && captured.first <= captured.second <= read.first <= read.second < |h|
    && CapturedAt(h, sig, captured) && LoadedAt(h, v, read)
  }

  /** A view loaded since `start` contains the commits there were then, if and only if they are all in the
      manifest it started from or no checkpoint tore the load. */
  ghost predicate LoadedSince(h: History, start: nat, v: View, read: Points) {
    && Since(h, start, read)
    && forall n: nat :: n <= h[start].live ==>
         (Shows(v, n) <==> n <= h[read.first].pointer || NoClear(h, read.first, read.second))
  }

  /** A view that a check since `start` found current contains the commits there were at the check, if and
      only if no checkpoint tore the check, or nothing was committed since the load. */
  ghost predicate CheckedSince(h: History, start: nat, v: View, captured: Points, read: Points, check: Points) {
    && Since(h, start, check) && captured.second < |h| && read.second < |h|
    && (Shows(v, h[check.first].live) <==>
          h[captured.second].log.Some? || h[check.first].log.None? || h[read.second].live == h[check.first].live)
    && (NoClear(h, check.first, check.second) ==> Shows(v, h[check.first].live))
  }

  lemma {:induction false} LoadIsFresh(h: History, start: nat, v: View, read: Points)
    requires IsHistory(h) && Since(h, start, read) && LoadedAt(h, v, read)
    ensures LoadedSince(h, start, v, read)
  {
    LaterInHistory(h, start, read.first);
    forall n: nat | n <= h[start].live
      ensures Shows(v, n) <==> n <= h[read.first].pointer || NoClear(h, read.first, read.second)
    {
      LoadShowsIff(h, read.first, read.second, n);
    }
  }

  lemma {:induction false} CheckIsFresh(h: History, start: nat, sig: Sig, v: View, captured: Points, read: Points,
                                        check: Points)
    requires IsHistory(h) && TableOk(h, sig, v, captured, read) && Since(h, start, check)
    requires read.second <= start && CapturedAt(h, sig, check)
    ensures CheckedSince(h, start, v, captured, read, check)
  {
    CheckIsSoundIff(h, captured.first, captured.second, read.first, read.second, check.first, check.second);
    if NoClear(h, check.first, check.second) {
      CheckIsSound(h, captured.first, captured.second, read.first, read.second, check.first, check.second);
    }
  }

  /** Either way: when no checkpoint deletes the log from `start` on, every commit there was at `start` shows. */
  lemma {:induction false} FreshUnlessCleared(h: History, start: nat, v: View, captured: Points, read: Points,
                                              check: Points)
    requires IsHistory(h) && start < |h| && NoClear(h, start, |h| - 1)
    requires LoadedSince(h, start, v, read) || CheckedSince(h, start, v, captured, read, check)
    ensures Shows(v, h[start].live)
  {
    if LoadedSince(h, start, v, read) {
      assert NoClear(h, read.first, read.second);
    } else {
      assert NoClear(h, check.first, check.second);
      LaterInHistory(h, start, check.first);
    }
  }

  /** What was said of a history stays true of a longer one. */
  lemma {:induction false} Grows(h: History, g: History, start: nat, sig: Sig, v: View, captured: Points,
                                 read: Points, check: Points)
    requires h <= g
    ensures TableOk(h, sig, v, captured, read) ==> TableOk(g, sig, v, captured, read)
    ensures CapturedAt(h, sig, captured) ==> CapturedAt(g, sig, captured)
    ensures LoadedAt(h, v, read) ==> LoadedAt(g, v, read)
    ensures LoadedSince(h, start, v, read) ==> LoadedSince(g, start, v, read)
    ensures CheckedSince(h, start, v, captured, read, check) ==> CheckedSince(g, start, v, captured, read, check)
  {
    if LoadedSince(h, start, v, read) {
      assert NoClear(h, read.first, read.second) <==> NoClear(g, read.first, read.second) by {
        SameClears(h, g, read.first, read.second);
      }
    }
    if CheckedSince(h, start, v, captured, read, check) {
      SameClears(h, g, check.first, check.second);
    }
  }

  lemma {:induction false} SameClears(h: History, g: History, i: nat, j: nat)
    requires h <= g && i <= j < |h|
    ensures NoClear(h, i, j) <==> NoClear(g, i, j)
  {
    assert forall k :: 0 <= k < |h| ==> g[k] == h[k];
  }

  // ---- the connection ----

  type Query = set<Table>

  /** The present point of a table's history. */
  ghost function Present(history: map<Table, History>, t: Table): nat
    requires t in history && history[t] != []
  {
    |history[t]| - 1
  }

  lemma {:induction false} ExtendedBoth(a: map<Table, History>, b: map<Table, History>, c: map<Table, History>)
    requires Extended(a, b) && Extended(b, c)
    ensures Extended(a, c)
  {
  }

  ghost predicate CapturedSince(before: map<Table, History>, now: map<Table, History>, t: Table, sig: Sig, at: Points) {
    && t in before && t in now && before[t] != [] && Since(now[t], Present(before, t), at)
    && CapturedAt(now[t], sig, at)
  }

  ghost predicate ReadSince(before: map<Table, History>, now: map<Table, History>, t: Table, v: View, at: Points) {
    && t in before && t in now && before[t] != [] && Since(now[t], Present(before, t), at)
    && LoadedAt(now[t], v, at)
  }

  lemma {:induction false} SinceGrows(before: map<Table, History>, now: map<Table, History>,
                                      later: map<Table, History>, t: Table, sig: Sig, v: View, at: Points)
    requires Extended(now, later)
    ensures CapturedSince(before, now, t, sig, at) ==> CapturedSince(before, later, t, sig, at)
    ensures ReadSince(before, now, t, v, at) ==> ReadSince(before, later, t, v, at)
  {
    if t in now {
      assert now[t] <= later[t];
    }
  }

  /** The signatures of all tables. */
  method CaptureAll(w: World, tables: seq<Table>) returns (sigs: map<Table, Sig>, ghost captured: map<Table, Points>)
    requires w.Valid() && forall t :: t in tables ==> t in w.history
    modifies w
    ensures w.Valid() && Extended(old(w.history), w.history) && w.failures == old(w.failures)
    ensures forall t :: t in tables ==> t in sigs && t in captured
    ensures forall t :: t in tables ==> CapturedSince(old(w.history), w.history, t, sigs[t], captured[t])
  {
    ghost var before := w.history;
    sigs, captured := map[], map[];
    for i := 0 to |tables|
      invariant w.Valid() && Extended(before, w.history) && w.failures == old(w.failures)
      invariant forall t :: t in tables[..i] ==> t in sigs && t in captured
      invariant forall t :: t in tables[..i] ==> CapturedSince(before, w.history, t, sigs[t], captured[t])
    {
      ghost var now := w.history;
      var t := tables[i];
      ghost var first, second;
      var sig;
      sig, first, second := w.Stat(t);
      ExtendedBoth(before, now, w.history);
      forall u | u in tables[..i]
        ensures CapturedSince(before, w.history, u, sigs[u], captured[u])
      {
        SinceGrows(before, now, w.history, u, sigs[u], View(0, {}), captured[u]);
      }
      assert before[t] <= now[t];
      sigs, captured := sigs[t := sig], captured[t := Points(first, second)];
      assert tables[..i + 1] == tables[..i] + [t];
    }
    assert tables[..|tables|] == tables;
  }

  /** Reopen the providers one by one, up to the first failure. */
  method LoadAll(w: World, tables: seq<Table>, loaded: map<Table, View>, ghost read: map<Table, Points>)
    returns (ok: bool, loaded': map<Table, View>, ghost read': map<Table, Points>)
    requires w.Valid() && forall t :: t in tables ==> t in w.history
    modifies w
    ensures w.Valid() && Extended(old(w.history), w.history)
    ensures forall t :: t in tables ==> IsLoaded(old(w.history), w.history, t, loaded, read, loaded', read', ok)
    ensures w.failures == old(w.failures) + if ok then 0 else 1
  {
    ghost var before := w.history;
    loaded', read', ok := loaded, read, true;
    for i := 0 to |tables|
      invariant w.Valid() && Extended(before, w.history) && w.failures == old(w.failures) && ok
      invariant forall t :: t in tables ==>
                  IsLoaded(before, w.history, t, loaded, read, loaded', read', t in tables[..i])
    {
      ghost var now, l, r := w.history, loaded', read';
      var t := tables[i];
      ghost var first, second;
      var v;
      v, first, second := w.Load(t);
      ExtendedBoth(before, now, w.history);
      if v.None? {
        KeptLoaded(before, now, w.history, tables, i, loaded, read, l, r);
        return false, loaded', read';
      }
      loaded', read' := loaded'[t := v.value], read'[t := Points(first, second)];
      NextLoaded(before, now, w.history, tables, i, loaded, read, l, r, v.value, Points(first, second));
    }
    assert tables[..|tables|] == tables;
  }

  /** The views loaded so far are still as fresh when the world moves on. */
  lemma {:induction false} KeptLoaded(before: map<Table, History>, now: map<Table, History>,
                                      later: map<Table, History>, tables: seq<Table>, i: nat,
                                      loaded: map<Table, View>, read: map<Table, Points>, l: map<Table, View>,
                                      r: map<Table, Points>)
    requires i <= |tables| && Extended(before, now) && Extended(now, later)
    requires forall t :: t in tables ==> IsLoaded(before, now, t, loaded, read, l, r, t in tables[..i])
    ensures forall t :: t in tables ==> IsLoaded(before, later, t, loaded, read, l, r, t in tables[..i])
    ensures forall t :: t in tables ==> IsLoaded(before, later, t, loaded, read, l, r, false)
  {
    forall t | t in tables
      ensures IsLoaded(before, later, t, loaded, read, l, r, t in tables[..i])
      ensures IsLoaded(before, later, t, loaded, read, l, r, false)
    {
      assert IsLoaded(before, now, t, loaded, read, l, r, t in tables[..i]);
      if t in l && t in r {
        SinceGrows(before, now, later, t, Sig(0, None), l[t], r[t]);
      }
    }
  }

  /** One more table is loaded. */
  lemma {:induction false} NextLoaded(before: map<Table, History>, now: map<Table, History>,
                                      later: map<Table, History>, tables: seq<Table>, i: nat,
                                      loaded: map<Table, View>, read: map<Table, Points>, l: map<Table, View>,
                                      r: map<Table, Points>, v: View, at: Points)
    requires i < |tables| && Extended(before, now) && Extended(now, later)
    requires forall t :: t in tables ==> IsLoaded(before, now, t, loaded, read, l, r, t in tables[..i])
    requires tables[i] in before && before[tables[i]] != [] && ReadSince(now, later, tables[i], v, at)
    ensures forall t :: t in tables ==>
              IsLoaded(before, later, t, loaded, read, l[tables[i] := v], r[tables[i] := at], t in tables[..i + 1])
  {
    KeptLoaded(before, now, later, tables, i, loaded, read, l, r);
    assert tables[..i + 1] == tables[..i] + [tables[i]];
    assert before[tables[i]] <= now[tables[i]];
  }

  /** A table's view is a new one, or (unless all was loaded) the one before. */
  ghost predicate IsLoaded(before: map<Table, History>, now: map<Table, History>, t: Table, loaded: map<Table, View>,
                           read: map<Table, Points>, loaded': map<Table, View>, read': map<Table, Points>, done: bool)
  {
    || (t in loaded' && t in read' && ReadSince(before, now, t, loaded'[t], read'[t]))
    || (!done && (t in loaded' <==> t in loaded) && (t in read' <==> t in read)
        && (t in loaded ==> loaded'[t] == loaded[t]) && (t in read ==> read'[t] == read[t]))
  }

  lemma {:induction false} NewView(before: map<Table, History>, now: map<Table, History>, later: map<Table, History>,
                                   t: Table, v: View, at: Points)
    requires Extended(before, now) && Extended(now, later) && t in before && before[t] != [] && IsHistory(later[t])
    requires ReadSince(now, later, t, v, at)
    ensures LoadedSince(later[t], Present(before, t), v, at) && at.first >= |now[t]| - 1
  {
    assert before[t] <= now[t];
    LoadIsFresh(later[t], Present(before, t), v, at);
  }

  lemma {:induction false} FreshCheck(before: map<Table, History>, now: map<Table, History>,
                                      later: map<Table, History>, t: Table, sig: Sig, v: View, captured: Points,
                                      read: Points, check: Points)
    requires Extended(before, now) && Extended(now, later) && t in before && before[t] != [] && IsHistory(later[t])
    requires read.second < |before[t]| && TableOk(later[t], sig, v, captured, read)
    requires CapturedSince(now, later, t, sig, check)
    ensures CheckedSince(later[t], Present(before, t), v, captured, read, check)
  {
    assert before[t] <= now[t];
    CheckIsFresh(later[t], Present(before, t), sig, v, captured, read, check);
  }

  lemma {:induction false} NewSignature(before: map<Table, History>, now: map<Table, History>,
                                        later: map<Table, History>, t: Table, sig: Sig, captured: Points, v: View,
                                        at: Points)
    requires Extended(now, later) && CapturedSince(before, now, t, sig, captured) && ReadSince(now, later, t, v, at)
    ensures TableOk(later[t], sig, v, captured, at)
  {
    assert now[t] <= later[t];
  }

  /** When the reload failed after this table, the signature stored before still precedes the new view. */
  lemma {:induction false} OldSignature(before: map<Table, History>, now: map<Table, History>,
                                        later: map<Table, History>, t: Table, sig: Sig, captured: Points, v: View,
                                        at: Points)
    requires Extended(before, now) && Extended(now, later) && t in before && ReadSince(now, later, t, v, at)
    requires captured.first <= captured.second < |before[t]| && CapturedAt(before[t], sig, captured)
    ensures TableOk(later[t], sig, v, captured, at)
  {
    assert before[t] <= now[t] && now[t] <= later[t];
  }

  /** A reload that succeeded: signature and view of one table are new, in this order. */
  lemma {:induction false} NewTable(before: map<Table, History>, now: map<Table, History>, later: map<Table, History>,
                                    t: Table, sig: Sig, captured: Points, v: View, at: Points)
    requires Extended(before, now) && Extended(now, later) && t in before && before[t] != [] && IsHistory(later[t])
    requires CapturedSince(before, now, t, sig, captured) && ReadSince(now, later, t, v, at)
    ensures TableOk(later[t], sig, v, captured, at) && LoadedSince(later[t], Present(before, t), v, at)
  {
    NewView(before, now, later, t, v, at);
    NewSignature(before, now, later, t, sig, captured, v, at);
  }

  /** A reload that failed: the stored signature still precedes the view of one table, be it new or old. */
  lemma {:induction false} OldTable(before: map<Table, History>, now: map<Table, History>, later: map<Table, History>,
                                    t: Table, sig: Sig, captured: Points, v: View, at: Points,
                                    loaded: map<Table, View>, read: map<Table, Points>)
    requires Extended(before, now) && Extended(now, later) && t in before && TableOk(before[t], sig, v, captured, at)
    requires t in loaded && t in read
    requires ReadSince(now, later, t, loaded[t], read[t]) || (loaded[t] == v && read[t] == at)
    ensures TableOk(later[t], sig, loaded[t], captured, read[t])
  {
    if ReadSince(now, later, t, loaded[t], read[t]) {
      OldSignature(before, now, later, t, sig, captured, loaded[t], read[t]);
    } else {
      ExtendedBoth(before, now, later);
      Grows(before[t], later[t], 0, sig, v, captured, at, at);
    }
  }

  /** Two looks at the table's files since `before` gave another signature than the stored one. */
  ghost predicate SignatureChanged(before: map<Table, History>, now: map<Table, History>, t: Table,
                                   sigs: map<Table, Sig>, at: Points)
  {
    && t in before && before[t] != [] && t in now && t in sigs && Since(now[t], |before[t]| - 1, at)
    && !CapturedAt(now[t], sigs[t], at)
  }

  lemma {:induction false} ChangeStays(before: map<Table, History>, now: map<Table, History>,
                                       later: map<Table, History>, t: Table, sigs: map<Table, Sig>, at: Points)
    requires SignatureChanged(before, now, t, sigs, at) && Extended(now, later)
    ensures SignatureChanged(before, later, t, sigs, at)
  {
    assert now[t] <= later[t];
  }

  /** Signatures first, views second. */
  method CaptureAndLoad(w: World, tables: seq<Table>, loaded: map<Table, View>, ghost read: map<Table, Points>)
    returns (ok: bool, sigs: map<Table, Sig>, loaded': map<Table, View>, ghost captured: map<Table, Points>,
             ghost read': map<Table, Points>, ghost now: map<Table, History>)
    requires w.Valid() && forall t :: t in tables ==> t in w.history
    modifies w
    ensures w.Valid() && Extended(old(w.history), now) && Extended(now, w.history)
    ensures Extended(old(w.history), w.history) && w.failures == old(w.failures) + if ok then 0 else 1
    ensures forall t :: t in tables ==>
              t in sigs && t in captured && CapturedSince(old(w.history), now, t, sigs[t], captured[t])
    ensures forall t :: t in tables ==> IsLoaded(now, w.history, t, loaded, read, loaded', read', ok)
  {
    ghost var before := w.history;
    sigs, captured := CaptureAll(w, tables);
    now := w.history;
    ok, loaded', read' := LoadAll(w, tables, loaded, read);
    ExtendedBoth(before, now, w.history);
  }

  ghost predicate StoredOk(h: map<Table, History>, t: Table, sigs: map<Table, Sig>, captured: map<Table, Points>,
                           loaded: map<Table, View>, read: map<Table, Points>)
  {
    && t in h && t in sigs && t in loaded && t in captured && t in read
    && TableOk(h[t], sigs[t], loaded[t], captured[t], read[t])
  }

  /** A reload that succeeded, for all tables. */
  lemma {:induction false} AllNew(before: map<Table, History>, now: map<Table, History>, later: map<Table, History>,
                                  tables: seq<Table>, sigs: map<Table, Sig>, captured: map<Table, Points>,
                                  l: map<Table, View>, r: map<Table, Points>, loaded: map<Table, View>,
                                  read: map<Table, Points>)
    requires Extended(before, now) && Extended(now, later)
    requires forall t :: t in tables ==> t in before && before[t] != [] && IsHistory(later[t])
    requires forall t :: t in tables ==>
               t in sigs && t in captured && CapturedSince(before, now, t, sigs[t], captured[t])
    requires forall t :: t in tables ==> IsLoaded(now, later, t, l, r, loaded, read, true)
    ensures forall t :: t in tables ==> StoredOk(later, t, sigs, captured, loaded, read)
    ensures forall t :: t in tables ==>
              t in loaded && t in read && LoadedSince(later[t], Present(before, t), loaded[t], read[t])
  {
    forall t | t in tables
      ensures StoredOk(later, t, sigs, captured, loaded, read)
      ensures t in loaded && t in read && LoadedSince(later[t], Present(before, t), loaded[t], read[t])
    {
      assert IsLoaded(now, later, t, l, r, loaded, read, true);
      NewTable(before, now, later, t, sigs[t], captured[t], loaded[t], read[t]);
    }
  }

  /** A reload that failed, for all tables. */
  lemma {:induction false} AllOld(before: map<Table, History>, now: map<Table, History>, later: map<Table, History>,
                                  tables: seq<Table>, sigs: map<Table, Sig>, captured: map<Table, Points>,
                                  l: map<Table, View>, r: map<Table, Points>, loaded: map<Table, View>,
                                  read: map<Table, Points>)
    requires Extended(before, now) && Extended(now, later)
    requires forall t :: t in tables ==> StoredOk(before, t, sigs, captured, l, r)
    requires forall t :: t in tables ==> IsLoaded(now, later, t, l, r, loaded, read, false)
    ensures forall t :: t in tables ==> StoredOk(later, t, sigs, captured, loaded, read)
  {
    forall t | t in tables
      ensures StoredOk(later, t, sigs, captured, loaded, read)
    {
      assert StoredOk(before, t, sigs, captured, l, r) && IsLoaded(now, later, t, l, r, loaded, read, false);
      OldTable(before, now, later, t, sigs[t], captured[t], l[t], r[t], loaded, read);
    }
  }

  class Connection {
    const world: World
    const tables: seq<Table>
    const snapshot: Option<nat>
    /** What the registered providers show. */
    var loaded: map<Table, View>
    /** The stored signatures. */
    var sigs: map<Table, Sig>
    ghost var captured: map<Table, Points>
    ghost var read: map<Table, Points>

    ghost predicate Usable()
      reads this, world
    {
      world.Valid() && forall t :: t in tables ==> t in world.history
    }

    ghost predicate TableValid(t: Table)
      reads this, world
    {
      StoredOk(world.history, t, sigs, captured, loaded, read)
    }

    /** Every stored signature was captured before the loaded view was. */
    ghost predicate Valid()
      reads this, world
    {
      Usable() && (snapshot.None? ==> forall t :: t in tables ==> TableValid(t))
    }

    /** Open: capture the signatures, then load. A pinned connection loads a fixed snapshot instead. */
    constructor (world: World, tables: seq<Table>, snapshot: Option<nat>, pinned: map<Table, View>)
      requires world.Valid() && forall t :: t in tables ==> t in world.history
      modifies world
      ensures this.world == world && this.tables == tables && this.snapshot == snapshot
      ensures Usable() && Extended(old(world.history), world.history)
      ensures tables != [] && snapshot.None? ==> (IsOpen() <==> world.failures == old(world.failures))
      ensures snapshot.Some? ==> Valid() && loaded == pinned
      ensures snapshot.None? && IsOpen() ==> Valid() && forall t :: t in tables ==>
                LoadedSince(world.history[t], Present(old(world.history), t), loaded[t], read[t])
    {
      this.world := world;
      this.tables := tables;
      this.snapshot := snapshot;
      loaded, sigs, captured, read := map[], map[], map[], map[];
      new;
      if snapshot.Some? {
        loaded := pinned;
        return;
      }
      var ok := Refresh();
      if !ok {
        loaded := map[];
        if |tables| > 0 { assert tables[0] in tables; }
      }
    }

    /** The constructor did not fail. */
    ghost predicate IsOpen()
      reads this
    {
      snapshot.Some? || forall t :: t in tables ==> t in loaded
    }

    /** Capture the signatures, then reload, then store them. */
    method Refresh() returns (ok: bool)
      requires Usable() && snapshot.None?
      modifies this, world
      ensures Usable() && Extended(old(world.history), world.history)
      ensures old(Valid()) || ok ==> Valid()
      ensures world.failures == old(world.failures) + if ok then 0 else 1
      ensures ok ==> forall t :: t in tables ==>
                && t in loaded && t in read
                && LoadedSince(world.history[t], Present(old(world.history), t), loaded[t], read[t])
    {
      ghost var before, l, r := world.history, loaded, read;
      var pending;
      ghost var points, now;
      ok, pending, loaded, points, read, now := CaptureAndLoad(world, tables, loaded, read);
      if ok {
        sigs, captured := pending, points;
        AllNew(before, now, world.history, tables, pending, points, l, r, loaded, read);
      } else if old(Valid()) {
        assert forall t :: t in tables ==> old(TableValid(t));
        AllOld(before, now, world.history, tables, sigs, captured, l, r, loaded, read);
      }
    }

    /** Everything stays valid when only the world moves on. */
    lemma {:induction false} StaysValid(now: map<Table, History>)
      requires Usable() && snapshot.None? && Extended(now, world.history)
      requires forall t :: t in tables ==> WasValid(now, t)
      ensures Valid()
    {
      forall t | t in tables
        ensures TableValid(t)
      {
        assert WasValid(now, t);
        Grows(now[t], world.history[t], 0, sigs[t], loaded[t], captured[t], read[t], read[t]);
      }
    }

    ghost predicate WasValid(now: map<Table, History>, t: Table)
      reads this
    {
      StoredOk(now, t, sigs, captured, loaded, read)
    }

    /** Compare one table's signature. */
    method CheckTable(t: Table, ghost before: map<Table, History>) returns (same: bool, ghost check: Points)
      requires Valid() && snapshot.None? && t in tables && Extended(before, world.history)
      requires t in before && before[t] != [] && read[t].second < |before[t]|
      modifies world
      ensures Valid() && Extended(before, world.history) && Extended(old(world.history), world.history)
      ensures world.failures == old(world.failures) && loaded == old(loaded) && sigs == old(sigs)
      ensures same ==> TableChecked(before, t, check)
      ensures !same ==> Changed(before, t, check)
    {
      ghost var now := world.history;
      assert forall u :: u in tables ==> TableValid(u) && WasValid(now, u);
      ghost var first, second;
      var sig;
      sig, first, second := world.Stat(t);
      check := Points(first, second);
      ExtendedBoth(before, now, world.history);
      StaysValid(now);
      same := sig == sigs[t];
      assert before[t] <= now[t];
      if same {
        FreshCheck(before, now, world.history, t, sig, loaded[t], captured[t], read[t], check);
      }
    }

    ghost predicate Changed(before: map<Table, History>, t: Table, check: Points)
      reads this, world
    {
      SignatureChanged(before, world.history, t, sigs, check)
    }

    /** Is some referenced table's signature no longer the stored one? If not, every referenced table was
        found current by a check since the call began. */
    method FindStale(refs: Query)
      returns (stale: bool, ghost checks: map<Table, Points>, ghost who: Table, ghost check: Points)
      requires Valid() && snapshot.None?
      modifies world
      ensures Valid() && Extended(old(world.history), world.history)
      ensures world.failures == old(world.failures) && loaded == old(loaded) && sigs == old(sigs)
      ensures stale ==> who in tables && who in refs && Changed(old(world.history), who, check)
      ensures !stale ==> forall t :: t in tables && t in refs ==>
                t in checks && TableChecked(old(world.history), t, checks[t])
    {
      ghost var before := world.history;
      assert forall u :: u in tables ==> TableValid(u) && WasValid(before, u);
      stale, checks, who, check := false, map[], "", Points(0, 0);
      for i := 0 to |tables|
        invariant Valid() && Extended(before, world.history) && !stale
        invariant world.failures == old(world.failures)
        invariant forall t :: t in tables[..i] && t in refs ==> t in checks && TableChecked(before, t, checks[t])
      {
        var t := tables[i];
        assert tables[..i + 1] == tables[..i] + [t];
        if t in refs {
          ghost var now := world.history;
          assert WasValid(before, t);
          var same;
          same, check := CheckTable(t, before);
          if !same {
            return true, checks, t, check;
          }
          forall u | u in tables[..i] && u in refs
            ensures TableChecked(before, u, checks[u])
          {
            assert WasValid(before, u);
            Grows(now[u], world.history[u], Present(before, u), sigs[u], loaded[u], captured[u], read[u], checks[u]);
          }
          checks := checks[t := check];
        }
      }
      assert tables[..|tables|] == tables;
    }

    ghost predicate TableChecked(before: map<Table, History>, t: Table, check: Points)
      reads this, world
    {
      && t in before && before[t] != [] && t in world.history && t in loaded && t in captured && t in read
      && CheckedSince(world.history[t], Present(before, t), loaded[t], captured[t], read[t], check)
    }

    /** `_ensure_fresh`. What the query then sees is exactly characterised on both paths. */
    method EnsureFresh(refs: Query) returns (ok: bool, ghost refreshed: bool, ghost checks: map<Table, Points>)
      requires Valid()
      modifies this, world
      ensures Valid() && Extended(old(world.history), world.history)
      ensures world.failures == old(world.failures) + if ok then 0 else 1
      ensures !refreshed ==> loaded == old(loaded) && sigs == old(sigs)
      ensures refreshed ==> exists t, at ::
                t in tables && t in refs && SignatureChanged(old(world.history), world.history, t, old(sigs), at)
      ensures ok && snapshot.None? && refreshed ==> forall t :: t in tables ==>
                LoadedSince(world.history[t], Present(old(world.history), t), loaded[t], read[t])
      ensures ok && snapshot.None? && !refreshed ==> forall t :: t in tables && t in refs ==>
                t in checks && TableChecked(old(world.history), t, checks[t])
      ensures snapshot.Some? ==> ok && loaded == old(loaded)
    {
      refreshed, checks := false, map[];
      if snapshot.Some? {
        return true, refreshed, checks;
      }
      ghost var before := world.history;
      var stale;
      ghost var who, check;
      stale, checks, who, check := FindStale(refs);
      if !stale {
        return true, refreshed, checks;
      }
      refreshed := true;
      ghost var stored := sigs;
      ghost var now := world.history;
      ok := Refresh();
      ExtendedBoth(before, now, world.history);
      ChangeStays(before, now, world.history, who, stored, check);
      forall t | t in tables && ok
        ensures LoadedSince(world.history[t], Present(before, t), loaded[t], read[t])
      {
        LoadedEarlier(before, now, world.history, t, loaded[t], read[t]);
      }
    }

    /** `sql`: the views the query is evaluated on. Every commit there was when the query was issued shows,
        unless a checkpoint deletes the log of that table during the call. */
    method Sql(refs: Query) returns (seen: Option<map<Table, View>>)
      requires Valid()
      modifies this, world
      ensures Valid() && Extended(old(world.history), world.history)
      ensures world.failures == old(world.failures) + if seen.Some? then 0 else 1
      ensures seen.Some? && snapshot.None? ==> forall t :: t in tables && t in refs ==>
                t in seen.value && Current(old(world.history), world.history, t, seen.value[t])
      ensures snapshot.Some? ==> seen == Some(old(loaded)) && loaded == old(loaded)
    {
      ghost var before := world.history;
      ghost var refreshed, checks;
      var ok;
      ok, refreshed, checks := EnsureFresh(refs);
      if !ok {
        return None;
      }
      seen := Some(loaded);
      if snapshot.None? {
        forall t | t in tables && t in refs
          ensures Current(before, world.history, t, loaded[t])
        {
          assert TableValid(t);
          var check := if refreshed then read[t] else checks[t];
          IsCurrent(before, world.history, t, loaded[t], captured[t], read[t], check);
        }
      }
    }

    /** `mutate`: commits to a table, at once or through the log, and stores no signature. */
    method Mutate(t: Table) returns (done: bool)
      requires Valid() && t in tables
      modifies this, world
      ensures Valid() && Extended(old(world.history), world.history)
      ensures done ==> Now(world.history[t]).live > Now(old(world.history)[t]).live
      ensures done <==> snapshot.None? && world.failures == old(world.failures)
      ensures world.failures >= old(world.failures)
      ensures snapshot.Some? ==> loaded == old(loaded)
    {
      ghost var before := world.history;
      ghost var refreshed, checks;
      var ok;
      ok, refreshed, checks := EnsureFresh({t});
      if !ok || snapshot.Some? {
        return false;
      }
      ghost var now := world.history;
      CommitTo(t);
      ExtendedBoth(before, now, world.history);
      MoreLive(before[t], now[t]);
      done := true;
    }

    /** The engine commits, at once or through the log. */
    method CommitTo(t: Table)
      requires Valid() && snapshot.None? && t in tables
      modifies world
      ensures Valid() && Extended(old(world.history), world.history) && world.failures == old(world.failures)
      ensures Now(world.history[t]).live == Now(old(world.history)[t]).live + 1
    {
      ghost var now := world.history;
      assert forall u :: u in tables ==> TableValid(u) && WasValid(now, u);
      var deferred: bool := *;
      world.Advance(t, if deferred then LogCommit else PointerCommit);
      StaysValid(now);
    }
  }

  lemma {:induction false} MoreLive(h: History, g: History)
    requires IsHistory(g) && h != [] && h <= g
    ensures Now(h).live <= Now(g).live
  {
    LaterInHistory(g, |h| - 1, |g| - 1);
  }

  lemma {:induction false} LoadedEarlier(before: map<Table, History>, now: map<Table, History>,
                                         later: map<Table, History>, t: Table, v: View, at: Points)
    requires Extended(before, now) && Extended(now, later) && t in before && before[t] != [] && IsHistory(later[t])
    requires LoadedSince(later[t], Present(now, t), v, at)
    ensures LoadedSince(later[t], Present(before, t), v, at)
  {
    assert before[t] <= now[t] && now[t] <= later[t];
    LaterInHistory(later[t], Present(before, t), Present(now, t));
  }

  /** Without a checkpoint deleting the log in between, the view shows every commit there was before. */
  ghost predicate Current(before: map<Table, History>, now: map<Table, History>, t: Table, v: View) {
    && t in before && t in now && before[t] != [] && before[t] <= now[t]
    && (NoClear(now[t], Present(before, t), Present(now, t)) ==> Shows(v, Now(before[t]).live))
  }

  lemma {:induction false} IsCurrent(before: map<Table, History>, now: map<Table, History>, t: Table, v: View,
                                     captured: Points, read: Points, check: Points)
    requires Extended(before, now) && t in before && before[t] != [] && IsHistory(now[t])
    requires LoadedSince(now[t], Present(before, t), v, read)
          || CheckedSince(now[t], Present(before, t), v, captured, read, check)
    ensures Current(before, now, t, v)
  {
    assert before[t] <= now[t];
    assert now[t][Present(before, t)] == Now(before[t]);
    if NoClear(now[t], Present(before, t), Present(now, t)) {
      FreshUnlessCleared(now[t], Present(before, t), v, captured, read, check);
    }
  }

  /** A query after a mutation sees it, unless a checkpoint deletes the log during the query. */
  method MutateThenQuery(c: Connection, t: Table)
    returns (done: bool, seen: Option<map<Table, View>>, ghost between: map<Table, History>)
    requires c.Valid() && c.snapshot.None? && t in c.tables
    modifies c, c.world
    ensures c.Valid() && t in between && between[t] != [] && t in old(c.world.history)
    ensures done ==> Now(between[t]).live > Now(old(c.world.history)[t]).live
    ensures done && seen.Some? <==> c.world.failures == old(c.world.failures)
    ensures done && seen.Some? ==> t in seen.value && Current(between, c.world.history, t, seen.value[t])
  {
    done := c.Mutate(t);
    between := c.world.history;
    seen := c.Sql({t});
  }
}