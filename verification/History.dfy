// The hash chain of manifests: publishing, verification and pruning
// (`verify_history` in crates/icefalldb-core/src/doctor.rs, `finalize`, `parent_manifest_checksum` and
// `finalize_manifest` in crates/icefalldb-core/src/metadata/manifest.rs).
module History {
  import opened Collections
  import opened Permutations

  type Digest = string

  /** Everything in a manifest except its own checksum. */
  datatype Content = Content(sequence: nat, body: string, parentHash: Option<Digest>, committedAt: Option<string>)

  datatype Manifest = Manifest(content: Content, checksum: Digest)

  /** What reading a listed manifest file gives. */
  datatype File = Vanished | Garbage | Doc(m: Manifest)

  /** The checksum function. Nothing is assumed about it. */
  type Hash = Content -> Digest

  /** The manifest files by sequence number. */
  type Files = map<nat, File>

  datatype Reason = InvalidJson | SelfChecksumMismatch | ParentMismatch | MissingParent

  datatype Break = Break(sequence: nat, reason: Reason)

  // ---- what a break is ----

  predicate SelfOk(h: Hash, m: Manifest) { m.checksum == h(m.content) }

  /** A manifest from before checksums: neither checksum nor timestamp. */
  predicate Legacy(m: Manifest) { m.checksum == "" && m.content.committedAt.None? }

  predicate Trusted(h: Hash, f: File) { f.Doc? && SelfOk(h, f.m) }

  /** The link from a manifest to its trusted predecessor. */
  function LinkReason(m: Manifest, p: Manifest): Option<Reason> {
    match m.content.parentHash
    case Some(ph) => if ph == p.checksum then None else Some(ParentMismatch)
    case None => if m.content.committedAt.None? then None else Some(MissingParent)
  }

  /** What is wrong with a file, given the file before it. */
  function Judge(h: Hash, f: File, pred: Option<File>): Option<Reason> {
    match f
    case Vanished => None
    case Garbage => Some(InvalidJson)
    case Doc(m) =>
      if !SelfOk(h, m) then (if Legacy(m) then None else Some(SelfChecksumMismatch))
      else if pred.Some? && Trusted(h, pred.value) then LinkReason(m, pred.value.m)
      else None
  }

  ghost predicate IsPred(files: Files, s: nat, p: nat) {
    p in files && p < s && forall q: nat :: q in files && q < s ==> q <= p
  }

  ghost predicate IsFirst(files: Files, s: nat) {
    forall q: nat :: q in files ==> s <= q
  }

  /** The break at a sequence number: a file is judged against its closest predecessor on disk. */
  ghost predicate BreakAt(h: Hash, files: Files, s: nat, r: Reason) {
    && s in files
    && (IsFirst(files, s) ==> Judge(h, files[s], None) == Some(r))
    && (forall p: nat :: IsPred(files, s, p) ==> Judge(h, files[s], Some(files[p])) == Some(r))
  }

  /** The predecessor's checksum is what the manifest's link is compared with, if both can be trusted. */
  ghost predicate LinkedTo(h: Hash, files: Files, s: nat, p: nat) {
    s in files && IsPred(files, s, p) && Trusted(h, files[s]) && Trusted(h, files[p])
  }

  /** Which break there is at a sequence number, in terms of the files alone. */
  lemma {:induction false} BreakIff(h: Hash, files: Files, s: nat)
    requires s in files
    ensures BreakAt(h, files, s, InvalidJson) <==> files[s].Garbage?
    ensures BreakAt(h, files, s, SelfChecksumMismatch) <==>
              files[s].Doc? && files[s].m.checksum != h(files[s].m.content)
              && (files[s].m.checksum != "" || files[s].m.content.committedAt.Some?)
    ensures BreakAt(h, files, s, ParentMismatch) <==>
              exists p: nat :: LinkedTo(h, files, s, p) && files[s].m.content.parentHash.Some?
                            && files[s].m.content.parentHash.value != files[p].m.checksum
    ensures BreakAt(h, files, s, MissingParent) <==>
              exists p: nat :: LinkedTo(h, files, s, p) && files[s].m.content.parentHash.None?
                            && files[s].m.content.committedAt.Some?
  {
    FirstOrPred(files, s);
    if !IsFirst(files, s) {
      var p: nat :| IsPred(files, s, p);
      assert forall q: nat :: IsPred(files, s, q) ==> q == p;
      BreakAfter(h, files, s, p);
      assert LinkedTo(h, files, s, p) <==> Trusted(h, files[s]) && Trusted(h, files[p]);
      assert forall q: nat :: LinkedTo(h, files, s, q) ==> q == p;
    }
  }

  lemma {:induction false} BreakAfter(h: Hash, files: Files, s: nat, p: nat)
    requires s in files && IsPred(files, s, p)
    ensures forall r: Reason :: BreakAt(h, files, s, r) <==> Judge(h, files[s], Some(files[p])) == Some(r)
  {
    assert forall q: nat :: IsPred(files, s, q) ==> q == p;
    assert !IsFirst(files, s);
  }

  /** A file is the first one, or there is a closest one before it. */
  lemma {:induction false} FirstOrPred(files: Files, s: nat)
    ensures IsFirst(files, s) || exists p: nat :: IsPred(files, s, p)
  {
    var below := set q: nat | q in files && q < s;
    if below == {} {
      forall q: nat | q in files
        ensures s <= q
      {
        assert q !in below;
      }
    } else {
      var p := HighestIn(below);
      forall q: nat | q in files && q < s
        ensures q <= p
      {
        assert q in below;
      }
      assert p in below;
      assert IsPred(files, s, p);
    }
  }

  lemma {:induction false} HighestIn(xs: set<nat>) returns (m: nat)
    requires xs != {}
    ensures m in xs && forall x: nat :: x in xs ==> x <= m
    decreases xs
  {
    var some :| some in xs;
    m := some;
    var rest := xs - {some};
    assert forall x: nat :: x in xs ==> x == some || x in rest;
    if rest != {} {
      var n := HighestIn(rest);
      if n > m { m := n; }
    }
  }

  ghost predicate Broken(h: Hash, files: Files, s: nat) {
    exists r: Reason :: BreakAt(h, files, s, r)
  }

  ghost predicate Intact(h: Hash, files: Files) {
    forall s: nat, r: Reason :: !BreakAt(h, files, s, r)
  }

  // ---- verification ----

  ghost predicate Lists(seqs: seq<nat>, files: Files) {
    Increasing(seqs) && forall s: nat :: s in seqs <==> s in files
  }

  lemma {:induction false} PredOfIndex(seqs: seq<nat>, files: Files, i: nat)
    requires Lists(seqs, files) && i < |seqs|
    ensures seqs[i] in files
    ensures i == 0 ==> IsFirst(files, seqs[i])
    ensures i > 0 ==> seqs[i - 1] in files && IsPred(files, seqs[i], seqs[i - 1])
    ensures i > 0 ==> !IsFirst(files, seqs[i])
  {
    forall q: nat | q in files
      ensures i == 0 ==> seqs[i] <= q
      ensures i > 0 && q < seqs[i] ==> q <= seqs[i - 1]
    {
      assert q in seqs;
      var j :| 0 <= j < |seqs| && seqs[j] == q;
    }
  }

  /** With the file before it at hand, the break at an index is what `Judge` says. */
  lemma {:induction false} BreakOfIndex(h: Hash, seqs: seq<nat>, files: Files, i: nat)
    requires Lists(seqs, files) && i < |seqs|
    ensures seqs[i] in files && (i > 0 ==> seqs[i - 1] in files)
    ensures forall r: Reason :: BreakAt(h, files, seqs[i], r) <==>
              Judge(h, files[seqs[i]], if i == 0 then None else Some(files[seqs[i - 1]])) == Some(r)
  {
    PredOfIndex(seqs, files, i);
    forall p: nat | IsPred(files, seqs[i], p)
      ensures i > 0 && p == seqs[i - 1]
    {
      assert p in seqs;
      if i > 0 { assert IsPred(files, seqs[i], seqs[i - 1]); }
    }
  }

  /** Sorting the listing. */
  method SortSequences(listing: seq<nat>) returns (seqs: seq<nat>)
    ensures Increasing(seqs) && forall s: nat :: s in seqs <==> s in listing
  {
    seqs := [];
    for i := 0 to |listing|
      invariant Increasing(seqs) && forall s: nat :: s in seqs <==> s in listing[..i]
    {
      InsertNewSorted(seqs, listing[i]);
      seqs := InsertNew(seqs, listing[i]);
      assert listing[..i + 1] == listing[..i] + [listing[i]];
    }
    assert listing[..|listing|] == listing;
  }

  ghost predicate AllOnDisk(seqs: seq<nat>, files: Files) {
    forall i :: 0 <= i < |seqs| ==> seqs[i] in files
  }

  ghost function PredFile(files: Files, seqs: seq<nat>, i: nat): Option<File>
    requires i < |seqs| && AllOnDisk(seqs, files)
  {
    if i == 0 then None else Some(files[seqs[i - 1]])
  }

  /** The breaks among the first `n` files, in order. */
  ghost function BreaksUpTo(h: Hash, files: Files, seqs: seq<nat>, n: nat): seq<Break>
    requires n <= |seqs| && AllOnDisk(seqs, files)
  {
    if n == 0 then []
    else
      var found := Judge(h, files[seqs[n - 1]], PredFile(files, seqs, n - 1));
      if found.Some? then BreaksUpTo(h, files, seqs, n - 1) + [Break(seqs[n - 1], found.value)]
      else BreaksUpTo(h, files, seqs, n - 1)
  }

  ghost predicate Listed(h: Hash, files: Files, seqs: seq<nat>, n: nat, b: Break)
    requires n <= |seqs| && AllOnDisk(seqs, files)
  {
    exists i ::
      && 0 <= i < n && Break(seqs[i], b.reason) == b
      && Judge(h, files[seqs[i]], PredFile(files, seqs, i)) == Some(b.reason)
  }

  lemma {:induction false} BreakListed(h: Hash, files: Files, seqs: seq<nat>, n: nat, b: Break)
    requires n <= |seqs| && AllOnDisk(seqs, files)
    ensures b in BreaksUpTo(h, files, seqs, n) <==> Listed(h, files, seqs, n, b)
  {
    if n > 0 {
      BreakListed(h, files, seqs, n - 1, b);
    }
  }

  /** `verify_history`: it reports exactly the breaks, in ascending order. */
  method VerifyHistory(h: Hash, files: Files, listing: seq<nat>) returns (intact: bool, breaks: seq<Break>)
    requires forall s: nat :: s in listing <==> s in files
    ensures forall b :: b in breaks <==> BreakAt(h, files, b.sequence, b.reason)
    ensures intact <==> Intact(h, files)
  {
    breaks := [];
    var seqs := SortSequences(listing);
    ListedOnDisk(seqs, files);
    var prev: Option<Manifest> := None;
    for i := 0 to |seqs|
      invariant breaks == BreaksUpTo(h, files, seqs, i)
      invariant prev == if i > 0 && Trusted(h, files[seqs[i - 1]]) then Some(files[seqs[i - 1]].m) else None
    {
      var found;
      found, prev := VerifyOne(h, files[seqs[i]], prev, PredFile(files, seqs, i));
      if found.Some? {
        breaks := breaks + [Break(seqs[i], found.value)];
      }
    }
    intact := |breaks| == 0;
    AllReported(h, files, seqs, breaks);
  }

  lemma {:induction false} ListedOnDisk(seqs: seq<nat>, files: Files)
    requires Lists(seqs, files)
    ensures AllOnDisk(seqs, files)
  {
    forall i | 0 <= i < |seqs|
      ensures seqs[i] in files
    {
      assert seqs[i] in seqs;
    }
  }

  /** The loop body: judge one file and hand on the predecessor that can be trusted. */
  method VerifyOne(h: Hash, f: File, prev: Option<Manifest>, ghost pred: Option<File>)
    returns (found: Option<Reason>, next: Option<Manifest>)
    requires prev == if pred.Some? && Trusted(h, pred.value) then Some(pred.value.m) else None
    ensures found == Judge(h, f, pred)
    ensures next == if Trusted(h, f) then Some(f.m) else None
  {
    found, next := None, None;
    match f
    case Vanished =>
    case Garbage => found := Some(InvalidJson);
    case Doc(m) =>
      if m.checksum != h(m.content) {
        if !(m.checksum == "" && m.content.committedAt.None?) {
          found := Some(SelfChecksumMismatch);
        }
        return;
      }
      if prev.Some? {
        match m.content.parentHash
        case Some(ph) =>
          if ph != prev.value.checksum { found := Some(ParentMismatch); }
        case None =>
          if m.content.committedAt.Some? { found := Some(MissingParent); }
      }
      next := Some(m);
  }

  lemma {:induction false} AllReported(h: Hash, files: Files, seqs: seq<nat>, breaks: seq<Break>)
    requires Lists(seqs, files) && AllOnDisk(seqs, files) && breaks == BreaksUpTo(h, files, seqs, |seqs|)
    ensures forall b :: b in breaks <==> BreakAt(h, files, b.sequence, b.reason)
    ensures |breaks| == 0 <==> Intact(h, files)
  {
    forall b
      ensures b in breaks <==> BreakAt(h, files, b.sequence, b.reason)
    {
      BreakListed(h, files, seqs, |seqs|, b);
      ListedIsBreak(h, files, seqs, b);
    }
    NoBreaks(h, files, breaks);
  }

  lemma {:induction false} ListedIsBreak(h: Hash, files: Files, seqs: seq<nat>, b: Break)
    requires Lists(seqs, files) && AllOnDisk(seqs, files)
    ensures Listed(h, files, seqs, |seqs|, b) <==> BreakAt(h, files, b.sequence, b.reason)
  {
    if b.sequence in seqs {
      var i :| 0 <= i < |seqs| && seqs[i] == b.sequence;
      BreakOfIndex(h, seqs, files, i);
      assert PredFile(files, seqs, i) == if i == 0 then None else Some(files[seqs[i - 1]]);
      assert forall j :: 0 <= j < |seqs| && seqs[j] == b.sequence ==> j == i;
    }
  }

  lemma {:induction false} NoBreaks(h: Hash, files: Files, breaks: seq<Break>)
    requires forall b :: b in breaks <==> BreakAt(h, files, b.sequence, b.reason)
    ensures |breaks| == 0 <==> Intact(h, files)
  {
    forall s: nat, r: Reason
      ensures BreakAt(h, files, s, r) <==> Break(s, r) in breaks
    {
    }
    if |breaks| > 0 {
      assert breaks[0] in breaks;
      assert BreakAt(h, files, breaks[0].sequence, breaks[0].reason);
    }
  }

  // ---- the chain binds the history ----

  ghost predicate Timestamped(files: Files) {
    forall s: nat :: s in files ==> files[s].Doc? && files[s].m.content.committedAt.Some?
  }

  /** Two different manifest contents with the same checksum. */
  ghost predicate Collision(h: Hash, a: Files, b: Files) {
    exists s: nat :: s in a && s in b && a[s].Doc? && b[s].Doc?
              && a[s].m.content != b[s].m.content && h(a[s].m.content) == h(b[s].m.content)
  }

  /** In an intact timestamped history every manifest is self-consistent and linked to the one before. */
  lemma {:induction false} IntactLinks(h: Hash, files: Files, seqs: seq<nat>, i: nat)
    requires Lists(seqs, files) && i < |seqs| && Intact(h, files) && Timestamped(files)
    ensures seqs[i] in files && SelfOk(h, files[seqs[i]].m)
    ensures i > 0 ==> seqs[i - 1] in files && files[seqs[i]].m.content.parentHash == Some(files[seqs[i - 1]].m.checksum)
  {
    IntactAt(h, files, seqs, i);
    if i > 0 {
      IntactAt(h, files, seqs, i - 1);
    }
  }

  lemma {:induction false} IntactAt(h: Hash, files: Files, seqs: seq<nat>, i: nat)
    requires Lists(seqs, files) && i < |seqs| && Intact(h, files)
    ensures seqs[i] in files && (i > 0 ==> seqs[i - 1] in files)
    ensures Judge(h, files[seqs[i]], if i == 0 then None else Some(files[seqs[i - 1]])) == None
  {
    BreakOfIndex(h, seqs, files, i);
    var verdict := Judge(h, files[seqs[i]], if i == 0 then None else Some(files[seqs[i - 1]]));
    forall r: Reason
      ensures verdict != Some(r)
    {
      assert !BreakAt(h, files, seqs[i], r);
    }
  }

  lemma {:induction false} SameFrom(h: Hash, a: Files, b: Files, seqs: seq<nat>, i: nat)
    requires Lists(seqs, a) && Lists(seqs, b) && i < |seqs|
    requires Intact(h, a) && Timestamped(a) && Intact(h, b) && Timestamped(b)
    requires seqs[|seqs| - 1] in a && seqs[|seqs| - 1] in b
    requires a[seqs[|seqs| - 1]].m.checksum == b[seqs[|seqs| - 1]].m.checksum
    ensures seqs[i] in a && seqs[i] in b
    ensures Collision(h, a, b) || a[seqs[i]] == b[seqs[i]]
    decreases |seqs| - i
  {
    IntactLinks(h, a, seqs, i);
    IntactLinks(h, b, seqs, i);
    if i + 1 < |seqs| {
      SameFrom(h, a, b, seqs, i + 1);
      IntactLinks(h, a, seqs, i + 1);
      IntactLinks(h, b, seqs, i + 1);
    }
  }

  /** Two intact timestamped histories over the same sequences that end in the same checksum are
      identical, manifest by manifest, unless two of their manifests collide under the hash. */
  lemma {:induction false} ChainBindsHistory(h: Hash, a: Files, b: Files, latest: nat)
    requires Intact(h, a) && Timestamped(a) && Intact(h, b) && Timestamped(b)
    requires a.Keys == b.Keys && latest in a && forall s: nat :: s in a ==> s <= latest
    requires a[latest].m.checksum == b[latest].m.checksum
    ensures a == b || Collision(h, a, b)
  {
    var seqs := SortedKeys(a);
    var at :| 0 <= at < |seqs| && seqs[at] == latest;
    assert at == |seqs| - 1 by {
      assert seqs[|seqs| - 1] in a;
    }
    if !Collision(h, a, b) {
      forall s: nat | s in a
        ensures a[s] == b[s]
      {
        assert s in seqs;
        var i :| 0 <= i < |seqs| && seqs[i] == s;
        SameFrom(h, a, b, seqs, i);
      }
    }
  }

  lemma {:induction false} SortedKeys(files: Files) returns (seqs: seq<nat>)
    ensures Lists(seqs, files)
    decreases |files|
  {
    if files == map[] {
      seqs := [];
    } else {
      var s: nat :| s in files;
      var rest := files - {s};
      assert |rest| < |files| by { SmallerMap(files, s); }
      var t := SortedKeys(rest);
      InsertNewSorted(t, s);
      seqs := InsertNew(t, s);
    }
  }

  lemma {:induction false} SmallerMap(files: Files, s: nat)
    requires s in files
    ensures |files - {s}| < |files|
  {
    var rest := files - {s};
    assert files.Keys == rest.Keys + {s};
  }

  // ---- pruning ----

  function Pruned(files: Files, cutoff: nat): Files {
    map s: nat | s in files && s >= cutoff :: files[s]
  }

  /** Removing the oldest manifests introduces no break. */
  lemma {:induction false} PruningAddsNoBreak(h: Hash, files: Files, cutoff: nat, s: nat, r: Reason)
    requires BreakAt(h, Pruned(files, cutoff), s, r)
    ensures BreakAt(h, files, s, r)
  {
    var kept := Pruned(files, cutoff);
    forall p: nat | IsPred(files, s, p)
      ensures Judge(h, files[s], Some(files[p])) == Some(r)
    {
      if p >= cutoff {
        assert IsPred(kept, s, p);
      } else {
        assert IsFirst(kept, s);
      }
    }
    if IsFirst(files, s) {
      assert IsFirst(kept, s);
    }
  }

  /** And it hides only breaks of the removed manifests and of the oldest one kept. */
  lemma {:induction false} PruningKeepsBreaks(h: Hash, files: Files, cutoff: nat, s: nat, r: Reason, p: nat)
    requires BreakAt(h, files, s, r) && p in files && cutoff <= p < s
    ensures BreakAt(h, Pruned(files, cutoff), s, r)
  {
    var kept := Pruned(files, cutoff);
    assert p in kept;
    forall q: nat | IsPred(kept, s, q)
      ensures IsPred(files, s, q)
    {
      assert p <= q;
      assert forall x: nat :: x in files && x < s ==> x < cutoff || x in kept;
    }
  }

  // ---- publishing ----

  /** The link a new manifest gets. */
  ghost predicate IsParent(files: Files, next: nat, parent: Option<Digest>) {
    && (next <= 1 ==> parent == None)
    && (next > 1 && IsLowest(files, next) ==> parent == None)
    && (forall p: nat :: next > 1 && IsPred(files, next, p) ==>
          parent == if files[p].Doc? then Some(files[p].m.checksum) else None)
  }

  ghost predicate IsLowest(files: Files, next: nat) {
    forall q: nat :: q in files ==> q >= next
  }

  /** `parent_manifest_checksum`: the direct predecessor if it can be read, else a scan for the closest. */
  method ParentManifestChecksum(files: Files, listing: seq<nat>, next: nat) returns (parent: Option<Digest>)
    requires forall s: nat :: s in listing <==> s in files
    ensures IsParent(files, next, parent)
  {
    if next <= 1 {
      return None;
    }
    if next - 1 in files && files[next - 1].Doc? {
      return Some(files[next - 1].m.checksum);
    }
    var best: Option<nat> := None;
    for i := 0 to |listing|
      invariant best.None? ==> forall k :: 0 <= k < i ==> listing[k] >= next
      invariant best.Some? ==> best.value in files && best.value < next
      invariant best.Some? ==> forall k :: 0 <= k < i && listing[k] < next ==> listing[k] <= best.value
    {
      var s := listing[i];
      if s < next && (best.None? || s > best.value) {
        best := Some(s);
      }
    }
    ScanFindsPred(files, listing, next, best);
    if best.None? {
      return None;
    }
    match files[best.value]
    case Doc(m) => return Some(m.checksum);
    case _ => return None;
  }

  lemma {:induction false} ScanFindsPred(files: Files, listing: seq<nat>, next: nat, best: Option<nat>)
    requires forall s: nat :: s in listing <==> s in files
    requires best.None? ==> forall k :: 0 <= k < |listing| ==> listing[k] >= next
    requires best.Some? ==> best.value in files && best.value < next
    requires best.Some? ==> forall k :: 0 <= k < |listing| && listing[k] < next ==> listing[k] <= best.value
    ensures best.None? ==> IsLowest(files, next) && forall p: nat :: !IsPred(files, next, p)
    ensures best.Some? ==> !IsLowest(files, next) && IsPred(files, next, best.value)
    ensures best.Some? ==> forall p: nat :: IsPred(files, next, p) ==> p == best.value
  {
    forall s: nat | s in files
      ensures s < next ==> best.Some? && s <= best.value
    {
      assert s in listing;
      var k :| 0 <= k < |listing| && listing[k] == s;
    }
  }

  /** `finalize`: set the link and the time, then compute the checksum over both. */
  function Finalize(h: Hash, c: Content, parent: Option<Digest>, now: string): (m: Manifest)
    ensures SelfOk(h, m) && m.content.parentHash == parent && m.content.committedAt == Some(now)
    ensures m.content.sequence == c.sequence && m.content.body == c.body
  {
    var content := c.(parentHash := parent, committedAt := Some(now));
    Manifest(content, h(content))
  }

  /** A published manifest is a break only in the one case its author does not look for: a manifest
      number 0 before number 1. */
  lemma {:induction false} PublishedIsLinked(h: Hash, files: Files, next: nat, c: Content, parent: Option<Digest>,
                                             now: string)
    requires next !in files && IsParent(files, next, parent)
    ensures Broken(h, files[next := Doc(Finalize(h, c, parent, now))], next) <==>
            next == 1 && 0 in files && Trusted(h, files[0])
  {
    var m := Finalize(h, c, parent, now);
    var after := files[next := Doc(m)];
    var seqs := SortedKeys(after);
    assert next in seqs;
    var i :| 0 <= i < |seqs| && seqs[i] == next;
    BreakOfIndex(h, seqs, after, i);
    PredOfIndex(seqs, after, i);
    if i > 0 {
      var p := seqs[i - 1];
      assert IsPred(files, next, p) by {
        assert IsPred(after, next, p);
        assert forall q: nat :: q in files ==> q in after;
      }
      var verdict := Judge(h, Doc(m), Some(files[p]));
      assert forall r: Reason :: BreakAt(h, after, next, r) <==> verdict == Some(r);
      if next == 1 {
        assert p == 0;
        if Trusted(h, files[0]) {
          assert BreakAt(h, after, next, MissingParent);
        }
      } else if 0 in files {
        assert next != 0;
      }
    } else {
      assert Judge(h, Doc(m), None) == None;
      assert 0 in files ==> 0 in after;
    }
  }

  /** Publishing above every manifest on disk changes no other verdict. */
  lemma {:induction false} PublishingIsLocal(h: Hash, files: Files, next: nat, f: File, s: nat, r: Reason)
    requires (forall q: nat :: q in files ==> q < next) && s != next
    ensures BreakAt(h, files[next := f], s, r) <==> BreakAt(h, files, s, r)
  {
    var after := files[next := f];
    if s in files {
      assert IsFirst(after, s) <==> IsFirst(files, s) by {
        assert forall q: nat :: q in after <==> q in files || q == next;
      }
      forall p: nat
        ensures IsPred(after, s, p) <==> IsPred(files, s, p)
      {
        assert forall q: nat :: q in files ==> q in after;
        assert forall q: nat :: q in after && q < s ==> q in files;
      }
    }
  }

  // ---- every run ----

  datatype Step = Publish(body: string, now: string, gap: nat) | Prune(cutoff: nat)

  /** A writer publishes above the latest manifest, possibly skipping numbers; the collector drops a prefix. */
  ghost predicate Next(h: Hash, before: Files, step: Step, after: Files) {
    match step
    case Prune(cutoff) => after == Pruned(before, cutoff)
    case Publish(body, now, gap) =>
      exists next: nat, parent: Option<Digest> ::
        && next > 0 && (forall q: nat :: q in before ==> 0 < q < next)
        && IsParent(before, next, parent)
        && after == before[next := Doc(Finalize(h, Content(next, body, None, None), parent, now))]
  }

  ghost predicate Healthy(h: Hash, files: Files) {
    && Intact(h, files) && Timestamped(files) && 0 !in files
    && forall s: nat :: s in files ==> files[s].m.content.sequence == s
  }

  lemma {:induction false} StepKeepsHealthy(h: Hash, before: Files, step: Step, after: Files)
    requires Healthy(h, before) && Next(h, before, step, after)
    ensures Healthy(h, after)
  {
    match step
    case Prune(cutoff) =>
      forall s: nat, r: Reason | BreakAt(h, after, s, r)
        ensures false
      {
        PruningAddsNoBreak(h, before, cutoff, s, r);
      }
    case Publish(body, now, gap) =>
      var next: nat, parent: Option<Digest> :|
        && next > 0 && (forall q: nat :: q in before ==> 0 < q < next)
        && IsParent(before, next, parent)
        && after == before[next := Doc(Finalize(h, Content(next, body, None, None), parent, now))];
      PublishedIsLinked(h, before, next, Content(next, body, None, None), parent, now);
      forall s: nat, r: Reason | BreakAt(h, after, s, r)
        ensures false
      {
        if s != next {
          PublishingIsLocal(h, before, next, after[next], s, r);
        }
      }
  }

  /** Over every run of commits and prunings the history stays intact. */
  lemma {:induction false} EveryRunIsIntact(h: Hash, states: seq<Files>, steps: seq<Step>)
    requires |states| == |steps| + 1 && states[0] == map[]
    requires forall i :: 0 <= i < |steps| ==> Next(h, states[i], steps[i], states[i + 1])
    ensures Healthy(h, states[|steps|])
    decreases |steps|
  {
    if |steps| > 0 {
      var n := |steps| - 1;
      var earlier, done := states[..n + 1], steps[..n];
      assert forall i :: 0 <= i <= n ==> earlier[i] == states[i];
      assert forall i :: 0 <= i < n ==> done[i] == steps[i];
      EveryRunIsIntact(h, earlier, done);
      assert earlier[n] == states[n];
      StepKeepsHealthy(h, states[n], steps[n], states[n + 1]);
    }
  }
}
