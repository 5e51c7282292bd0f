// Stable row identifiers and their segment encoding
// (crates/icefalldb-core/src/rowid.rs and `ids_to_segments` in compaction.rs).
module RowIds {
  import opened Collections
  import opened MachineIntegers
  import opened Permutations

  type RowId = nat

  datatype RowIdSegment =
    | Range(start: RowId, count: nat)
    | Sorted(ids: seq<RowId>)

  /** Addition of two u64 values in release mode: it wraps. */
  function WrapAdd(a: nat, b: nat): nat {
    (a + b) % U64_MODULUS
  }

  /** The ids a segment stands for; the end of a `Range` is computed in u64. */
  function SegmentIds(seg: RowIdSegment): seq<RowId> {
    match seg
    case Range(start, count) => Interval(start, WrapAdd(start, count))
    case Sorted(ids) => ids
  }

  function DecodeSegments(segs: seq<RowIdSegment>): seq<RowId> {
    if segs == [] then [] else SegmentIds(segs[0]) + DecodeSegments(segs[1..])
  }

  lemma {:induction false} DecodeConcat(a: seq<RowIdSegment>, b: seq<RowIdSegment>)
    ensures DecodeSegments(a + b) == DecodeSegments(a) + DecodeSegments(b)
  {
    if a == [] {
      assert a + b == b;
    } else {
      assert (a + b)[1..] == a[1..] + b;
      DecodeConcat(a[1..], b);
    }
  }

  ghost predicate AllU64(ids: seq<RowId>) {
    forall i :: 0 <= i < |ids| ==> ids[i] <= U64_MAX
  }

  ghost predicate OnlyRanges(segs: seq<RowIdSegment>) {
    forall i :: 0 <= i < |segs| ==> segs[i].Range?
  }

  /** The number of maximal blocks of consecutive ids. */
  function Runs(ids: seq<RowId>): nat {
    if ids == [] then 0
    else if |ids| == 1 then 1
    else (if ids[1] == ids[0] + 1 then 0 else 1) + Runs(ids[1..])
  }

  /** Adjacent strictly increasing pairs, the test `ids_to_segments` makes, order the whole list. */
  lemma {:induction false} AdjacentIncreasing(ids: seq<RowId>)
    requires forall i :: 0 <= i < |ids| - 1 ==> ids[i] < ids[i + 1]
    ensures Increasing(ids)
  {
    if |ids| > 1 {
      var t := ids[1..];
      forall i | 0 <= i < |t| - 1
        ensures t[i] < t[i + 1]
      {
        assert ids[i + 1] < ids[i + 2];
      }
      AdjacentIncreasing(t);
      forall i, j | 0 <= i < j < |ids|
        ensures ids[i] < ids[j]
      {
        assert ids[j] == t[j - 1];
        assert ids[0] < ids[1] && ids[1] == t[0];
        if i > 0 { assert ids[i] == t[i - 1]; }
      }
    }
  }

  lemma {:induction false} RunsOfConcat(a: seq<RowId>, b: seq<RowId>)
    ensures Runs(a + b) <= Runs(a) + Runs(b)
  {
    if a == [] {
      assert a + b == b;
    } else if |a| == 1 {
      assert (a + b)[1..] == b;
    } else {
      assert (a + b)[1..] == a[1..] + b;
      RunsOfConcat(a[1..], b);
    }
  }

  lemma {:induction false} RunsOfInterval(lo: nat, hi: nat)
    ensures Runs(Interval(lo, hi)) <= 1
    decreases hi - lo
  {
    if lo < hi {
      RunsOfInterval(lo + 1, hi);
      assert Interval(lo, hi)[1..] == Interval(lo + 1, hi);
    }
  }

  /** No list of `Range` segments encodes `ids` with fewer segments than it has runs. */
  lemma {:induction false} RangesAtLeastRuns(segs: seq<RowIdSegment>)
    requires OnlyRanges(segs)
    ensures Runs(DecodeSegments(segs)) <= |segs|
  {
    if segs != [] {
      RangesAtLeastRuns(segs[1..]);
      RunsOfInterval(segs[0].start, WrapAdd(segs[0].start, segs[0].count));
      RunsOfConcat(SegmentIds(segs[0]), DecodeSegments(segs[1..]));
    }
  }

  /** Appending an id to a list whose last id is known adds a run exactly when it leaves a gap. */
  lemma {:induction false} RunsSnoc(ids: seq<RowId>, id: RowId)
    requires ids != []
    ensures Runs(ids + [id]) == Runs(ids) + (if id == ids[|ids| - 1] + 1 then 0 else 1)
  {
    assert (ids + [id])[1..] == ids[1..] + [id];
    if |ids| == 1 {
      assert ids[1..] + [id] == [id];
    } else {
      RunsSnoc(ids[1..], id);
    }
  }

  /** What a `Range` decodes to: exactly its ids, unless its end wraps to zero. */
  lemma {:induction false} RangeDecode(start: RowId, count: nat)
    requires start + count <= U64_MODULUS
    ensures start + count < U64_MODULUS ==> SegmentIds(Range(start, count)) == Interval(start, start + count)
    ensures start + count == U64_MODULUS ==> SegmentIds(Range(start, count)) == []
  {
  }

  lemma {:induction false} DecodeSnoc(segs: seq<RowIdSegment>, s: RowIdSegment)
    ensures DecodeSegments(segs + [s]) == DecodeSegments(segs) + SegmentIds(s)
  {
    DecodeConcat(segs, [s]);
    assert [s][1..] == [];
  }

  ghost predicate CanonicalEncoding(ids: seq<RowId>, segs: seq<RowIdSegment>) {
    && (Increasing(ids) ==>
          OnlyRanges(segs) && |segs| == Runs(ids) && (DecodeSegments(segs) == ids <==> U64_MAX !in ids))
    && (!Increasing(ids) ==> segs == [Sorted(ids)])
  }

  /** The state of the run loop after the ids `done`: closed segments plus one open run. */
  ghost predicate OpenRun(done: seq<RowId>, segs: seq<RowIdSegment>, runStart: RowId, runLen: nat) {
    && done != [] && 1 <= runLen
    && runStart + runLen == done[|done| - 1] + 1
    && OnlyRanges(segs)
    && done == DecodeSegments(segs) + Interval(runStart, runStart + runLen)
    && |segs| + 1 == Runs(done)
  }

  lemma {:induction false} ExtendRun(done: seq<RowId>, segs: seq<RowIdSegment>, runStart: RowId, runLen: nat)
    requires OpenRun(done, segs, runStart, runLen)
    ensures OpenRun(done + [runStart + runLen], segs, runStart, runLen + 1)
  {
    var end := runStart + runLen;
    RunsSnoc(done, end);
    assert |segs| + 1 == Runs(done + [end]);
    assert done + [end] == DecodeSegments(segs) + Interval(runStart, end + 1) by {
      IntervalSnoc(runStart, end);
      Assoc(DecodeSegments(segs), Interval(runStart, end), [end]);
    }
  }

  lemma {:induction false} CloseRun(done: seq<RowId>, segs: seq<RowIdSegment>, runStart: RowId, runLen: nat, id: RowId)
    requires OpenRun(done, segs, runStart, runLen)
    requires done[|done| - 1] + 1 < id <= U64_MAX
    ensures OpenRun(done + [id], segs + [Range(runStart, runLen)], id, 1)
  {
    RunsSnoc(done, id);
    var segs' := segs + [Range(runStart, runLen)];
    assert DecodeSegments(segs') == done by {
      RangeDecode(runStart, runLen);
      DecodeSnoc(segs, Range(runStart, runLen));
    }
    assert Interval(id, id + 1) == [id];
  }

  lemma {:induction false} FinishRun(ids: seq<RowId>, segs: seq<RowIdSegment>, runStart: RowId, runLen: nat)
    requires OpenRun(ids, segs, runStart, runLen)
    requires Increasing(ids) && AllU64(ids)
    ensures CanonicalEncoding(ids, segs + [Range(runStart, runLen)])
  {
    FinishedDecode(ids, segs, runStart, runLen);
    LastIsLargest(ids);
  }

  /** The last run is decoded, too, unless its end wraps. */
  lemma {:induction false} FinishedDecode(ids: seq<RowId>, segs: seq<RowIdSegment>, runStart: RowId, runLen: nat)
    requires OpenRun(ids, segs, runStart, runLen) && AllU64(ids)
    ensures DecodeSegments(segs + [Range(runStart, runLen)]) == ids <==> ids[|ids| - 1] != U64_MAX
  {
    DecodeSnoc(segs, Range(runStart, runLen));
    RangeDecode(runStart, runLen);
    if runStart + runLen == U64_MODULUS {
      assert |DecodeSegments(segs)| < |ids|;
    }
  }

  lemma {:induction false} LastIsLargest(ids: seq<RowId>)
    requires ids != [] && Increasing(ids) && AllU64(ids)
    ensures U64_MAX in ids <==> ids[|ids| - 1] == U64_MAX
  {
  }

  /** `ids_to_segments`: strictly increasing ids become one `Range` per run, anything else one `Sorted`. */
  method IdsToSegments(ids: seq<RowId>) returns (segments: seq<RowIdSegment>)
    requires AllU64(ids)
    ensures CanonicalEncoding(ids, segments)
  {
    if |ids| == 0 {
      return [];
    }
    var increasing := IsIncreasing(ids);
    if !increasing {
      return [Sorted(ids)];
    }
    segments := EncodeRuns(ids);
  }

  /** The adjacent-pairs test that decides between ranges and one `Sorted` segment. */
  method IsIncreasing(ids: seq<RowId>) returns (b: bool)
    ensures b <==> Increasing(ids)
  {
    var i := 1;
    while i < |ids|
      invariant 1 <= i && forall k :: 0 <= k < i - 1 && k + 1 < |ids| ==> ids[k] < ids[k + 1]
    {
      if ids[i] <= ids[i - 1] {
        return false;
      }
      i := i + 1;
    }
    AdjacentIncreasing(ids);
    return true;
  }

  /** One id more either extends the open run or closes it and opens the next. */
  lemma {:induction false} NextId(ids: seq<RowId>, i: nat, segments: seq<RowIdSegment>, runStart: nat, runLen: nat)
    requires 0 < i < |ids| && Increasing(ids) && AllU64(ids)
    requires OpenRun(ids[..i], segments, runStart, runLen)
    ensures ids[i] == runStart + runLen ==> OpenRun(ids[..i + 1], segments, runStart, runLen + 1)
    ensures ids[i] != runStart + runLen ==> OpenRun(ids[..i + 1], segments + [Range(runStart, runLen)], ids[i], 1)
  {
    assert ids[..i + 1] == ids[..i] + [ids[i]];
    assert ids[i - 1] < ids[i];
    if ids[i] == runStart + runLen {
      ExtendRun(ids[..i], segments, runStart, runLen);
    } else {
      CloseRun(ids[..i], segments, runStart, runLen, ids[i]);
    }
  }

  /** The run loop. */
  method EncodeRuns(ids: seq<RowId>) returns (segments: seq<RowIdSegment>)
    requires ids != [] && Increasing(ids) && AllU64(ids)
    ensures CanonicalEncoding(ids, segments)
  {
    segments := [];
    var runStart: nat, runLen: nat := ids[0], 1;
    assert Interval(ids[0], ids[0] + 1) == [ids[0]];
    for i := 1 to |ids|
      invariant OpenRun(ids[..i], segments, runStart, runLen)
    {
      NextId(ids, i, segments, runStart, runLen);
      if ids[i] == runStart + runLen {
        runLen := runLen + 1;
      } else {
        segments := segments + [Range(runStart, runLen)];
        runStart, runLen := ids[i], 1;
      }
    }
    assert ids[..|ids|] == ids;
    FinishRun(ids, segments, runStart, runLen);
    segments := segments + [Range(runStart, runLen)];
  }

  /** The encoding is minimal: no other list of ranges that decodes to the ids is shorter. */
  lemma {:induction false} EncodingIsMinimal(ids: seq<RowId>, segs: seq<RowIdSegment>, other: seq<RowIdSegment>)
    requires CanonicalEncoding(ids, segs) && Increasing(ids)
    requires OnlyRanges(other) && DecodeSegments(other) == ids
    ensures |segs| <= |other|
  {
    RangesAtLeastRuns(other);
  }

  /** Decoding returns the ids exactly, unless a strictly increasing list reaches u64::MAX. */
  lemma {:induction false} EncodingDecodes(ids: seq<RowId>, segs: seq<RowIdSegment>)
    requires CanonicalEncoding(ids, segs)
    ensures DecodeSegments(segs) == ids <==> !(Increasing(ids) && U64_MAX in ids)
  {
    if segs == [Sorted(ids)] {
      assert segs[1..] == [];
    }
  }

  /** `allocate_range`: the ids handed out are the next `count`, and the counter moves past them. */
  method AllocateRange(next: RowId, count: nat) returns (seg: RowIdSegment, next': RowId)
    requires next + count <= U64_MAX
    ensures next' == next + count
    ensures SegmentIds(seg) == Interval(next, next')
    ensures forall id: RowId :: id in SegmentIds(seg) <==> next <= id < next'
  {
    next' := next + count;
    seg := Range(next, count);
    RangeDecode(next, count);
    forall id: RowId | next <= id < next'
      ensures id in SegmentIds(seg)
    {
      assert SegmentIds(seg)[id - next] == id;
    }
  }
}
