// The size-bounded streaming builder of output row groups
// (`StreamingRowGroupBuilder` in crates/icefalldb-core/src/compaction.rs).
module Builder {
  import opened Collections

  /** A record batch: its rows and what `get_array_memory_size` reports for it, which is any number. */
  datatype Batch<+R> = Batch(rows: seq<R>, memory: nat)

  /** Rows cut from one input batch, with the per-row byte estimate of that batch. */
  datatype Slice<+R> = Slice(rows: seq<R>, bytesPerRow: nat)

  /** The slices that one output row group is concatenated from. */
  type RowGroup<+R> = seq<Slice<R>>

  function Rows<R>(g: RowGroup<R>): seq<R> {
    if g == [] then [] else g[0].rows + Rows(g[1..])
  }

  function Bytes<R>(g: RowGroup<R>): nat {
    if g == [] then 0 else |g[0].rows| * g[0].bytesPerRow + Bytes(g[1..])
  }

  /** All rows of a list of row groups, in order. */
  function AllRows<R>(gs: seq<RowGroup<R>>): seq<R> {
    if gs == [] then [] else Rows(gs[0]) + AllRows(gs[1..])
  }

  lemma {:induction false} GroupSnoc<R>(g: RowGroup<R>, s: Slice<R>)
    ensures Rows(g + [s]) == Rows(g) + s.rows
    ensures Bytes(g + [s]) == Bytes(g) + |s.rows| * s.bytesPerRow
  {
    if g == [] {
      assert [s][1..] == [] && g + [s] == [s];
    } else {
      assert (g + [s])[1..] == g[1..] + [s];
      GroupSnoc(g[1..], s);
    }
  }

  lemma {:induction false} AllRowsConcat<R>(a: seq<RowGroup<R>>, b: seq<RowGroup<R>>)
    ensures AllRows(a + b) == AllRows(a) + AllRows(b)
  {
    if a == [] {
      assert a + b == b;
    } else {
      assert (a + b)[1..] == a[1..] + b;
      AllRowsConcat(a[1..], b);
    }
  }

  lemma {:induction false} AllRowsSnoc<R>(gs: seq<RowGroup<R>>, g: RowGroup<R>)
    ensures AllRows(gs + [g]) == AllRows(gs) + Rows(g)
  {
    AllRowsConcat(gs, [g]);
    assert [g][1..] == [];
  }

  // ---- per-row byte estimates ----

  function Copies(n: nat, x: nat): (s: seq<nat>)
    ensures |s| == n && forall i :: 0 <= i < n ==> s[i] == x
  {
    seq(n, i => x)
  }

  lemma {:induction false} CopiesConcat(m: nat, n: nat, x: nat)
    ensures Copies(m + n, x) == Copies(m, x) + Copies(n, x)
  {
  }

  function Sum(xs: seq<nat>): nat {
    if xs == [] then 0 else xs[0] + Sum(xs[1..])
  }

  lemma {:induction false} SumConcat(a: seq<nat>, b: seq<nat>)
    ensures Sum(a + b) == Sum(a) + Sum(b)
  {
    if a == [] {
      assert a + b == b;
    } else {
      assert (a + b)[1..] == a[1..] + b;
      SumConcat(a[1..], b);
    }
  }

  lemma {:induction false} SumCopies(n: nat, x: nat)
    ensures Sum(Copies(n, x)) == n * x
  {
    if n > 0 {
      assert Copies(n, x)[1..] == Copies(n - 1, x);
      SumCopies(n - 1, x);
    }
  }

  /** What each row of a batch is taken to cost. */
  function BatchCosts<R>(b: Batch<R>): seq<nat> {
    if b.rows == [] then [] else Copies(|b.rows|, b.memory / |b.rows|)
  }

  function Costs<R>(g: RowGroup<R>): seq<nat> {
    if g == [] then [] else Copies(|g[0].rows|, g[0].bytesPerRow) + Costs(g[1..])
  }

  function AllCosts<R>(gs: seq<RowGroup<R>>): seq<nat> {
    if gs == [] then [] else Costs(gs[0]) + AllCosts(gs[1..])
  }

  lemma {:induction false} CostsSnoc<R>(g: RowGroup<R>, s: Slice<R>)
    ensures Costs(g + [s]) == Costs(g) + Copies(|s.rows|, s.bytesPerRow)
  {
    if g == [] {
      assert [s][1..] == [] && g + [s] == [s];
    } else {
      assert (g + [s])[1..] == g[1..] + [s];
      CostsSnoc(g[1..], s);
    }
  }

  lemma {:induction false} AllCostsSnoc<R>(gs: seq<RowGroup<R>>, g: RowGroup<R>)
    ensures AllCosts(gs + [g]) == AllCosts(gs) + Costs(g)
  {
    if gs == [] {
      assert [g][1..] == [] && gs + [g] == [g];
    } else {
      assert (gs + [g])[1..] == gs[1..] + [g];
      AllCostsSnoc(gs[1..], g);
    }
  }

  lemma {:induction false} CostsSum<R>(g: RowGroup<R>)
    ensures |Costs(g)| == |Rows(g)| && Sum(Costs(g)) == Bytes(g)
  {
    if g != [] {
      CostsSum(g[1..]);
      SumCopies(|g[0].rows|, g[0].bytesPerRow);
      SumConcat(Copies(|g[0].rows|, g[0].bytesPerRow), Costs(g[1..]));
    }
  }

  /** The estimate of the last row is that of the last slice. */
  lemma {:induction false} LastCost<R>(g: RowGroup<R>)
    requires g != [] && g[|g| - 1].rows != []
    ensures Costs(g) != [] && Costs(g)[|Costs(g)| - 1] == g[|g| - 1].bytesPerRow
  {
    var n := |g| - 1;
    assert g == g[..n] + [g[n]];
    CostsSnoc(g[..n], g[n]);
  }

  /** A chunk of the size promised: at least one row, at most the row target, and without its last row it is
      below the byte target. */
  ghost predicate Sized(costs: seq<nat>, targetRows: nat, targetBytes: nat) {
    && 1 <= |costs| <= targetRows
    && Sum(costs) <= targetBytes + costs[|costs| - 1]
    && (|costs| > 1 && targetBytes > 0 ==> Sum(costs) < targetBytes + costs[|costs| - 1])
  }

  /** A chunk with no room left: it has the target's rows, or its bytes reach the target, or would exceed it
      with one more row like its last. */
  ghost predicate Filled(costs: seq<nat>, targetRows: nat, targetBytes: nat) {
    && costs != []
    && (|costs| >= targetRows || Sum(costs) >= targetBytes || Sum(costs) + costs[|costs| - 1] > targetBytes)
  }

  /** The size promise: at least one row, at most the row target, and below the byte target without the last
      row added. */
  ghost predicate Within<R>(g: RowGroup<R>, targetRows: nat, targetBytes: nat) {
    && g != [] && g[|g| - 1].rows != []
    && 1 <= |Rows(g)| <= targetRows
    && Bytes(g) <= targetBytes + g[|g| - 1].bytesPerRow
    && (|Rows(g)| > 1 && targetBytes > 0 ==> Bytes(g) < targetBytes + g[|g| - 1].bytesPerRow)
  }

  /** No room is left. */
  ghost predicate Full<R>(g: RowGroup<R>, targetRows: nat, targetBytes: nat) {
    && g != [] && g[|g| - 1].rows != []
    && (|Rows(g)| >= targetRows || Bytes(g) >= targetBytes || Bytes(g) + g[|g| - 1].bytesPerRow > targetBytes)
  }

  /** Both, row by row. */
  lemma {:induction false} GroupCosts<R>(g: RowGroup<R>, targetRows: nat, targetBytes: nat)
    ensures |Costs(g)| == |Rows(g)|
    ensures Within(g, targetRows, targetBytes) ==> Sized(Costs(g), targetRows, targetBytes)
    ensures Full(g, targetRows, targetBytes) ==> Filled(Costs(g), targetRows, targetBytes)
  {
    CostsSum(g);
    if g != [] && g[|g| - 1].rows != [] { LastCost(g); }
  }

  ghost predicate AllFull<R>(gs: seq<RowGroup<R>>, targetRows: nat, targetBytes: nat) {
    forall i :: 0 <= i < |gs| ==> Full(gs[i], targetRows, targetBytes)
  }

  ghost predicate AllWithin<R>(gs: seq<RowGroup<R>>, targetRows: nat, targetBytes: nat) {
    forall i :: 0 <= i < |gs| ==> Within(gs[i], targetRows, targetBytes)
  }

  lemma {:induction false} AllWithinConcat<R>(a: seq<RowGroup<R>>, b: seq<RowGroup<R>>, targetRows: nat,
                                              targetBytes: nat)
    requires AllWithin(a, targetRows, targetBytes) && AllWithin(b, targetRows, targetBytes)
    ensures AllWithin(a + b, targetRows, targetBytes)
  {
  }

  /** The integer facts behind the size arithmetic. */
  lemma {:induction false} DivBound(n: nat, d: nat, k: nat)
    requires d > 0
    ensures k <= n / d <==> k * d <= n
  {
    assert n == d * (n / d) + n % d;
    if k <= n / d {
      assert k * d <= (n / d) * d;
    } else {
      assert k * d >= (n / d + 1) * d == (n / d) * d + d;
    }
  }

  lemma {:induction false} MulMono(a: nat, b: nat, c: nat)
    requires a <= b
    ensures a * c <= b * c
  {
  }

  function Min(a: nat, b: nat): nat { if a <= b then a else b }
  function Max(a: nat, b: nat): nat { if a >= b then a else b }

  class StreamingRowGroupBuilder<R> {
    const targetRows: nat
    const targetBytes: nat
    var current: RowGroup<R>
    var currentRows: nat
    var currentBytes: nat

    ghost predicate Valid()
      reads this
    {
      && currentRows == |Rows(current)|
      && currentBytes == Bytes(current)
      && (forall i :: 0 <= i < |current| ==> current[i].rows != [])
    }

    /** The buffer between two calls of the compaction loop. */
    ghost predicate Bounded()
      reads this
    {
      current != [] ==> Within(current, targetRows, targetBytes)
    }

    constructor (targetRows: nat, targetBytes: nat)
      ensures Valid() && current == []
      ensures this.targetRows == targetRows && this.targetBytes == targetBytes
    {
      this.targetRows, this.targetBytes := targetRows, targetBytes;
      current, currentRows, currentBytes := [], 0, 0;
    }

    predicate IsFull()
      reads this
    {
      currentRows >= targetRows || currentBytes >= targetBytes
    }

    lemma {:induction false} FullBuffer()
      requires Valid() && Bounded() && IsFull()
      ensures current != [] ==> Full(current, targetRows, targetBytes)
    {
    }

    /** How many of `rows` more rows top the buffer up to the tighter target, at least one. */
    function TakeToFill(rows: nat, bytesPerRow: nat): (take: nat)
      requires rows > 0
      reads this
      ensures 1 <= take <= rows
      ensures currentRows < targetRows ==> currentRows + take <= targetRows
      ensures currentBytes <= targetBytes ==> currentBytes + take * bytesPerRow <= targetBytes + bytesPerRow
      ensures currentBytes < targetBytes ==> currentBytes + take * bytesPerRow < targetBytes + bytesPerRow
    {
      var toRows := if targetRows >= currentRows then targetRows - currentRows else 0;
      var slack := if targetBytes >= currentBytes then targetBytes - currentBytes else 0;
      var toBytes := if bytesPerRow == 0 then rows else slack / bytesPerRow;
      var take := Min(Max(Min(toRows, toBytes), 1), rows);
      assert bytesPerRow > 0 && take <= toBytes ==> take * bytesPerRow <= slack by {
        if bytesPerRow > 0 { DivBound(slack, bytesPerRow, take); }
      }
      take
    }

    function RowsPerGroup(bytesPerRow: nat): (n: nat)
      ensures n == 0 <==> targetRows == 0 && bytesPerRow == 0
      ensures targetRows > 0 ==> n <= targetRows
      ensures n * bytesPerRow <= targetBytes + bytesPerRow
      ensures n > 1 ==> n * bytesPerRow <= targetBytes
      ensures forall k: nat :: k <= targetRows && k * bytesPerRow <= targetBytes ==> k <= n
    {
      if bytesPerRow == 0 then targetRows
      else
        var n := Max(Min(targetRows, targetBytes / bytesPerRow), 1);
        assert n > 1 ==> n * bytesPerRow <= targetBytes by { DivBound(targetBytes, bytesPerRow, n); }
        assert forall k: nat :: k * bytesPerRow <= targetBytes ==> k <= targetBytes / bytesPerRow by {
          forall k: nat | k * bytesPerRow <= targetBytes
            ensures k <= targetBytes / bytesPerRow
          {
            DivBound(targetBytes, bytesPerRow, k);
          }
        }
        n
    }

    /** Whether the buffer has room for `rows` more rows. */
    predicate Fits(rows: nat, bytesPerRow: nat)
      reads this
      ensures Fits(rows, bytesPerRow) ==> rows <= RowsPerGroup(bytesPerRow)
    {
      currentRows + rows <= targetRows && currentBytes + rows * bytesPerRow <= targetBytes
    }

    /** A slice of at most `RowsPerGroup` rows is a row group of the promised size on its own. */
    lemma {:induction false} SliceWithin(s: Slice<R>)
      requires targetRows > 0 && 1 <= |s.rows| <= RowsPerGroup(s.bytesPerRow)
      ensures Within([s], targetRows, targetBytes)
    {
      OneSlice(s);
      MulMono(|s.rows|, RowsPerGroup(s.bytesPerRow), s.bytesPerRow);
    }

    /** And as full as can be, if it has all of them. */
    lemma {:induction false} SliceFills(s: Slice<R>)
      requires targetRows > 0 && |s.rows| == RowsPerGroup(s.bytesPerRow)
      ensures Full([s], targetRows, targetBytes)
    {
      OneSlice(s);
      var n := RowsPerGroup(s.bytesPerRow);
      assert n < targetRows ==> (n + 1) * s.bytesPerRow > targetBytes;
      assert (n + 1) * s.bytesPerRow == n * s.bytesPerRow + s.bytesPerRow;
    }

    /** What tops up a buffer that has no room for all rows leaves no room for one more. */
    lemma {:induction false} TakeFills(rows: nat, bytesPerRow: nat)
      requires rows > 0 && !IsFull() && !Fits(rows, bytesPerRow)
      ensures var take := TakeToFill(rows, bytesPerRow);
              currentRows + take >= targetRows || currentBytes + take * bytesPerRow + bytesPerRow > targetBytes
    {
      var take := TakeToFill(rows, bytesPerRow);
      var slack := targetBytes - currentBytes;
      assert (take + 1) * bytesPerRow == take * bytesPerRow + bytesPerRow;
      if bytesPerRow > 0 {
        DivBound(slack, bytesPerRow, rows);
        DivBound(slack, bytesPerRow, take + 1);
      }
    }

    /** Top the non-empty buffer up with a prefix of `rows` and flush it. */
    method TopUp(rows: seq<R>, bytesPerRow: nat) returns (group: RowGroup<R>, rest: seq<R>)
      requires Valid() && current != [] && rows != []
      modifies this`current, this`currentRows, this`currentBytes
      ensures Valid() && current == []
      ensures Rows(group) + rest == old(Rows(current)) + rows
      ensures Costs(group) + Copies(|rest|, bytesPerRow) == old(Costs(current)) + Copies(|rows|, bytesPerRow)
      ensures old(!IsFull()) ==> Within(group, targetRows, targetBytes)
      ensures old(!IsFull() && !Fits(|rows|, bytesPerRow)) ==> Full(group, targetRows, targetBytes)
    {
      var take := TakeToFill(|rows|, bytesPerRow);
      if !IsFull() && !Fits(|rows|, bytesPerRow) { TakeFills(|rows|, bytesPerRow); }
      Push(Slice(rows[..take], bytesPerRow));
      group := FlushForce();
      rest := rows[take..];
      assert rows == rows[..take] + rest;
      CopiesConcat(take, |rest|, bytesPerRow);
    }

    /** Cut full row groups off the front of `rows` while it is longer than one of them. */
    method SliceFull(rows: seq<R>, bytesPerRow: nat) returns (groups: seq<RowGroup<R>>, rest: seq<R>)
      requires targetRows > 0 || bytesPerRow > 0
      ensures AllRows(groups) + rest == rows && |rest| <= RowsPerGroup(bytesPerRow)
      ensures |rows| <= RowsPerGroup(bytesPerRow) ==> groups == [] && rest == rows
      ensures AllCosts(groups) + Copies(|rest|, bytesPerRow) == Copies(|rows|, bytesPerRow)
      ensures targetRows > 0 ==> AllWithin(groups, targetRows, targetBytes) && AllFull(groups, targetRows, targetBytes)
    {
      var perGroup := RowsPerGroup(bytesPerRow);
      groups, rest := [], rows;
      while |rest| > perGroup
        invariant AllRows(groups) + rest == rows
        invariant |rows| <= perGroup ==> groups == [] && rest == rows
        invariant AllCosts(groups) + Copies(|rest|, bytesPerRow) == Copies(|rows|, bytesPerRow)
        invariant targetRows > 0 ==>
                    AllWithin(groups, targetRows, targetBytes) && AllFull(groups, targetRows, targetBytes)
        decreases |rest|
      {
        var slice := Slice(rest[..perGroup], bytesPerRow);
        ghost var tail := rest[perGroup..];
        assert rest == slice.rows + tail;
        OneSlice(slice);
        AllRowsSnoc(groups, [slice]);
        Assoc(AllRows(groups), slice.rows, tail);
        SliceCosts(groups, slice, |tail|);
        if targetRows > 0 {
          SliceWithin(slice);
          SliceFills(slice);
          AllWithinConcat(groups, [[slice]], targetRows, targetBytes);
        }
        groups := groups + [[slice]];
        rest := rest[perGroup..];
      }
    }

    /** Put the tail of a batch into the buffer; it fits, because the buffer is empty or has room. */
    method PushTail(rows: seq<R>, bytesPerRow: nat)
      requires Valid() && rows != [] && |rows| <= RowsPerGroup(bytesPerRow)
      requires current == [] || Fits(|rows|, bytesPerRow)
      modifies this`current, this`currentRows, this`currentBytes
      ensures Valid() && Rows(current) == old(Rows(current)) + rows
      ensures Costs(current) == old(Costs(current)) + Copies(|rows|, bytesPerRow)
      ensures targetRows > 0 && old(current == [] || !IsFull()) ==> Bounded()
    {
      var slice := Slice(rows, bytesPerRow);
      if current == [] && targetRows > 0 {
        SliceWithin(slice);
        assert current + [slice] == [slice];
      }
      Push(slice);
    }

    /** Feed one batch; returns the row groups that are complete.
        Nothing is lost, added or reordered, whatever the state of the buffer. */
    method Add(batch: Batch<R>) returns (flushed: seq<RowGroup<R>>)
      requires Valid()
      // Otherwise the slicing loop of the source makes no progress.
      requires targetRows > 0 || batch.rows == [] || batch.memory / |batch.rows| > 0
      modifies this`current, this`currentRows, this`currentBytes
      ensures Valid()
      ensures AllRows(flushed) + Rows(current) == old(Rows(current)) + batch.rows
      ensures AllCosts(flushed) + Costs(current) == old(Costs(current)) + BatchCosts(batch)
      ensures targetRows > 0 && old(current == [] || !IsFull()) && old(Bounded()) ==>
                && Bounded() && AllWithin(flushed, targetRows, targetBytes)
                && AllFull(flushed, targetRows, targetBytes)
    {
      if |batch.rows| == 0 {
        return [];
      }
      var bytesPerRow := batch.memory / |batch.rows|;
      if current != [] && !Fits(|batch.rows|, bytesPerRow) {
        flushed := AddToFull(batch.rows, bytesPerRow);
      } else {
        flushed := AddToRoomy(batch.rows, bytesPerRow);
      }
    }

    method AddToFull(rows: seq<R>, bytesPerRow: nat) returns (flushed: seq<RowGroup<R>>)
      requires Valid() && rows != [] && current != [] && (targetRows > 0 || bytesPerRow > 0)
      requires !Fits(|rows|, bytesPerRow)
      modifies this`current, this`currentRows, this`currentBytes
      ensures Valid()
      ensures AllRows(flushed) + Rows(current) == old(Rows(current)) + rows
      ensures AllCosts(flushed) + Costs(current) == old(Costs(current)) + Copies(|rows|, bytesPerRow)
      ensures targetRows > 0 && old(!IsFull()) ==>
                && Bounded() && AllWithin(flushed, targetRows, targetBytes)
                && AllFull(flushed, targetRows, targetBytes)
    {
      var group, remaining := TopUp(rows, bytesPerRow);
      flushed, remaining := SliceFull(remaining, bytesPerRow);
      ghost var tail := Copies(|remaining|, bytesPerRow);
      Assoc(Costs(group), AllCosts(flushed), tail);
      Assoc(Rows(group), AllRows(flushed), remaining);
      FlushedFirst(group, flushed);
      if targetRows > 0 && old(!IsFull()) {
        AllWithinConcat([group], flushed, targetRows, targetBytes);
      }
      flushed := [group] + flushed;
      if |remaining| > 0 {
        PushTail(remaining, bytesPerRow);
        EmptyLeft(remaining);
      }
    }

    /** A buffer that was not flushed leaves nothing to slice, so no row group overtakes it. */
    method AddToRoomy(rows: seq<R>, bytesPerRow: nat) returns (flushed: seq<RowGroup<R>>)
      requires Valid() && rows != [] && (targetRows > 0 || bytesPerRow > 0)
      requires current == [] || Fits(|rows|, bytesPerRow)
      modifies this`current, this`currentRows, this`currentBytes
      ensures Valid()
      ensures AllRows(flushed) + Rows(current) == old(Rows(current)) + rows
      ensures AllCosts(flushed) + Costs(current) == old(Costs(current)) + Copies(|rows|, bytesPerRow)
      ensures targetRows > 0 && old(current == [] || !IsFull()) && old(Bounded()) ==>
                && Bounded() && AllWithin(flushed, targetRows, targetBytes)
                && AllFull(flushed, targetRows, targetBytes)
    {
      ghost var buffered := Rows(current);
      var remaining;
      flushed, remaining := SliceFull(rows, bytesPerRow);
      if |remaining| > 0 {
        PushTail(remaining, bytesPerRow);
      }
      EmptyLeft(rows);
      EmptyLeft(remaining);
      EmptyLeft(buffered + remaining);
    }

    lemma {:induction false} FlushedFirst(g: RowGroup<R>, gs: seq<RowGroup<R>>)
      ensures AllRows([g] + gs) == Rows(g) + AllRows(gs) && AllCosts([g] + gs) == Costs(g) + AllCosts(gs)
    {
      assert ([g] + gs)[1..] == gs;
    }

    lemma {:induction false} OneSlice(s: Slice<R>)
      ensures Rows([s]) == s.rows && Bytes([s]) == |s.rows| * s.bytesPerRow
    {
      GroupSnoc([], s);
      assert [] + [s] == [s];
    }

    lemma {:induction false} SliceCosts(groups: seq<RowGroup<R>>, s: Slice<R>, rest: nat)
      ensures AllCosts(groups + [[s]]) + Copies(rest, s.bytesPerRow)
           == AllCosts(groups) + Copies(|s.rows| + rest, s.bytesPerRow)
    {
      AllCostsSnoc(groups, [s]);
      CostsSnoc([], s);
      assert [] + [s] == [s];
      CopiesConcat(|s.rows|, rest, s.bytesPerRow);
      Assoc(AllCosts(groups), Copies(|s.rows|, s.bytesPerRow), Copies(rest, s.bytesPerRow));
    }

    method Push(s: Slice<R>)
      requires Valid() && s.rows != []
      modifies this`current, this`currentRows, this`currentBytes
      ensures Valid() && current == old(current) + [s]
      ensures Rows(current) == old(Rows(current)) + s.rows
      ensures Costs(current) == old(Costs(current)) + Copies(|s.rows|, s.bytesPerRow)
      ensures currentBytes == old(currentBytes) + |s.rows| * s.bytesPerRow
    {
      GroupSnoc(current, s);
      CostsSnoc(current, s);
      currentBytes := currentBytes + |s.rows| * s.bytesPerRow;
      currentRows := currentRows + |s.rows|;
      current := current + [s];
    }

    /** The buffered rows as one row group, if there are any; the buffer is empty afterwards. */
    method Flush() returns (group: Option<RowGroup<R>>)
      requires Valid()
      modifies this`current, this`currentRows, this`currentBytes
      ensures Valid() && current == []
      ensures group == if old(Rows(current)) == [] then None else Some(old(current))
    {
      if currentRows == 0 {
        current, currentBytes := [], 0;
        return None;
      }
      var g := FlushForce();
      return Some(g);
    }

    method FlushForce() returns (group: RowGroup<R>)
      requires Valid()
      modifies this`current, this`currentRows, this`currentBytes
      ensures Valid() && current == [] && group == old(current)
    {
      group := current;
      current, currentRows, currentBytes := [], 0, 0;
    }
  }
}
