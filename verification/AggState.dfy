// Fragment-level aggregate state: computed per column, retracted for a deletion vector
// (`compute_agg_state`, `deleted_contribution`, `retract` in crates/icefalldb-core/src/agg_cache.rs).
module AggState {
  import opened Collections
  import opened Permutations
  import opened Selection
  import opened AggPartials

  type Name = string

  /** The integer columns of a fragment. */
  type Columns = map<Name, Column>

  type ColAggs = map<Name, ColAgg>

  ghost predicate OfRows(data: Columns, rows: nat) {
    forall c :: c in data ==> |data[c]| == rows
  }

  /** A column is kept exactly when its sum of squares fits i128. */
  ghost predicate IsState(data: Columns, state: ColAggs) {
    && (forall c :: c in state <==> c in data && Fits(Tot(data[c])))
    && (forall c :: c in state ==> IsComputed(data[c], Some(state[c])))
  }

  method ComputeAggState(data: Columns, rows: nat) returns (state: ColAggs)
    requires OfRows(data, rows) && rows <= 0x1_0000_0000
    ensures IsState(data, state)
  {
    state := map[];
    var todo := data.Keys;
    while todo != {}
      invariant todo <= data.Keys
      invariant forall c :: c in state <==> c in data && c !in todo && Fits(Tot(data[c]))
      invariant forall c :: c in state ==> IsComputed(data[c], Some(state[c]))
      decreases todo
    {
      var c :| c in todo;
      var r := ComputeIntCol(data[c]);
      if r.Some? {
        state := state[c := r.value];
      }
      todo := todo - {c};
    }
  }

  /** The contribution of the deleted rows, per requested column. */
  ghost predicate IsContribution(data: Columns, offs: Offsets, names: set<Name>, del: ColAggs) {
    && (offs == [] ==> del == map[])
    && (offs != [] ==> forall c :: c in del <==> c in names && c in data)
    && (forall c :: c in del ==>
          c in data && InRange(offs, |data[c]|) && IsFolded(del[c], Tot(DeletedRows(data[c], offs))))
  }

  /** `deleted_contribution`; None stands for its overflow error. */
  method DeletedContribution(data: Columns, offs: Offsets, names: set<Name>) returns (r: Option<ColAggs>)
    requires forall c :: c in data ==> ValidOffsets(offs, |data[c]|)
    ensures r.Some? ==> IsContribution(data, offs, names, r.value)
    ensures r.None? ==> exists c ::
              c in names && c in data && InRange(offs, |data[c]|) && !Fits(Tot(DeletedRows(data[c], offs)))
  {
    if |offs| == 0 {
      return Some(map[]);
    }
    var del: ColAggs := map[];
    var todo := names;
    while todo != {}
      invariant todo <= names
      invariant forall c :: c in del <==> c in names && c !in todo && c in data
      invariant forall c :: c in del ==> IsFolded(del[c], Tot(DeletedRows(data[c], offs)))
      decreases todo
    {
      var c :| c in todo;
      if c in data {
        var deleted := ReadDeleted(data[c], offs);
        var agg := FoldRows(deleted);
        if agg.None? {
          return None;
        }
        del := del[c := agg.value];
      }
      todo := todo - {c};
    }
    return Some(del);
  }

  /** What `retract` leaves of a state. */
  function Retracted(full: ColAggs, del: ColAggs): ColAggs {
    map c | c in full && (c in del ==> RetractCol(full[c], del[c]).Some?) ::
      if c in del then RetractCol(full[c], del[c]).value else full[c]
  }

  method Retract(full: ColAggs, del: ColAggs) returns (live: ColAggs)
    ensures live == Retracted(full, del)
  {
    live := full;
    var dropped: set<Name> := {};
    var todo := del.Keys;
    while todo != {}
      invariant todo <= del.Keys && live.Keys == full.Keys && dropped <= full.Keys
      invariant forall c :: c in full ==>
          live[c] == (if c in del && c !in todo && RetractCol(full[c], del[c]).Some?
                      then RetractCol(full[c], del[c]).value else full[c])
      invariant forall c :: c in dropped <==> c in full && c in del && c !in todo && RetractCol(full[c], del[c]).None?
      decreases todo
    {
      var c :| c in todo;
      if c in live {
        var r := RetractCol(live[c], del[c]);
        if r.Some? {
          live := live[c := r.value];
        } else {
          dropped := dropped + {c};
        }
      }
      todo := todo - {c};
    }
    live := live - dropped;
  }

  lemma {:induction false} FoldedFits(c: Column, offs: Offsets)
    requires ValidOffsets(offs, |c|) && Fits(Tot(c))
    ensures InRange(offs, |c|)
    ensures Fits(Tot(DeletedRows(c, offs))) && Fits(Tot(LiveRows(c, offs)))
  {
    TotSplit(c, offs);
  }

  lemma {:induction false} LiveOfNone(hi: nat)
    ensures LiveBelow([], hi) == Iota(hi)
  {
    if hi > 0 {
      LiveOfNone(hi - 1);
      assert Iota(hi) == Iota(hi - 1) + [hi - 1];
    }
  }

  lemma {:induction false} LiveRowsOfNone<T>(xs: seq<T>)
    ensures LiveRows(xs, []) == xs
  {
    LiveOfNone(|xs|);
    TakeIota(xs);
  }

  /** Retraction of one column of a fragment. */
  lemma {:induction false} RetractedColumn(data: Columns, full: ColAggs, offs: Offsets, names: set<Name>,
                                           del: ColAggs, c: Name)
    requires IsState(data, full) && c in full && ValidOffsets(offs, |data[c]|)
    requires IsContribution(data, offs, names, del) && c in names
    ensures c in Retracted(full, del)
    ensures Represents(Retracted(full, del)[c], Tot(LiveRows(data[c], offs)))
    ensures Retracted(full, del)[c].minOff == full[c].minOff && Retracted(full, del)[c].maxOff == full[c].maxOff
  {
    if offs == [] {
      LiveRowsOfNone(data[c]);
    } else {
      var col := data[c];
      TotSplit(col, offs);
      TotBounds(LiveRows(col, offs));
      RetractColExact(full[c], del[c], Tot(col), Tot(DeletedRows(col, offs)), Tot(LiveRows(col, offs)));
    }
  }

  /** What the scan planner does for a fragment with deletions: for every kept column the retraction
      succeeds and gives the count, sum and sum of squares of exactly the live rows. */
  method LivePartials(data: Columns, rows: nat, offs: Offsets, full: ColAggs) returns (live: ColAggs)
    requires OfRows(data, rows) && ValidOffsets(offs, rows) && IsState(data, full)
    ensures live.Keys == full.Keys
    ensures forall c :: c in full ==> Represents(live[c], Tot(LiveRows(data[c], offs)))
    ensures forall c :: c in full ==> live[c].minOff == full[c].minOff && live[c].maxOff == full[c].maxOff
  {
    var del := DeletedContribution(data, offs, full.Keys);
    forall c | c in full
      ensures Fits(Tot(DeletedRows(data[c], offs)))
    {
      FoldedFits(data[c], offs);
    }
    live := Retract(full, del.value);
    forall c | c in full
      ensures c in live && Represents(live[c], Tot(LiveRows(data[c], offs)))
      ensures live[c].minOff == full[c].minOff && live[c].maxOff == full[c].maxOff
    {
      RetractedColumn(data, full, offs, full.Keys, del.value, c);
    }
  }
}
