// The learned affine index against the B-tree it replaces
// (`LearnedKeyModel` and `scalar_to_key` in crates/icefalldb-core/src/index.rs).
module LearnedKey {
  import opened Collections
  import opened IndexDeltas
  import opened MachineIntegers

  predicate InI64(n: int) { I64_MIN <= n <= I64_MAX }

  // ---- printing and parsing i64 ----

  predicate IsDigit(c: char) { '0' <= c <= '9' }

  function DigitChar(d: nat): (c: char)
    requires d < 10
    ensures IsDigit(c) && DigitValue(c) == d
  {
    '0' + d as char
  }

  function DigitValue(c: char): nat
    requires IsDigit(c)
  {
    c as int - '0' as int
  }

  predicate AllDigits(s: string) {
    forall i :: 0 <= i < |s| ==> IsDigit(s[i])
  }

  function Value(s: string): nat
    requires AllDigits(s)
  {
    if s == "" then 0 else Value(s[..|s| - 1]) * 10 + DigitValue(s[|s| - 1])
  }

  function Digits(n: nat): (s: string)
    ensures s != "" && AllDigits(s)
  {
    if n < 10 then [DigitChar(n)] else Digits(n / 10) + [DigitChar(n % 10)]
  }

  /** `i64::to_string`. */
  function Print(n: int): string {
    if n < 0 then "-" + Digits(-n) else Digits(n)
  }

  /** `str::parse::<i64>`: an optional sign, at least one digit, and a value in range. */
  function Parse(s: string): (r: Option<int>)
    ensures r.Some? ==> InI64(r.value)
  {
    if s == "" then None
    else
      var signed := s[0] == '-' || s[0] == '+';
      var body := if signed then s[1..] else s;
      if body == "" || !AllDigits(body) then None
      else
        var n: int := if s[0] == '-' then -(Value(body) as int) else Value(body);
        if InI64(n) then Some(n) else None
  }

  lemma {:induction false} ValueOfDigits(n: nat)
    ensures Value(Digits(n)) == n
  {
    if n < 10 {
      assert Digits(n)[..0] == "";
    } else {
      ValueOfDigits(n / 10);
      assert Digits(n)[..|Digits(n)| - 1] == Digits(n / 10);
    }
  }

  lemma {:induction false} ParsePrint(n: int)
    requires I64_MIN <= n <= I64_MAX
    ensures Parse(Print(n)) == Some(n)
  {
    if n < 0 {
      ValueOfDigits(-n);
      ParseNegative(Digits(-n));
    } else {
      ValueOfDigits(n);
      ParsePlain(Digits(n));
    }
  }

  lemma {:induction false} ParseNegative(s: string)
    requires s != "" && AllDigits(s) && InI64(0 - Value(s))
    ensures Parse("-" + s) == Some(0 - Value(s))
  {
    assert ("-" + s)[1..] == s;
  }

  lemma {:induction false} ParsePlain(s: string)
    requires s != "" && AllDigits(s) && InI64(Value(s))
    ensures Parse(s) == Some(Value(s))
  {
    assert IsDigit(s[0]);
  }

  ghost predicate Canonical(s: string) {
    Parse(s).Some? && s == Print(Parse(s).value)
  }

  // ---- i64 arithmetic ----

  function Checked(n: int): Option<int> {
    if InI64(n) then Some(n) else None
  }

  /** Division as Rust rounds it, toward zero. */
  function Div(a: int, b: int): int
    requires b != 0
  {
    var q := Abs(a) / Abs(b);
    if (a < 0) == (b < 0) then q else -q
  }

  function Rem(a: int, b: int): int
    requires b != 0
  {
    a - b * Div(a, b)
  }

  function Abs(a: int): nat { if a < 0 then -a else a }

  lemma {:induction false} DivExact(j: int, s: int)
    requires s > 0
    ensures Div(j * s, s) == j && Rem(j * s, s) == 0
  {
    DivNat(Abs(j), s);
    if j < 0 {
      assert Abs(j * s) == Abs(j) * s;
    }
  }

  lemma {:induction false} DivNat(j: nat, s: int)
    requires s > 0
    ensures j * s >= 0 && j * s / s == j
  {
    var q := j * s / s;
    assert q * s <= j * s < (q + 1) * s;
    MulOrder(j, q, s);
    MulOrder(j, q + 1, s);
  }

  lemma {:induction false} MulOrder(a: int, b: int, s: int)
    requires s > 0
    ensures a < b <==> a * s < b * s
  {
    if a < b {
      assert (b - a) * s > 0;
    } else {
      assert (a - b) * s >= 0;
    }
  }

  // ---- the model ----

  datatype Model = Model(keyBase: int, keyStride: int, ridBase: nat, ridStride: int, count: nat)

  /** `LearnedKeyModel::lookup`. */
  function LearnedLookup(m: Model, value: string): seq<RowId> {
    LookupNumber(m, Parse(value))
  }

  function LookupNumber(m: Model, k: Option<int>): seq<RowId> {
    if k.None? then []
    else
      var off := k.value - m.keyBase;
      if !InI64(off) || m.keyStride == 0 || Rem(off, m.keyStride) != 0 then []
      else RowAt(m, Div(off, m.keyStride))
  }

  function RowAt(m: Model, i: int): seq<RowId> {
    if i < 0 || i >= m.count || !InI64(i * m.ridStride) then []
    else
      var rid := m.ridBase + i * m.ridStride;
      if InI64(rid) && rid >= 0 then [rid] else []
  }

  type Pair = (int, RowId)

  /** The pairs a model stands for, all of them and all intermediate products within i64. */
  ghost predicate OnGrid(m: Model, pairs: seq<Pair>) {
    && |pairs| == m.count >= 2 && m.keyStride > 0
    && forall i :: 0 <= i < |pairs| ==> PairAt(m, i, pairs[i])
  }

  ghost predicate PairAt(m: Model, i: nat, p: Pair) {
    && InI64(i * m.keyStride) && p.0 == m.keyBase + i * m.keyStride
    && InI64(i * m.ridStride) && p.1 == m.ridBase + i * m.ridStride && InI64(p.1)
  }

  /** The number each key of the index parses to. */
  function Numbers(e: Entries): map<Key, Option<int>> {
    map k | k in e :: Parse(k)
  }

  /** The pairs are the keys' numbers with their single row ids. */
  ghost predicate PairsOf(e: Entries, nums: map<Key, Option<int>>, pairs: seq<Pair>) {
    && nums.Keys == e.Keys
    && (forall k :: k in e ==> |e[k]| == 1 && nums[k].Some? && (nums[k].value, e[k][0]) in pairs)
    && (forall i :: 0 <= i < |pairs| ==> Named(nums, pairs[i].0))
    && |pairs| == |e|
  }

  ghost predicate Named(nums: map<Key, Option<int>>, n: int) {
    exists k :: k in nums && nums[k] == Some(n)
  }

  ghost predicate FittedTo(m: Model, e: Entries, nums: map<Key, Option<int>>) {
    exists pairs: seq<Pair> :: PairsOf(e, nums, pairs) && OnGrid(m, pairs)
  }

  ghost predicate Fitted(m: Model, e: Entries) {
    FittedTo(m, e, Numbers(e))
  }

  // ---- fitting ----

  function InsertPair(ps: seq<Pair>, p: Pair): (r: seq<Pair>)
    ensures |r| == |ps| + 1
    ensures forall q :: q in r <==> q in ps || q == p
  {
    if ps == [] || p.0 <= ps[0].0 then [p] + ps
    else
      assert ps == [ps[0]] + ps[1..];
      [ps[0]] + InsertPair(ps[1..], p)
  }

  function SortPairs(ps: seq<Pair>): (r: seq<Pair>)
    ensures |r| == |ps|
    ensures forall q :: q in r <==> q in ps
  {
    if ps == [] then []
    else
      assert ps == [ps[0]] + ps[1..];
      InsertPair(SortPairs(ps[1..]), ps[0])
  }

  ghost predicate Ascends(ps: seq<Pair>) {
    |ps| < 2 || (ps[0].0 <= ps[1].0 && Ascends(ps[1..]))
  }

  lemma {:induction false} InsertAscends(ps: seq<Pair>, p: Pair)
    requires Ascends(ps)
    ensures Ascends(InsertPair(ps, p))
    ensures InsertPair(ps, p)[0] == p || (ps != [] && InsertPair(ps, p)[0] == ps[0])
  {
    var r := InsertPair(ps, p);
    if ps == [] || p.0 <= ps[0].0 {
      assert r[1..] == ps;
    } else {
      InsertAscends(ps[1..], p);
      assert r[1..] == InsertPair(ps[1..], p);
    }
  }

  lemma {:induction false} SortAscends(ps: seq<Pair>)
    ensures Ascends(SortPairs(ps))
  {
    if ps != [] {
      SortAscends(ps[1..]);
      InsertAscends(SortPairs(ps[1..]), ps[0]);
    }
  }

  /** Collect the pairs, or fail on a repeated or non-integer key. */
  method CollectPairs(e: Entries, nums: map<Key, Option<int>>) returns (pairs: Option<seq<Pair>>)
    requires nums.Keys == e.Keys
    ensures pairs.Some? ==> PairsOf(e, nums, pairs.value)
    ensures pairs.None? ==> exists k :: k in e && (|e[k]| != 1 || nums[k].None?)
  {
    var ps: seq<Pair> := [];
    var todo := e.Keys;
    while todo != {}
      invariant todo <= e.Keys
      invariant forall k :: k in e && k !in todo ==> |e[k]| == 1 && nums[k].Some? && (nums[k].value, e[k][0]) in ps
      invariant forall i :: 0 <= i < |ps| ==> Named(nums, ps[i].0)
      invariant |ps| + |todo| == |e|
      decreases todo
    {
      var k :| k in todo;
      if |e[k]| != 1 || nums[k].None? {
        return None;
      }
      var p := (nums[k].value, e[k][0]);
      assert p in ps + [p];
      ps := ps + [p];
      todo := todo - {k};
    }
    return Some(ps);
  }

  lemma {:induction false} SortedPairsOf(e: Entries, nums: map<Key, Option<int>>, ps: seq<Pair>)
    requires PairsOf(e, nums, ps)
    ensures PairsOf(e, nums, SortPairs(ps))
  {
    var r := SortPairs(ps);
    forall i | 0 <= i < |r|
      ensures Named(nums, r[i].0)
    {
      assert r[i] in r;
      var j :| 0 <= j < |ps| && ps[j] == r[i];
    }
  }

  /** `LearnedKeyModel::fit`: any overflow on the way counts as "not affine". */
  method Fit(e: Entries) returns (m: Option<Model>)
    ensures m.Some? ==> Fitted(m.value, e)
    ensures m.None? ==> forall m': Model :: !Fitted(m', e)
  {
    m := FitNumbers(e, Numbers(e));
  }

  method FitNumbers(e: Entries, nums: map<Key, Option<int>>) returns (m: Option<Model>)
    requires nums.Keys == e.Keys && forall k :: k in nums && nums[k].Some? ==> InI64(nums[k].value)
    ensures m.Some? ==> FittedTo(m.value, e, nums)
    ensures m.None? ==> forall m': Model :: !FittedTo(m', e, nums)
  {
    var collected := CollectPairs(e, nums);
    if collected.None? || |collected.value| < 2 {
      NothingToFit(e, nums, collected);
      return None;
    }
    var pairs := SortPairs(collected.value);
    SortedPairsOf(e, nums, collected.value);
    SortAscends(collected.value);
    m := FitPairs(pairs);
    forall m': Model | FittedTo(m', e, nums)
      ensures OnGrid(m', pairs)
    {
      FitsSortedPairs(m', e, nums, pairs);
    }
  }

  /** An index with a repeated or non-integer key, or with fewer than two keys, has no model. */
  lemma {:induction false} NothingToFit(e: Entries, nums: map<Key, Option<int>>, collected: Option<seq<Pair>>)
    requires nums.Keys == e.Keys
    requires collected.None? ==> exists k :: k in e && (|e[k]| != 1 || nums[k].None?)
    requires collected.Some? ==> PairsOf(e, nums, collected.value) && |collected.value| < 2
    ensures forall m': Model :: !FittedTo(m', e, nums)
  {
  }

  // ---- the pairs of an index with a model are determined by it ----

  ghost predicate StrictlyAscends(ps: seq<Pair>) {
    forall i, j :: 0 <= i < j < |ps| ==> ps[i].0 < ps[j].0
  }

  lemma {:induction false} GridAscends(m: Model, pairs: seq<Pair>)
    requires OnGrid(m, pairs)
    ensures StrictlyAscends(pairs)
  {
    forall i, j | 0 <= i < j < |pairs|
      ensures pairs[i].0 < pairs[j].0
    {
      assert PairAt(m, i, pairs[i]) && PairAt(m, j, pairs[j]);
      MulOrder(i, j, m.keyStride);
    }
  }

  lemma {:induction false} AscendsAll(ps: seq<Pair>, j: nat)
    requires Ascends(ps) && j < |ps|
    ensures ps[0].0 <= ps[j].0
  {
    if j > 0 {
      assert ps[1..][j - 1] == ps[j];
      AscendsAll(ps[1..], j - 1);
    }
  }

  /** Distinct pairs among the elements of a list are no more than the list is long. */
  lemma {:induction false} NoMoreThan(p: seq<Pair>, q: seq<Pair>)
    requires StrictlyAscends(p) && forall x :: x in p ==> x in q
    ensures |p| <= |q|
  {
    if p != [] {
      assert p[0] in q;
      var k :| 0 <= k < |q| && q[k] == p[0];
      var rest := q[..k] + q[k + 1..];
      forall x | x in p[1..]
        ensures x in rest
      {
        assert x in p && x in q;
        var i :| 0 <= i < |q| && q[i] == x;
        assert i != k;
        assert x == if i < k then rest[i] else rest[i - 1];
      }
      NoMoreThan(p[1..], rest);
    }
  }

  /** An ascending list of the elements of a strictly ascending one, no longer than it, is that list. */
  lemma {:induction false} SameAscending(p: seq<Pair>, q: seq<Pair>)
    requires StrictlyAscends(p) && Ascends(q) && |q| <= |p| && forall x :: x in p ==> x in q
    ensures p == q
    decreases |q|
  {
    NoMoreThan(p, q);
    if q != [] {
      SameFirst(p, q);
      forall x | x in p[1..]
        ensures x in q[1..]
      {
        assert x in p && x in q && q == [q[0]] + q[1..];
      }
      SameAscending(p[1..], q[1..]);
      assert p == [p[0]] + p[1..] && q == [q[0]] + q[1..];
    }
  }

  lemma {:induction false} SameFirst(p: seq<Pair>, q: seq<Pair>)
    requires StrictlyAscends(p) && Ascends(q) && |q| == |p| > 0 && forall x :: x in p ==> x in q
    ensures p[0] == q[0]
  {
    assert p[0] in q;
    var k :| 0 <= k < |q| && q[k] == p[0];
    AscendsAll(q, k);
    if p[0] != q[0] {
      forall x | x in p
        ensures x in q[1..]
      {
        assert x in q && q == [q[0]] + q[1..];
      }
      NoMoreThan(p, q[1..]);
      assert false;
    }
  }

  /** A model of the index stands for the sorted pairs. */
  lemma {:induction false} FitsSortedPairs(m: Model, e: Entries, nums: map<Key, Option<int>>, sorted: seq<Pair>)
    requires FittedTo(m, e, nums) && PairsOf(e, nums, sorted) && Ascends(sorted)
    ensures OnGrid(m, sorted)
  {
    var pairs: seq<Pair> :| PairsOf(e, nums, pairs) && OnGrid(m, pairs);
    GridAscends(m, pairs);
    forall x | x in pairs
      ensures x in sorted
    {
      var i :| 0 <= i < |pairs| && pairs[i] == x;
      assert Named(nums, pairs[i].0);
      var k :| k in nums && nums[k] == Some(pairs[i].0);
      assert (nums[k].value, e[k][0]) in pairs;
      var j :| 0 <= j < |pairs| && pairs[j] == (nums[k].value, e[k][0]);
      assert i == j;
    }
    SameAscending(pairs, sorted);
  }

  /** The model that the first two pairs suggest. */
  function ModelOf(pairs: seq<Pair>): Model
    requires |pairs| >= 2
  {
    Model(pairs[0].0, pairs[1].0 - pairs[0].0, pairs[0].1, pairs[1].1 as int - pairs[0].1 as int, |pairs|)
  }

  lemma {:induction false} GridDeterminesModel(m: Model, pairs: seq<Pair>)
    requires OnGrid(m, pairs)
    ensures m == ModelOf(pairs) && InI64(m.keyStride) && InI64(m.ridStride)
  {
    assert PairAt(m, 0, pairs[0]) && PairAt(m, 1, pairs[1]);
  }

  /** The affine test on the sorted pairs: it finds the model exactly when there is one. */
  method FitPairs(pairs: seq<Pair>) returns (m: Option<Model>)
    requires |pairs| >= 2 && Ascends(pairs) && forall i :: 0 <= i < |pairs| ==> InI64(pairs[i].0)
    ensures m.Some? ==> OnGrid(m.value, pairs)
    ensures m.None? ==> forall m': Model :: !OnGrid(m', pairs)
  {
    forall m': Model | OnGrid(m', pairs)
      ensures m' == ModelOf(pairs)
    {
      GridDeterminesModel(m', pairs);
    }
    if exists i :: 0 <= i < |pairs| && pairs[i].1 > I64_MAX {
      return None;
    }
    var model := ModelOf(pairs);
    if !InI64(model.keyStride) || !InI64(model.ridStride) || model.keyStride == 0 {
      return None;
    }
    for i := 0 to |pairs|
      invariant forall j :: 0 <= j < i ==> PairAt(model, j, pairs[j])
    {
      var onGrid := TestPair(model, i, pairs[i]);
      if !onGrid {
        return None;
      }
    }
    return Some(model);
  }

  /** The checked arithmetic of the affine test: overflow is a mismatch. */
  method TestPair(m: Model, i: nat, p: Pair) returns (b: bool)
    requires InI64(p.0) && p.1 <= I64_MAX
    ensures b <==> PairAt(m, i, p)
  {
    var a := Checked(i * m.keyStride);
    if a.None? {
      return false;
    }
    var k := Checked(m.keyBase + a.value);
    if k.None? || p.0 != k.value {
      return false;
    }
    var s := Checked(i * m.ridStride);
    if s.None? {
      return false;
    }
    var r := Checked(m.ridBase + s.value);
    return r.Some? && p.1 == r.value;
  }

  // ---- the learned lookup means a lookup by value ----

  lemma {:induction false} LookupOnGrid(m: Model, p: Pair, i: nat)
    requires m.keyStride > 0 && i < m.count && PairAt(m, i, p)
    ensures LookupNumber(m, Some(p.0)) == [p.1]
  {
    DivExact(i, m.keyStride);
  }

  /** A number the model answers is a number of the grid. */
  lemma {:induction false} AnsweredIsOnGrid(m: Model, n: int)
    requires m.keyStride > 0 && LookupNumber(m, Some(n)) != []
    ensures exists i :: 0 <= i < m.count && n == GridKey(m, i)
  {
    var off := n - m.keyBase;
    var i := Div(off, m.keyStride);
    assert off == m.keyStride * i == i * m.keyStride;
    assert n == GridKey(m, i);
  }

  function GridKey(m: Model, i: int): int { m.keyBase + i * m.keyStride }

  lemma {:induction false} AnsweredIsPair(m: Model, pairs: seq<Pair>, n: int)
    requires OnGrid(m, pairs) && LookupNumber(m, Some(n)) != []
    ensures exists i :: 0 <= i < |pairs| && n == pairs[i].0
  {
    AnsweredIsOnGrid(m, n);
    var i :| 0 <= i < m.count && n == GridKey(m, i);
    assert PairAt(m, i, pairs[i]);
  }

  lemma {:induction false} NumberMeaning(m: Model, e: Entries, nums: map<Key, Option<int>>, n: Option<int>)
    requires FittedTo(m, e, nums)
    ensures nums.Keys == e.Keys
    ensures forall k :: k in e && nums[k] == n ==> LookupNumber(m, n) == e[k] && e[k] != []
    ensures (forall k :: k in e ==> nums[k] != n) ==> LookupNumber(m, n) == []
  {
    var pairs: seq<Pair> :| PairsOf(e, nums, pairs) && OnGrid(m, pairs);
    forall k | k in e && nums[k] == n
      ensures LookupNumber(m, n) == e[k]
    {
      var i :| 0 <= i < |pairs| && pairs[i] == (nums[k].value, e[k][0]);
      assert PairAt(m, i, pairs[i]);
      LookupOnGrid(m, pairs[i], i);
    }
    if n.Some? && forall k :: k in e ==> nums[k] != n {
      if LookupNumber(m, n) != [] {
        AnsweredIsPair(m, pairs, n.value);
        assert false;
      }
    }
  }

  /** `value` is not a key of the index but parses to the number of one. */
  ghost predicate Respells(value: string, e: Entries) {
    value !in e && exists k :: k in e && Parse(k) == Parse(value)
  }

  /** For every query string, model and B-tree agree exactly when it is not another spelling of a key. */
  lemma {:induction false} AgreesUnlessRespelled(m: Model, e: Entries, value: string)
    requires Fitted(m, e)
    ensures LearnedLookup(m, value) == Lookup(e, value) <==> !Respells(value, e)
  {
    NumberMeaning(m, e, Numbers(e), Parse(value));
    assert forall k :: k in e ==> Numbers(e)[k] == Parse(k);
  }

  /** On an Int64 column, whose keys are printed integers, every printed integer is looked up exactly
      as in the B-tree, present or absent, up to the ends of the i64 range. */
  lemma {:induction false} AgreesOnIntegers(m: Model, e: Entries, n: int)
    requires Fitted(m, e) && InI64(n) && forall k :: k in e ==> Canonical(k)
    ensures LearnedLookup(m, Print(n)) == Lookup(e, Print(n))
  {
    ParsePrint(n);
    AgreesUnlessRespelled(m, e, Print(n));
  }

  /** Any two keys that print as 1 and 2, with adjacent rows, have a model. */
  lemma {:induction false} TwoKeysFit(a: Key, b: Key, r: RowId)
    requires a != b && Parse(a) == Some(1) && Parse(b) == Some(2) && r < I64_MAX
    ensures Fitted(Model(1, 1, r, 1, 2), map[a := [r], b := [r + 1]])
  {
    TwoNumbersFit(a, b, r, Numbers(map[a := [r], b := [r + 1]]));
  }

  lemma {:induction false} TwoNumbersFit(a: Key, b: Key, r: RowId, nums: map<Key, Option<int>>)
    requires a != b && nums == map[a := Some(1), b := Some(2)] && r < I64_MAX
    ensures FittedTo(Model(1, 1, r, 1, 2), map[a := [r], b := [r + 1]], nums)
  {
    var m := Model(1, 1, r, 1, 2);
    var pairs: seq<Pair> := [(1, r), (2, r + 1)];
    assert PairAt(m, 0, pairs[0]) && PairAt(m, 1, pairs[1]);
    assert pairs[0] in pairs && pairs[1] in pairs;
    assert nums[a] == Some(1) && nums[b] == Some(2);
    assert PairsOf(map[a := [r], b := [r + 1]], nums, pairs);
  }

  /** A query such as "+1" parses, so the model answers it, but it is not a key of the B-tree. */
  lemma {:induction false} RespelledQueryDiffers(r: RowId)
    requires r < I64_MAX
    ensures var e: Entries := map[Print(1) := [r], Print(2) := [r + 1]];
            var m := Model(1, 1, r, 1, 2);
            Fitted(m, e) && LearnedLookup(m, "+1") == [r] && Lookup(e, "+1") == []
  {
    ParsePrint(1);
    ParsePrint(2);
    PlusOne();
    TwoKeysFit(Print(1), Print(2), r);
    LookupOnGrid(Model(1, 1, r, 1, 2), (1, r), 0);
  }

  lemma {:induction false} PlusOne()
    ensures Parse("+1") == Some(1)
    ensures Print(1)[0] == '1' && Print(2)[0] == '2'
  {
    ParsePrint(1);
    assert "+1"[1..] == "1" == Print(1);
  }
}
