// Sorting by key, as Rust's `sort_unstable_by_key` promises it: some permutation in key order.
module Permutations {

  function Iota(n: nat): (s: seq<nat>)
    ensures |s| == n && forall k :: 0 <= k < n ==> s[k] == k
  {
    seq(n, k => k)
  }

  ghost predicate InRange(idx: seq<nat>, n: nat) {
    forall k :: 0 <= k < |idx| ==> idx[k] < n
  }

  /** The elements of `s` at the positions `idx`, as Arrow's `take` kernel picks them. */
  function Take<T>(s: seq<T>, idx: seq<nat>): (r: seq<T>)
    requires forall k :: 0 <= k < |idx| ==> idx[k] < |s|
    ensures |r| == |idx| && forall k :: 0 <= k < |idx| ==> r[k] == s[idx[k]]
  {
    seq(|idx|, k requires 0 <= k < |idx| => s[idx[k]])
  }

  lemma {:induction false} TakeIota<T>(s: seq<T>)
    ensures Take(s, Iota(|s|)) == s
  {
  }

  lemma {:induction false} RemoveAt<T>(s: seq<T>, k: nat)
    requires k < |s|
    ensures s == s[..k] + ([s[k]] + s[k + 1..])
    ensures multiset(s[..k] + s[k + 1..]) == multiset(s) - multiset{s[k]}
  {
    assert s == s[..k] + ([s[k]] + s[k + 1..]);
    assert multiset(s) == multiset(s[..k]) + (multiset{s[k]} + multiset(s[k + 1..]));
  }

  function MapSeq<A, B>(f: A -> B, s: seq<A>): (r: seq<B>)
    ensures |r| == |s| && forall i :: 0 <= i < |s| ==> r[i] == f(s[i])
  {
    seq(|s|, i requires 0 <= i < |s| => f(s[i]))
  }

  lemma {:induction false} MapRemove<A, B>(f: A -> B, s: seq<A>, k: nat)
    requires k < |s|
    ensures multiset(MapSeq(f, s)) == multiset(MapSeq(f, s[..k] + s[k + 1..])) + multiset{f(s[k])}
  {
    var t := MapSeq(f, s);
    assert MapSeq(f, s[..k] + s[k + 1..]) == t[..k] + t[k + 1..];
    RemoveAt(t, k);
  }

  /** Mapping two orderings of the same elements gives the same elements. */
  lemma {:induction false} MapPermutation<A, B>(f: A -> B, a: seq<A>, b: seq<A>)
    requires multiset(a) == multiset(b)
    ensures multiset(MapSeq(f, a)) == multiset(MapSeq(f, b))
    decreases |a|
  {
    if a == [] {
      assert |multiset(b)| == 0;
    } else {
      assert a[0] in multiset(b);
      var k :| 0 <= k < |b| && b[k] == a[0];
      var a', b' := a[..0] + a[1..], b[..k] + b[k + 1..];
      assert multiset(a') == multiset(b') by {
        RemoveAt(a, 0);
        RemoveAt(b, k);
      }
      MapPermutation(f, a', b');
      MapRemove(f, a, 0);
      MapRemove(f, b, k);
    }
  }

  lemma {:induction false} TakeRemove<T>(s: seq<T>, q: seq<nat>, k: nat)
    requires InRange(q, |s|) && k < |q|
    ensures InRange(q[..k] + q[k + 1..], |s|)
    ensures multiset(Take(s, q)) == multiset{s[q[k]]} + multiset(Take(s, q[..k] + q[k + 1..]))
  {
    var t := Take(s, q);
    assert Take(s, q[..k] + q[k + 1..]) == t[..k] + t[k + 1..];
    RemoveAt(t, k);
  }

  /** Picking by two orderings of the same positions gives the same elements. */
  lemma {:induction false} TakePermutation<T>(s: seq<T>, p: seq<nat>, q: seq<nat>)
    requires multiset(p) == multiset(q) && InRange(p, |s|) && InRange(q, |s|)
    ensures multiset(Take(s, p)) == multiset(Take(s, q))
    decreases |p|
  {
    if p == [] {
      assert |multiset(q)| == 0;
    } else {
      var x := p[0];
      assert x in multiset(q);
      var k :| 0 <= k < |q| && q[k] == x;
      var p', q' := p[..0] + p[1..], q[..k] + q[k + 1..];
      RemoveAt(p, 0);
      RemoveAt(q, k);
      TakeRemove(s, p, 0);
      TakeRemove(s, q, k);
      TakePermutation(s, p', q');
    }
  }

  ghost predicate Ascending(keys: seq<nat>) {
    forall i, j :: 0 <= i < j < |keys| ==> keys[i] <= keys[j]
  }

  ghost predicate Distinct<T>(s: seq<T>) {
    forall i, j :: 0 <= i < j < |s| ==> s[i] != s[j]
  }

  lemma {:induction false} OnceInMultiset<T>(s: seq<T>, x: T)
    requires Distinct(s)
    ensures multiset(s)[x] <= 1
  {
    if s != [] {
      assert s == [s[0]] + s[1..];
      OnceInMultiset(s[1..], x);
      if x == s[0] {
        assert x !in s[1..];
        assert x !in multiset(s[1..]);
      }
    }
  }

  lemma {:induction false} TwiceInMultiset<T>(s: seq<T>, i: nat, j: nat)
    requires i < j < |s| && s[i] == s[j]
    ensures multiset(s)[s[i]] >= 2
  {
    assert s == s[..j] + s[j..];
    assert s[i] == s[..j][i] && s[j] == s[j..][0];
    assert s[i] in s[..j] && s[i] in s[j..];
    assert s[i] in multiset(s[..j]) && s[i] in multiset(s[j..]);
  }

  lemma {:induction false} DistinctPermuted<T>(a: seq<T>, b: seq<T>)
    requires Distinct(a) && multiset(a) == multiset(b)
    ensures Distinct(b)
  {
    forall i, j | 0 <= i < j < |b|
      ensures b[i] != b[j]
    {
      OnceInMultiset(a, b[i]);
      if b[i] == b[j] {
        TwiceInMultiset(b, i, j);
        assert false;
      }
    }
  }

  /** Insert position `i` into `perm`, which lists positions in key order, after equal keys. */
  function Insert(keys: seq<nat>, perm: seq<nat>, i: nat): seq<nat>
    requires i < |keys| && forall k :: 0 <= k < |perm| ==> perm[k] < |keys|
  {
    if perm == [] || keys[i] < keys[perm[0]] then [i] + perm
    else [perm[0]] + Insert(keys, perm[1..], i)
  }

  /** The keys at `perm` ascend, starting from `bound`. */
  ghost predicate AscendFrom(keys: seq<nat>, perm: seq<nat>, bound: nat) {
    perm == [] || (perm[0] < |keys| && bound <= keys[perm[0]] && AscendFrom(keys, perm[1..], keys[perm[0]]))
  }

  lemma {:induction false} AscendFromAscending(keys: seq<nat>, perm: seq<nat>, bound: nat)
    requires AscendFrom(keys, perm, bound)
    ensures InRange(perm, |keys|) && Ascending(Take(keys, perm))
    ensures forall k :: 0 <= k < |perm| ==> bound <= keys[perm[k]]
  {
    if perm != [] {
      AscendFromAscending(keys, perm[1..], keys[perm[0]]);
      forall k | 0 < k < |perm|
        ensures perm[k] == perm[1..][k - 1]
      {
      }
      var t, t' := Take(keys, perm), Take(keys, perm[1..]);
      forall i, j | 0 <= i < j < |t|
        ensures t[i] <= t[j]
      {
        assert t[j] == t'[j - 1];
        if i > 0 { assert t[i] == t'[i - 1]; }
      }
    }
  }

  lemma {:induction false} InsertKeepsOrder(keys: seq<nat>, perm: seq<nat>, i: nat, bound: nat)
    requires i < |keys| && InRange(perm, |keys|) && AscendFrom(keys, perm, bound) && bound <= keys[i]
    ensures AscendFrom(keys, Insert(keys, perm, i), bound)
  {
    var r := Insert(keys, perm, i);
    if perm == [] || keys[i] < keys[perm[0]] {
      assert r[1..] == perm;
    } else {
      InsertKeepsOrder(keys, perm[1..], i, keys[perm[0]]);
      assert r[1..] == Insert(keys, perm[1..], i);
    }
  }

  lemma {:induction false} InsertAdds(keys: seq<nat>, perm: seq<nat>, i: nat)
    requires i < |keys| && InRange(perm, |keys|)
    ensures multiset(Insert(keys, perm, i)) == multiset(perm) + multiset{i}
  {
    if !(perm == [] || keys[i] < keys[perm[0]]) {
      InsertAdds(keys, perm[1..], i);
      assert perm == [perm[0]] + perm[1..];
    }
  }

  method SortPermutation(keys: seq<nat>) returns (perm: seq<nat>)
    ensures multiset(perm) == multiset(Iota(|keys|))
    ensures InRange(perm, |keys|)
    ensures Ascending(Take(keys, perm))
  {
    perm := [];
    for i := 0 to |keys|
      invariant multiset(perm) == multiset(Iota(i))
      invariant AscendFrom(keys, perm, 0)
    {
      assert Iota(i + 1) == Iota(i) + [i];
      AscendFromAscending(keys, perm, 0);
      InsertKeepsOrder(keys, perm, i, 0);
      InsertAdds(keys, perm, i);
      perm := Insert(keys, perm, i);
    }
    AscendFromAscending(keys, perm, 0);
  }

  lemma {:induction false} AscendingDistinct(keys: seq<nat>)
    requires Ascending(keys) && Distinct(keys)
    ensures forall i, j :: 0 <= i < j < |keys| ==> keys[i] < keys[j]
  {
  }

  ghost predicate Increasing(keys: seq<nat>) {
    forall i, j :: 0 <= i < j < |keys| ==> keys[i] < keys[j]
  }

  /** Insert into an increasing list without repeating an element. */
  function InsertNew(keys: seq<nat>, key: nat): (r: seq<nat>)
    ensures forall k :: k in r <==> k in keys || k == key
  {
    if keys == [] || key < keys[0] then [key] + keys
    else if key == keys[0] then keys
    else
      assert keys == [keys[0]] + keys[1..];
      [keys[0]] + InsertNew(keys[1..], key)
  }

  lemma {:induction false} InsertNewSorted(keys: seq<nat>, key: nat)
    requires Increasing(keys)
    ensures Increasing(InsertNew(keys, key))
  {
    if keys != [] && keys[0] < key {
      InsertNewSorted(keys[1..], key);
      var t := InsertNew(keys[1..], key);
      forall i | 0 <= i < |t|
        ensures keys[0] < t[i]
      {
        assert t[i] in t;
      }
    }
  }
}
