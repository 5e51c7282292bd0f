// The in-memory cache of aggregate states (`AggStateCache` in crates/icefalldb-core/src/agg_cache.rs).
// The events are the critical sections of its lock: `get` looks up under the read lock and promotes
// under the write lock, so other calls may come in between.
module LruCache {
  import opened Collections
  import opened Permutations

  type Path = string

  datatype Event<V> = Put(path: Path, value: V) | Promote(path: Path) | Clear

  // ---- the meaning ----

  function Remove(s: seq<Path>, k: Path): seq<Path> {
    if s == [] then [] else if s[0] == k then Remove(s[1..], k) else [s[0]] + Remove(s[1..], k)
  }

  /** The distinct paths of a log, ordered by their last touch. */
  function Recent(log: seq<Path>): seq<Path> {
    if log == [] then []
    else Remove(Recent(log[..|log| - 1]), log[|log| - 1]) + [log[|log| - 1]]
  }

  function Suffix(s: seq<Path>, n: nat): seq<Path> {
    if |s| <= n then s else s[|s| - n..]
  }

  /** The `capacity` most recently touched paths. */
  function Newest(log: seq<Path>, capacity: nat): seq<Path> { Suffix(Recent(log), capacity) }

  /** The paths put, or promoted while cached, since the last clear. */
  function Touched<V>(capacity: nat, events: seq<Event<V>>): seq<Path> {
    if events == [] then []
    else
      var before := Touched(capacity, events[..|events| - 1]);
      match events[|events| - 1]
      case Put(k, _) => before + [k]
      case Promote(k) => if k in Newest(before, capacity) then before + [k] else before
      case Clear => []
  }

  /** The value last put for a path since the last clear. */
  function LastPut<V>(events: seq<Event<V>>, k: Path): Option<V> {
    if events == [] then None
    else
      match events[|events| - 1]
      case Put(j, v) => if j == k then Some(v) else LastPut(events[..|events| - 1], k)
      case Promote(_) => LastPut(events[..|events| - 1], k)
      case Clear => None
  }

  // ---- lemmas about the meaning ----

  lemma {:induction false} RemoveMembers(s: seq<Path>, k: Path)
    ensures forall x :: x in Remove(s, k) <==> x in s && x != k
  {
    if s != [] {
      RemoveMembers(s[1..], k);
      assert s == [s[0]] + s[1..];
    }
  }

  lemma {:induction false} RemoveAbsent(s: seq<Path>, k: Path)
    requires k !in s
    ensures Remove(s, k) == s
  {
    if s != [] {
      assert s == [s[0]] + s[1..];
      RemoveAbsent(s[1..], k);
    }
  }

  lemma {:induction false} RemoveConcat(a: seq<Path>, b: seq<Path>, k: Path)
    ensures Remove(a + b, k) == Remove(a, k) + Remove(b, k)
  {
    if a == [] {
      assert a + b == b;
    } else {
      assert (a + b)[1..] == a[1..] + b;
      RemoveConcat(a[1..], b, k);
    }
  }

  lemma {:induction false} ConsDistinct(x: Path, s: seq<Path>)
    requires Distinct(s) && x !in s
    ensures Distinct([x] + s)
  {
  }

  lemma {:induction false} RemoveDistinct(s: seq<Path>, k: Path)
    requires Distinct(s)
    ensures Distinct(Remove(s, k))
    ensures |Remove(s, k)| == if k in s then |s| - 1 else |s|
  {
    if s != [] {
      RemoveDistinct(s[1..], k);
      RemoveMembers(s[1..], k);
      assert s == [s[0]] + s[1..];
      if s[0] == k {
        RemoveAbsent(s[1..], k);
      } else {
        ConsDistinct(s[0], Remove(s[1..], k));
      }
    }
  }

  lemma {:induction false} RecentDistinct(log: seq<Path>)
    ensures Distinct(Recent(log))
    ensures forall k :: k in Recent(log) <==> k in log
  {
    if log != [] {
      var rest, last := log[..|log| - 1], log[|log| - 1];
      RecentDistinct(rest);
      RemoveDistinct(Recent(rest), last);
      RemoveMembers(Recent(rest), last);
      assert log == rest + [last];
    }
  }

  /** What a touch does to the list of cached paths. */
  function Admit(s: seq<Path>, capacity: nat, k: Path): seq<Path> {
    if capacity == 0 then []
    else if k in s then Remove(s, k) + [k]
    else if |s| < capacity then s + [k]
    else if s == [] then [k]
    else s[1..] + [k]
  }

  lemma {:induction false} TouchNewest(log: seq<Path>, capacity: nat, k: Path)
    ensures Newest(log + [k], capacity) == Admit(Newest(log, capacity), capacity, k)
  {
    RecentSnoc(log, k);
    RecentDistinct(log);
    TouchSuffix(Recent(log), capacity, k);
  }

  lemma {:induction false} RecentSnoc(log: seq<Path>, k: Path)
    ensures Recent(log + [k]) == Remove(Recent(log), k) + [k]
  {
    assert (log + [k])[..|log|] == log;
  }

  lemma {:induction false} TouchSuffix(r: seq<Path>, capacity: nat, k: Path)
    requires Distinct(r)
    ensures Suffix(Remove(r, k) + [k], capacity) == Admit(Suffix(r, capacity), capacity, k)
  {
    if k in Suffix(r, capacity) {
      TouchHit(r, capacity, k);
    } else {
      TouchMiss(r, capacity, k);
      AdmitMiss(Suffix(r, capacity), capacity, k);
    }
  }

  lemma {:induction false} AdmitMiss(s: seq<Path>, capacity: nat, k: Path)
    requires k !in s && |s| <= capacity
    ensures Admit(s, capacity, k) == Suffix(s + [k], capacity)
  {
    if 0 < |s| == capacity {
      assert (s + [k])[1..] == s[1..] + [k];
    }
  }

  lemma {:induction false} TouchHit(r: seq<Path>, capacity: nat, k: Path)
    requires Distinct(r) && k in Suffix(r, capacity)
    ensures Suffix(Remove(r, k) + [k], capacity) == Remove(Suffix(r, capacity), k) + [k]
  {
    var s := Suffix(r, capacity);
    var a := r[..|r| - |s|];
    assert r == a + s;
    assert Remove(r, k) + [k] == a + (Remove(s, k) + [k]) && |Remove(s, k)| == |s| - 1 by {
      MoveToBack(a, s, k);
    }
    SuffixOf(a, Remove(s, k) + [k], capacity);
  }

  lemma {:induction false} MoveToBack(a: seq<Path>, s: seq<Path>, k: Path)
    requires Distinct(a + s) && k in s
    ensures Remove(a + s, k) + [k] == a + (Remove(s, k) + [k])
    ensures |Remove(s, k)| == |s| - 1
  {
    NotBefore(a, s, k);
    RemoveConcat(a, s, k);
    RemoveAbsent(a, k);
    RemoveDistinct(s, k);
    Assoc(a, Remove(s, k), [k]);
  }

  lemma {:induction false} NotBefore(a: seq<Path>, s: seq<Path>, k: Path)
    requires Distinct(a + s) && k in s
    ensures k !in a && Distinct(s)
  {
    var r, j :| r == a + s && 0 <= j < |s| && s[j] == k;
    assert r[|a| + j] == k;
    forall i | 0 <= i < |a|
      ensures a[i] != k
    {
      assert r[i] == a[i];
    }
    forall x, y | 0 <= x < y < |s|
      ensures s[x] != s[y]
    {
      assert r[|a| + x] == s[x] && r[|a| + y] == s[y];
    }
  }

  lemma {:induction false} TouchMiss(r: seq<Path>, capacity: nat, k: Path)
    requires k !in Suffix(r, capacity)
    ensures Suffix(Remove(r, k) + [k], capacity) == Suffix(Suffix(r, capacity) + [k], capacity)
  {
    var s := Suffix(r, capacity);
    var a := r[..|r| - |s|];
    assert r == a + s;
    RemoveConcat(a, s, k);
    RemoveAbsent(s, k);
    SuffixOf(Remove(a, k), s + [k], capacity);
    Assoc(Remove(a, k), s, [k]);
  }

  lemma {:induction false} SuffixOf(a: seq<Path>, b: seq<Path>, n: nat)
    requires |b| >= n || a == []
    ensures Suffix(a + b, n) == Suffix(b, n)
  {
    if |b| >= n {
      assert (a + b)[|a| + |b| - n..] == b[|b| - n..];
    } else {
      assert a + b == b;
    }
  }

  // ---- the eviction rule, without any list order ----

  /** The paths touched after the last touch of `k`. */
  function LaterPaths(log: seq<Path>, k: Path): set<Path> {
    if log == [] || log[|log| - 1] == k then {}
    else LaterPaths(log[..|log| - 1], k) + {log[|log| - 1]}
  }

  function ToSet(s: seq<Path>): set<Path> { set x | x in s }

  lemma {:induction false} DistinctCount(s: seq<Path>)
    requires Distinct(s)
    ensures |ToSet(s)| == |s|
  {
    if s != [] {
      DistinctCount(s[1..]);
      assert s == [s[0]] + s[1..];
      assert ToSet(s) == {s[0]} + ToSet(s[1..]);
    }
  }

  /** In the order by last touch, exactly the later paths stand behind `k`. */
  lemma {:induction false} BehindIsLater(log: seq<Path>, k: Path) returns (a: seq<Path>, b: seq<Path>)
    requires k in log
    ensures Recent(log) == a + [k] + b && ToSet(b) == LaterPaths(log, k)
  {
    var rest, last := log[..|log| - 1], log[|log| - 1];
    assert log == rest + [last];
    if last == k {
      a, b := Remove(Recent(rest), k), [];
      assert Recent(log) == a + [k] + b;
    } else {
      var a', b' := BehindIsLater(rest, k);
      RemoveConcat(a' + [k], b', last);
      RemoveConcat(a', [k], last);
      RemoveAbsent([k], last);
      RemoveMembers(b', last);
      a, b := Remove(a', last), Remove(b', last) + [last];
      assert Recent(log) == a + [k] + b;
    }
  }

  /** A path is among the newest exactly when it was touched and fewer than `capacity` distinct
      other paths were touched after it. */
  lemma {:induction false} NewestIffFewLater(log: seq<Path>, capacity: nat, k: Path)
    ensures k in Newest(log, capacity) <==> k in log && |LaterPaths(log, k)| < capacity
  {
    RecentDistinct(log);
    if k in log {
      var a, b := BehindIsLater(log, k);
      var r := Recent(log);
      var at := |a|;
      assert r[at] == k;
      assert Distinct(b) by {
        assert forall i :: 0 <= i < |b| ==> b[i] == r[at + 1 + i];
      }
      DistinctCount(b);
      SuffixMember(r, at, capacity);
    }
  }

  lemma {:induction false} SuffixMember(r: seq<Path>, at: nat, n: nat)
    requires Distinct(r) && at < |r|
    ensures r[at] in Suffix(r, n) <==> |r| - 1 - at < n
  {
    var s := Suffix(r, n);
    var skipped := |r| - |s|;
    assert forall i :: 0 <= i < |s| ==> s[i] == r[skipped + i];
    if at >= skipped {
      assert s[at - skipped] == r[at];
    }
  }

  /** The cache is full as soon as enough distinct paths were touched. */
  lemma {:induction false} NewestCount(log: seq<Path>, capacity: nat)
    ensures |Newest(log, capacity)| == if |ToSet(log)| <= capacity then |ToSet(log)| else capacity
    ensures Distinct(Newest(log, capacity))
  {
    RecentDistinct(log);
    DistinctCount(Recent(log));
    assert ToSet(Recent(log)) == ToSet(log);
  }

  // ---- the cache ----

  /** What the cache holds after a run: the newest paths, each with its last value. */
  ghost predicate IsCache<V>(capacity: nat, history: seq<Event<V>>, order: seq<Path>, entries: map<Path, V>) {
    && order == Newest(Touched(capacity, history), capacity)
    && entries.Keys == ToSet(order)
    && forall k :: k in entries ==> LastPut(history, k) == Some(entries[k])
  }

  /** What every run of the cache guarantees: it holds exactly the paths that were put, or hit, since
      the last clear and after which fewer than `capacity` other paths were; each with its last value. */
  lemma {:induction false} CacheHolds<V>(capacity: nat, history: seq<Event<V>>, order: seq<Path>,
                                         entries: map<Path, V>, path: Path)
    requires IsCache(capacity, history, order, entries)
    ensures path in entries <==>
            path in Touched(capacity, history) && |LaterPaths(Touched(capacity, history), path)| < capacity
    ensures path in entries ==> LastPut(history, path) == Some(entries[path])
    ensures |entries| == |order| <= capacity && Distinct(order)
  {
    var log := Touched(capacity, history);
    NewestIffFewLater(log, capacity, path);
    NewestCount(log, capacity);
    DistinctCount(order);
    assert |entries| == |entries.Keys|;
  }

  class AggStateCache<V> {
    const capacity: nat
    var entries: map<Path, V>
    /** Front is least recently used. */
    var order: seq<Path>
    var hits: nat
    var misses: nat
    /** Every critical section so far. */
    ghost var history: seq<Event<V>>

    ghost predicate Valid()
      reads this
    {
      IsCache(capacity, history, order, entries)
    }

    constructor (capacity: nat)
      ensures Valid() && this.capacity == capacity && history == [] && hits == 0 && misses == 0
    {
      this.capacity := capacity;
      entries := map[];
      order := [];
      hits, misses := 0, 0;
      history := [];
    }

    /** The read-lock section of `get`, with its counters. */
    method Lookup(path: Path) returns (value: Option<V>)
      requires Valid()
      modifies this`hits, this`misses
      ensures Valid()
      ensures value == if path in entries then Some(entries[path]) else None
      ensures hits == old(hits) + (if value.Some? then 1 else 0)
      ensures hits + misses == old(hits + misses) + 1
    {
      value := None;
      if path in entries {
        value := Some(entries[path]);
        hits := hits + 1;
      } else {
        misses := misses + 1;
      }
    }

    /** The write-lock section of `get`. */
    method PromoteCached(path: Path)
      requires Valid()
      modifies this`order, this`history
      ensures Valid() && history == old(history) + [Promote(path)]
      ensures path in entries ==> order != [] && order[|order| - 1] == path
    {
      history := history + [Promote(path)];
      assert history[..|history| - 1] == old(history);
      if path in entries {
        TouchNewest(Touched(capacity, old(history)), capacity, path);
        RemoveMembers(order, path);
        order := Remove(order, path) + [path];
      }
    }

    /** `get`, without interruption. */
    method Get(path: Path) returns (value: Option<V>)
      requires Valid()
      modifies this
      ensures Valid() && entries == old(entries)
      ensures history == old(history) + if value.Some? then [Promote(path)] else []
      ensures value == if path in entries then Some(entries[path]) else None
      ensures value.Some? ==> order != [] && order[|order| - 1] == path
      ensures value.None? ==> order == old(order)
    {
      value := Lookup(path);
      if value.Some? {
        PromoteCached(path);
      }
    }

    method PutEntry(path: Path, value: V)
      requires Valid()
      modifies this`entries, this`order, this`history
      ensures Valid() && history == old(history) + [Put(path, value)]
    {
      ghost var log := Touched(capacity, history);
      NewestCount(log, capacity);
      TouchNewest(log, capacity, path);
      AfterPut(history, capacity, path, value);
      history := history + [Put(path, value)];
      if capacity == 0 {
        return;
      }
      AdmittedPaths(order, capacity, path);
      var existed := path in entries;
      if existed {
        order := Remove(order, path);
      }
      order := order + [path];
      entries := entries[path := value];
      if !existed && |order| > capacity {
        var evicted := order[0];
        order := order[1..];
        entries := entries - {evicted};
      }
      assert order == Admit(old(order), capacity, path);
    }

    method ClearAll()
      requires Valid()
      modifies this`entries, this`order, this`history
      ensures Valid() && history == old(history) + [Clear] && entries == map[] && order == []
    {
      history := history + [Clear];
      entries := map[];
      order := [];
    }
  }

  lemma {:induction false} AfterPut<V>(history: seq<Event<V>>, capacity: nat, path: Path, value: V)
    ensures Touched(capacity, history + [Put(path, value)]) == Touched(capacity, history) + [path]
    ensures forall k ::
              LastPut(history + [Put(path, value)], k) == if k == path then Some(value) else LastPut(history, k)
  {
    assert (history + [Put(path, value)])[..|history|] == history;
  }

  /** Which paths are cached after a put. */
  lemma {:induction false} AdmittedPaths(s: seq<Path>, capacity: nat, k: Path)
    requires Distinct(s) && |s| <= capacity && capacity > 0
    ensures k in s ==> ToSet(Admit(s, capacity, k)) == ToSet(s)
    ensures k !in s && |s| < capacity ==> ToSet(Admit(s, capacity, k)) == ToSet(s) + {k}
    ensures k !in s && |s| == capacity ==>
              (s + [k])[0] == s[0] && (s + [k])[1..] == s[1..] + [k]
              && ToSet(Admit(s, capacity, k)) == ToSet(s) + {k} - {s[0]}
  {
    if k in s {
      RemoveMembers(s, k);
    } else if |s| == capacity {
      assert s == [s[0]] + s[1..];
    }
  }
}
