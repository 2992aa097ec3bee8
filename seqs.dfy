/** The array operations the services and views are written with:
    `filter`, `find`/`findIndex`, `map`, a stable `sort` by a numeric key,
    and `join`. */
module Seqs {
  import opened Wrappers

  /** `Array.prototype.filter`: the elements of `s` that satisfy `p`, in
      their order in `s`. */
  function Filter<T>(s: seq<T>, p: T -> bool): (r: seq<T>)
    ensures |r| <= |s|
    ensures forall i :: 0 <= i < |r| ==> r[i] in s && p(r[i])
    ensures forall i :: 0 <= i < |s| && p(s[i]) ==> s[i] in r
    ensures multiset(r) <= multiset(s)
  {
    if s == [] then []
    else
      assert s == s[..|s| - 1] + [s[|s| - 1]];
      Filter(s[..|s| - 1], p) + (if p(s[|s| - 1]) then [s[|s| - 1]] else [])
  }

  /** `idx` lists the positions of `s` that a filter by `p` keeps, with
      result `r`: strictly increasing, each holding the element at the same
      place of `r`, and covering every position whose element passes. */
  ghost predicate KeptPositions<T>(s: seq<T>, p: T -> bool, r: seq<T>, idx: seq<nat>)
  {
    && |idx| == |r|
    && (forall k :: 0 <= k < |idx| ==> idx[k] < |s| && r[k] == s[idx[k]])
    && (forall k, l :: 0 <= k < l < |idx| ==> idx[k] < idx[l])
    && (forall i :: 0 <= i < |s| && p(s[i]) ==> i in idx)
  }

  /** The positions `Filter` keeps. Their existence says that the result
      lists the passing elements in their order in `s`, each occurrence
      once. */
  ghost function {:induction false} FilterIndices<T>(s: seq<T>, p: T -> bool): (idx: seq<nat>)
    ensures KeptPositions(s, p, Filter(s, p), idx)
  {
    if s == [] then []
    else
      var prev := FilterIndices(s[..|s| - 1], p);
      KeptPositionsPush(s, p, prev, Filter(s, p), Filter(s[..|s| - 1], p));
      prev + (if p(s[|s| - 1]) then [|s| - 1] else [])
  }

  /** The kept positions of `s` are those of `s` without its last element,
      followed by the last position when its element passes. */
  lemma KeptPositionsPush<T>(s: seq<T>, p: T -> bool, prev: seq<nat>, r: seq<T>, r': seq<T>)
    requires s != [] && KeptPositions(s[..|s| - 1], p, r', prev)
    requires r == r' + (if p(s[|s| - 1]) then [s[|s| - 1]] else [])
    ensures KeptPositions(s, p, r, prev + (if p(s[|s| - 1]) then [|s| - 1] else []))
  {
    var n := |s| - 1;
    var s' := s[..n];
    var idx := prev + (if p(s[n]) then [n] else []);
    assert forall k :: 0 <= k < |prev| ==> prev[k] < n && r'[k] == s[prev[k]];
    PushKeepsElements(s, prev, idx, r, r', p(s[n]));
    assert forall i :: 0 <= i < n ==> s'[i] == s[i];
    PushCovers(s, p, prev, idx);
  }

  /** The kept positions still point at the kept elements, in increasing
      order, after a push. */
  lemma PushKeepsElements<T>(s: seq<T>, prev: seq<nat>, idx: seq<nat>, r: seq<T>, r': seq<T>, keep: bool)
    requires s != [] && |prev| == |r'|
    requires forall k :: 0 <= k < |prev| ==> prev[k] < |s| - 1 && r'[k] == s[prev[k]]
    requires forall k, l :: 0 <= k < l < |prev| ==> prev[k] < prev[l]
    requires idx == prev + (if keep then [|s| - 1] else [])
    requires r == r' + (if keep then [s[|s| - 1]] else [])
    ensures |idx| == |r|
    ensures forall k :: 0 <= k < |idx| ==> idx[k] < |s| && r[k] == s[idx[k]]
    ensures forall k, l :: 0 <= k < l < |idx| ==> idx[k] < idx[l]
  {
  }

  /** After a push, every passing position is still among the kept ones. */
  lemma PushCovers<T>(s: seq<T>, p: T -> bool, prev: seq<nat>, idx: seq<nat>)
    requires s != [] && forall i :: 0 <= i < |s| - 1 && p(s[i]) ==> i in prev
    requires idx == prev + (if p(s[|s| - 1]) then [|s| - 1] else [])
    ensures forall i :: 0 <= i < |s| && p(s[i]) ==> i in idx
  {
    forall i | 0 <= i < |s| && p(s[i])
      ensures i in idx
    {
      if i < |s| - 1 {
        assert i in prev;
      } else {
        assert idx[|idx| - 1] == i;
      }
    }
  }

  /** Each value occurs in the filtered list as often as in `s` when it
      passes, and not at all otherwise: duplicates are all kept. */
  lemma {:induction false} FilterCount<T>(s: seq<T>, p: T -> bool, x: T)
    ensures multiset(Filter(s, p))[x] == if p(x) then multiset(s)[x] else 0
  {
    if s != [] {
      var s', y := s[..|s| - 1], s[|s| - 1];
      assert s == s' + [y];
      FilterCount(s', p, x);
    }
  }

  /** `FilterCount` for every value of `s` at once. */
  lemma FilterCountAll<T>(s: seq<T>, p: T -> bool)
    ensures forall x | x in s :: multiset(Filter(s, p))[x] == if p(x) then multiset(s)[x] else 0
  {
    forall x | x in s
      ensures multiset(Filter(s, p))[x] == if p(x) then multiset(s)[x] else 0
    {
      FilterCount(s, p, x);
    }
  }

  /** Filtering twice is filtering once by both tests. */
  lemma {:induction false} FilterFilter<T>(s: seq<T>, p: T -> bool, q: T -> bool, pq: T -> bool)
    requires forall x :: pq(x) == (p(x) && q(x))
    ensures Filter(Filter(s, p), q) == Filter(s, pq)
  {
    if s != [] {
      var s', y := s[..|s| - 1], s[|s| - 1];
      var kept := Filter(s', p);
      assert Filter(s, pq) == Filter(s', pq) + (if pq(y) then [y] else []);
      FilterFilter(s', p, q, pq);
      if p(y) {
        assert Filter(s, p) == kept + [y];
        FilterPush(kept, y, q);
      } else {
        assert Filter(s, p) == kept;
      }
    }
  }

  /** Pushing one element and then filtering filters the old list and keeps
      the new element at the end exactly when it passes. */
  lemma FilterPush<T>(s: seq<T>, x: T, p: T -> bool)
    ensures Filter(s + [x], p) == Filter(s, p) + (if p(x) then [x] else [])
  {
    assert (s + [x])[..|s + [x]| - 1] == s;
  }

  /** Filtering distributes over concatenation. */
  lemma {:induction false} FilterConcat<T>(a: seq<T>, b: seq<T>, p: T -> bool)
    ensures Filter(a + b, p) == Filter(a, p) + Filter(b, p)
  {
    if b == [] {
      assert a + b == a;
    } else {
      var b', y := b[..|b| - 1], b[|b| - 1];
      SplitLast(a, b);
      FilterPush(a + b', y, p);
      FilterPush(b', y, p);
      FilterConcat(a, b', p);
    }
  }

  /** Splitting off the last element of `b`, alone and after `a`. */
  lemma SplitLast<T>(a: seq<T>, b: seq<T>)
    requires b != []
    ensures b == b[..|b| - 1] + [b[|b| - 1]]
    ensures a + b == (a + b[..|b| - 1]) + [b[|b| - 1]]
  {
  }

  /** When every element passes, filtering returns the list itself. */
  lemma {:induction false} FilterKeepsAll<T>(s: seq<T>, p: T -> bool)
    requires forall i :: 0 <= i < |s| ==> p(s[i])
    ensures Filter(s, p) == s
  {
    if s != [] {
      var s', x := s[..|s| - 1], s[|s| - 1];
      assert s == s' + [x];
      assert forall i :: 0 <= i < |s'| ==> s'[i] == s[i];
      FilterKeepsAll(s', p);
      FilterPush(s', x, p);
    }
  }

  /** Filtering drops something exactly when some element fails `p`. */
  lemma FilterShrinks<T>(s: seq<T>, p: T -> bool)
    ensures |Filter(s, p)| < |s| <==> exists i :: 0 <= i < |s| && !p(s[i])
  {
    if forall i :: 0 <= i < |s| ==> p(s[i]) {
      FilterKeepsAll(s, p);
    } else {
      var k :| 0 <= k < |s| && !p(s[k]);
      FilterDrops(s, p, k);
    }
  }

  /** An element that fails `p` makes the filtered list shorter. */
  lemma {:induction false} FilterDrops<T>(s: seq<T>, p: T -> bool, k: nat)
    requires k < |s| && !p(s[k])
    ensures |Filter(s, p)| < |s|
  {
    var s', x := s[..|s| - 1], s[|s| - 1];
    assert s == s' + [x];
    FilterPush(s', x, p);
    if k < |s'| {
      assert s'[k] == s[k];
      FilterDrops(s', p, k);
    }
  }

  /** `Array.prototype.findIndex`, with `None` for -1: the position of the
      first element that satisfies `p`. */
  function FirstIndex<T>(s: seq<T>, p: T -> bool): (r: Option<nat>)
    ensures r.Some? ==> r.value < |s| && p(s[r.value])
    ensures r.Some? ==> forall j :: 0 <= j < r.value ==> !p(s[j])
    ensures r.None? <==> forall j :: 0 <= j < |s| ==> !p(s[j])
  {
    if s == [] then None
    else if p(s[0]) then Some(0)
    else match FirstIndex(s[1..], p)
      case None => None
      case Some(i) => Some(i + 1)
  }

  /** `Array.prototype.find`: the first element that satisfies `p`. */
  function Find<T>(s: seq<T>, p: T -> bool): (r: Option<T>)
    ensures r.None? <==> forall j :: 0 <= j < |s| ==> !p(s[j])
    ensures r.Some? ==> exists i :: 0 <= i < |s| && s[i] == r.value && p(s[i]) &&
                                    forall j :: 0 <= j < i ==> !p(s[j])
  {
    match FirstIndex(s, p)
    case None => None
    case Some(i) => Some(s[i])
  }

  /** After a push, `find` still returns the earlier first match, and the
      pushed element only when nothing before it matched. */
  lemma FindPush<T>(s: seq<T>, x: T, p: T -> bool)
    ensures Find(s + [x], p) == if Find(s, p).Some? then Find(s, p) else if p(x) then Some(x) else None
  {
    var t := s + [x];
    assert forall j :: 0 <= j < |s| ==> t[j] == s[j];
    match Find(s, p)
    case Some(v) =>
      var i :| 0 <= i < |s| && s[i] == v && p(s[i]) && forall j :: 0 <= j < i ==> !p(s[j]);
      var k :| 0 <= k < |t| && t[k] == Find(t, p).value && p(t[k]) && forall j :: 0 <= j < k ==> !p(t[j]);
      assert k == i;
    case None =>
      if p(x) {
        assert t[|s|] == x;
        var k :| 0 <= k < |t| && t[k] == Find(t, p).value && p(t[k]) && forall j :: 0 <= j < k ==> !p(t[j]);
        assert k == |s|;
      }
  }

  /** `Array.prototype.map`. */
  function Map<T, U>(s: seq<T>, f: T -> U): (r: seq<U>)
    ensures |r| == |s|
    ensures forall i :: 0 <= i < |s| ==> r[i] == f(s[i])
  {
    seq(|s|, i requires 0 <= i < |s| => f(s[i]))
  }

  /** Mapping distributes over concatenation. */
  lemma MapConcat<T, U>(a: seq<T>, b: seq<T>, f: T -> U)
    ensures Map(a + b, f) == Map(a, f) + Map(b, f)
  {
  }

  /** Mapping twice is mapping once by the composition. */
  lemma MapMap<T, U, V>(s: seq<T>, f: T -> U, g: U -> V, h: T -> V)
    requires forall x :: h(x) == g(f(x))
    ensures Map(Map(s, f), g) == Map(s, h)
  {
  }

  /** Filtering the images is mapping the elements whose image passes. */
  lemma {:induction false} FilterMap<T, U>(s: seq<T>, f: T -> U, q: U -> bool, qf: T -> bool)
    requires forall x :: qf(x) == q(f(x))
    ensures Filter(Map(s, f), q) == Map(Filter(s, qf), f)
  {
    if s != [] {
      var s', y := s[..|s| - 1], s[|s| - 1];
      var images := Map(s', f);
      assert Map(s, f) == images + [f(y)];
      FilterPush(images, f(y), q);
      FilterMap(s', f, q, qf);
      MapPushStep(Filter(Map(s, f), q), Filter(images, q), Filter(s, qf), Filter(s', qf), y, f, qf(y));
    }
  }

  /** One step of `FilterMap`: pushing `y` on the kept elements pushes its
      image on the kept images. */
  lemma MapPushStep<T, U>(a: seq<U>, a': seq<U>, b: seq<T>, b': seq<T>, y: T, f: T -> U, keep: bool)
    requires a' == Map(b', f)
    requires a == a' + (if keep then [f(y)] else [])
    requires b == b' + (if keep then [y] else [])
    ensures a == Map(b, f)
  {
  }

  /** A value occurs among the images of the elements kept by `p` as often
      as an element passes `p` with that image. */
  lemma {:induction false} MapFilterCount<T, U>(s: seq<T>, p: T -> bool, f: T -> U, v: U, q: T -> bool)
    requires forall x :: q(x) == (p(x) && f(x) == v)
    ensures multiset(Map(Filter(s, p), f))[v] == |Filter(s, q)|
  {
    if s != [] {
      var s', y := s[..|s| - 1], s[|s| - 1];
      MapFilterCount(s', p, f, v, q);
      MapConcat(Filter(s', p), if p(y) then [y] else [], f);
    }
  }

  /** Ascending order by `key`. */
  ghost predicate SortedBy<T>(s: seq<T>, key: T -> int)
  {
    forall i, j :: 0 <= i < j < |s| ==> key(s[i]) <= key(s[j])
  }

  /** Inserts `x` into a sorted list after every element whose key is not
      larger, so equal keys keep their order. */
  function Insert<T>(x: T, s: seq<T>, key: T -> int): (r: seq<T>)
    requires SortedBy(s, key)
    ensures SortedBy(r, key)
    ensures multiset(r) == multiset(s) + multiset{x}
  {
    if s == [] then [x]
    else if key(x) < key(s[0]) then [x] + s
    else
      var u := s[1..];
      var t := Insert(x, u, key);
      KeysAbove(t, u, x, key, key(s[0]));
      SortedCons(s[0], t, key);
      assert s == [s[0]] + u;
      [s[0]] + t
  }

  /** Every element of a list holding the elements of `u` and `x` has a key
      of at least `b` when those elements do. */
  lemma KeysAbove<T>(t: seq<T>, u: seq<T>, x: T, key: T -> int, b: int)
    requires multiset(t) == multiset(u) + multiset{x}
    requires forall i :: 0 <= i < |u| ==> b <= key(u[i])
    requires b <= key(x)
    ensures forall i :: 0 <= i < |t| ==> b <= key(t[i])
  {
    forall i | 0 <= i < |t|
      ensures b <= key(t[i])
    {
      var y := t[i];
      assert y in multiset(t);
      if y != x {
        assert y in multiset(u);
        var k :| 0 <= k < |u| && u[k] == y;
      }
    }
  }

  /** A head whose key is at most every key of a sorted tail keeps it sorted. */
  lemma SortedCons<T>(h: T, t: seq<T>, key: T -> int)
    requires SortedBy(t, key)
    requires forall i :: 0 <= i < |t| ==> key(h) <= key(t[i])
    ensures SortedBy([h] + t, key)
  {
    var r := [h] + t;
    forall i, j | 0 <= i < j < |r|
      ensures key(r[i]) <= key(r[j])
    {
      assert r[j] == t[j - 1];
      if i > 0 {
        assert r[i] == t[i - 1];
      }
    }
  }

  /** A stable sort by a numeric key (`Array.prototype.sort` with the
      comparator `(a, b) => key(a) - key(b)`). */
  function SortBy<T>(s: seq<T>, key: T -> int): (r: seq<T>)
    ensures SortedBy(r, key)
    ensures multiset(r) == multiset(s)
  {
    if s == [] then []
    else
      assert s == s[..|s| - 1] + [s[|s| - 1]];
      Insert(s[|s| - 1], SortBy(s[..|s| - 1], key), key)
  }

  /** `Array.prototype.join(sep)`. */
  function Join(xs: seq<string>, sep: string): (r: string)
    ensures xs == [] ==> r == ""
    ensures xs != [] && xs[0] != "" ==> r != ""
  {
    if xs == [] then ""
    else if |xs| == 1 then xs[0]
    else xs[0] + sep + Join(xs[1..], sep)
  }

  /** `sub` occurs in `s` starting at position `i`. */
  predicate OccursAt(s: string, sub: string, i: int)
  {
    0 <= i <= |s| - |sub| && s[i..i + |sub|] == sub
  }

  /** `String.prototype.includes`. */
  predicate Contains(s: string, sub: string)
  {
    exists i | 0 <= i <= |s| :: OccursAt(s, sub, i)
  }

  /** Every string includes the empty string. */
  lemma ContainsEmpty(s: string)
    ensures Contains(s, "")
  {
    assert OccursAt(s, "", 0);
  }
}
