/**
 * Query building blocks shared by the backend's table queries and the
 * frontend's session list: filtering, a stable sort on an integer key and
 * `LIMIT n`.
 */
module Sorting {

  /** Keeps, in order, the elements `keep` accepts (a WHERE clause / `Array.prototype.filter`). */
  function Filter<T>(s: seq<T>, keep: T -> bool): (r: seq<T>)
    ensures |r| <= |s|
    ensures forall i | 0 <= i < |s| && keep(s[i]) :: s[i] in r
    ensures forall i | 0 <= i < |r| :: keep(r[i])
    ensures multiset(r) <= multiset(s)
  {
    if s == [] then []
    else
      var head := if keep(s[0]) then [s[0]] else [];
      assert s == [s[0]] + s[1..];
      assert multiset(head) <= multiset([s[0]]);
      head + Filter(s[1..], keep)
  }

  lemma {:induction false} FilterAppend<T>(a: seq<T>, b: seq<T>, keep: T -> bool)
    ensures Filter(a + b, keep) == Filter(a, keep) + Filter(b, keep)
  {
    if a != [] {
      assert (a + b)[0] == a[0];
      assert (a + b)[1..] == a[1..] + b;
      FilterAppend(a[1..], b, keep);
    } else {
      assert a + b == b;
    }
  }

  /** Filtering a sequence every element of which is accepted changes nothing. */
  lemma {:induction false} FilterAll<T>(s: seq<T>, keep: T -> bool)
    requires forall i | 0 <= i < |s| :: keep(s[i])
    ensures Filter(s, keep) == s
  {
    if s != [] {
      FilterAll(s[1..], keep);
    }
  }

  predicate SortedBy<T>(s: seq<T>, key: T -> int) {
    forall i, j | 0 <= i < j < |s| :: key(s[i]) <= key(s[j])
  }

  /** The elements of `s` whose key is `k`, in their order in `s`. */
  function WithKey<T>(s: seq<T>, key: T -> int, k: int): seq<T> {
    if s == [] then [] else (if key(s[0]) == k then [s[0]] else []) + WithKey(s[1..], key, k)
  }

  /** `r` keeps the relative order of the elements of `s` that share a key. */
  ghost predicate StableFor<T>(s: seq<T>, r: seq<T>, key: T -> int) {
    forall k :: WithKey(r, key, k) == WithKey(s, key, k)
  }

  /** Inserts `x` in front of the first element whose key is not smaller. */
  function Insert<T>(x: T, s: seq<T>, key: T -> int): (r: seq<T>)
    requires SortedBy(s, key)
    ensures |r| == |s| + 1
    ensures SortedBy(r, key)
    ensures multiset(r) == multiset(s) + multiset{x}
  {
    if s == [] || key(x) <= key(s[0]) then
      assert forall i | 1 <= i < |s| + 1 :: ([x] + s)[i] == s[i - 1];
      [x] + s
    else
      var rest := Insert(x, s[1..], key);
      PrependHead(x, s, key, rest);
      [s[0]] + rest
  }

  /** The head of a sorted `s` whose key is below `x`'s can go in front of `x` inserted into the tail. */
  lemma PrependHead<T>(x: T, s: seq<T>, key: T -> int, rest: seq<T>)
    requires SortedBy(s, key) && s != [] && key(s[0]) <= key(x)
    requires SortedBy(rest, key) && multiset(rest) == multiset(s[1..]) + multiset{x}
    ensures SortedBy([s[0]] + rest, key)
    ensures multiset([s[0]] + rest) == multiset(s) + multiset{x}
  {
    assert s == [s[0]] + s[1..];
    BoundedBelow(rest, s[1..], x, key, key(s[0]));
  }

  /** A bound on the keys of `s` and of `x` holds for every element of a rearrangement of `s` with `x` added. */
  lemma BoundedBelow<T>(t: seq<T>, s: seq<T>, x: T, key: T -> int, lo: int)
    requires multiset(t) == multiset(s) + multiset{x}
    requires forall i | 0 <= i < |s| :: lo <= key(s[i])
    requires lo <= key(x)
    ensures forall j | 0 <= j < |t| :: lo <= key(t[j])
  {
    forall j | 0 <= j < |t| ensures lo <= key(t[j]) {
      assert t[j] in multiset(t);
      if t[j] != x {
        assert t[j] in multiset(s);
        var m :| 0 <= m < |s| && s[m] == t[j];
      }
    }
  }

  /** A stable insertion sort, ascending by `key` (`Array.prototype.sort`, `ORDER BY`). */
  function SortBy<T>(s: seq<T>, key: T -> int): (r: seq<T>)
    ensures |r| == |s|
    ensures SortedBy(r, key)
    ensures multiset(r) == multiset(s)
  {
    if s == [] then []
    else
      var sorted := SortBy(s[1..], key);
      assert s == [s[0]] + s[1..];
      assert multiset(s) == multiset(s[1..]) + multiset{s[0]};
      Insert(s[0], sorted, key)
  }

  lemma {:induction false} InsertStable<T>(x: T, s: seq<T>, key: T -> int, k: int)
    requires SortedBy(s, key)
    ensures WithKey(Insert(x, s, key), key, k) == WithKey([x] + s, key, k)
  {
    if s != [] && key(x) > key(s[0]) {
      InsertStable(x, s[1..], key, k);
      var r := Insert(x, s, key);
      assert r[1..] == Insert(x, s[1..], key);
      assert ([x] + s[1..])[1..] == s[1..];
      assert ([x] + s)[1..] == s;
    }
  }

  lemma {:induction false} WithKeyCons<T>(x: T, s: seq<T>, a: seq<T>, key: T -> int, k: int)
    requires WithKey(a, key, k) == WithKey(s, key, k)
    ensures WithKey([x] + a, key, k) == WithKey([x] + s, key, k)
  {
    assert ([x] + a)[1..] == a;
    assert ([x] + s)[1..] == s;
  }

  /** The sort is stable: elements with equal keys keep their input order. */
  lemma {:induction false} SortStable<T>(s: seq<T>, key: T -> int)
    ensures StableFor(s, SortBy(s, key), key)
  {
    if s != [] {
      SortStable(s[1..], key);
      forall k ensures WithKey(SortBy(s, key), key, k) == WithKey(s, key, k) {
        var sorted := SortBy(s[1..], key);
        InsertStable(s[0], sorted, key, k);
        WithKeyCons(s[0], s[1..], sorted, key, k);
        assert [s[0]] + s[1..] == s;
      }
    }
  }

  /** Filters that agree on every element of `s` select the same elements. */
  lemma {:induction false} FilterCongruent<T>(s: seq<T>, f: T -> bool, g: T -> bool)
    requires forall i | 0 <= i < |s| :: f(s[i]) == g(s[i])
    ensures Filter(s, f) == Filter(s, g)
  {
    if s != [] {
      FilterCongruent(s[1..], f, g);
    }
  }

  /** `WHERE keep ORDER BY key`: the kept elements of `s`, stably sorted by `key`. */
  function Select<T>(s: seq<T>, keep: T -> bool, key: T -> int): (r: seq<T>)
    ensures SortedBy(r, key)
    ensures forall i | 0 <= i < |r| :: keep(r[i])
    ensures forall i | 0 <= i < |s| && keep(s[i]) :: s[i] in r
    ensures forall x | x in s && keep(x) :: x in r
    ensures forall i | 0 <= i < |r| :: r[i] in s
    ensures multiset(r) <= multiset(s)
  {
    var kept := Filter(s, keep);
    var r := SortBy(kept, key);
    FilterMembers(s, keep);
    MultisetMembers(r, kept);
    MultisetMembers(kept, r);
    assert forall x | x in r :: x in s && keep(x);
    assert forall x | x in s && keep(x) :: x in r;
    r
  }

  /** An element is kept exactly when it is in the sequence and accepted. */
  lemma {:induction false} FilterMembers<T>(s: seq<T>, keep: T -> bool)
    ensures forall x :: x in Filter(s, keep) <==> x in s && keep(x)
  {
    if s != [] {
      FilterMembers(s[1..], keep);
      assert s == [s[0]] + s[1..];
    }
  }

  /** The elements of a sub-multiset are elements of the larger one. */
  lemma MultisetMembers<T>(a: seq<T>, b: seq<T>)
    requires multiset(a) <= multiset(b)
    ensures forall x | x in a :: x in b
  {
    forall x | x in a ensures x in b {
      assert x in multiset(a);
    }
  }

  /** `LIMIT n`: the first `n` elements, or all of them when there are fewer. */
  function Take<T>(s: seq<T>, n: nat): (r: seq<T>)
    ensures |r| <= n && |r| <= |s|
    ensures |r| == if n < |s| then n else |s|
    ensures r == s[..|r|]
  {
    if n < |s| then s[..n] else s
  }

  /** `s` back to front. */
  function Reverse<T>(s: seq<T>): (r: seq<T>)
    ensures |r| == |s|
    ensures forall i | 0 <= i < |s| :: r[i] == s[|s| - 1 - i]
  {
    if s == [] then [] else Reverse(s[1..]) + [s[0]]
  }

  /** A sequence whose elements are those of `s` back to front is `Reverse(s)`. */
  lemma ReversedByIndex<T>(r: seq<T>, s: seq<T>)
    requires |r| == |s|
    requires forall k | 0 <= k < |r| :: r[k] == s[|s| - 1 - k]
    ensures r == Reverse(s)
  {
  }

  /** Reading the first `n` of the reversed sequence back to front yields the last `n` of `s`, in order. */
  lemma ReverseTakeReverse<T>(s: seq<T>, n: nat)
    ensures Reverse(Take(Reverse(s), n)) == s[|s| - |Take(Reverse(s), n)|..]
  {
    var rs := Reverse(s);
    var t := Take(rs, n);
    var k := |s| - |t|;
    forall i | 0 <= i < |t| ensures Reverse(t)[i] == s[k..][i] {
      var j := |t| - 1 - i;
      assert Reverse(t)[i] == t[j];
      assert t[j] == rs[j] == s[|s| - 1 - j];
      assert s[k..][i] == s[k + i];
    }
    assert |Reverse(t)| == |s[k..]|;
  }
}
