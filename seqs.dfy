/**
 * The array operations the panel chains together: `filter`, `[...new Set(..)]`,
 * a stable `sort` by a numeric key, and the `skip`/`limit`/`slice` window.
 */
module Seqs {
  import opened Base

  function Min(a: int, b: int): int {
    if a <= b then a else b
  }

  /** `s.filter(p)`: the elements of `s` that satisfy `p`, in their order. */
  function Filter<T>(s: seq<T>, p: T -> bool): (r: seq<T>)
    ensures |r| <= |s|
    ensures forall i :: 0 <= i < |r| ==> r[i] in s && p(r[i])
    ensures forall i :: 0 <= i < |s| && p(s[i]) ==> s[i] in r
  {
    if s == [] then []
    else (if p(s[0]) then [s[0]] else []) + Filter(s[1..], p)
  }

  /**
   * `Filter` keeps every accepted element as often as `s` holds it, and
   * nothing else: its length is the number of accepted entries of `s`.
   */
  lemma {:induction false} FilterCounts<T>(s: seq<T>, p: T -> bool)
    ensures multiset(Filter(s, p)) <= multiset(s)
    ensures forall i :: 0 <= i < |s| && p(s[i]) ==> multiset(Filter(s, p))[s[i]] == multiset(s)[s[i]]
  {
    if s != [] {
      var tail := s[1..];
      var head := if p(s[0]) then [s[0]] else [];
      var f := Filter(tail, p);
      FilterCounts(tail, p);
      assert Filter(s, p) == head + f;
      assert s == [s[0]] + tail;
      assert multiset(s) == multiset([s[0]]) + multiset(tail);
      assert multiset(Filter(s, p)) == multiset(head) + multiset(f);
      forall i | 0 <= i < |s| && p(s[i])
        ensures multiset(Filter(s, p))[s[i]] == multiset(s)[s[i]]
      {
        var x := s[i];
        if x in tail {
          var j :| 0 <= j < |tail| && tail[j] == x;
          assert multiset(f)[x] == multiset(tail)[x];
        } else {
          assert multiset(tail)[x] == 0;
          assert multiset(f)[x] == 0;
          assert x == s[0];
        }
      }
    }
  }

  /**
   * An accepted element sits in the filtered list right after the accepted
   * elements before it, so the filtered list keeps the input's order.
   */
  lemma FilterPosition<T>(s: seq<T>, p: T -> bool, i: nat)
    requires i < |s| && p(s[i])
    ensures |Filter(s[..i], p)| < |Filter(s, p)|
    ensures Filter(s, p)[|Filter(s[..i], p)|] == s[i]
  {
    assert s == s[..i] + s[i..];
    FilterAppend(s[..i], s[i..], p);
    assert Filter(s[i..], p) == [s[i]] + Filter(s[i..][1..], p);
  }

  /** Of two accepted elements, the earlier one comes first in the filtered list. */
  lemma FilterKeepsOrder<T>(s: seq<T>, p: T -> bool, i: nat, j: nat)
    requires i < j < |s| && p(s[i]) && p(s[j])
    ensures |Filter(s[..i], p)| < |Filter(s[..j], p)|
  {
    assert s[..j] == s[..i] + s[i..j];
    FilterAppend(s[..i], s[i..j], p);
    assert Filter(s[i..j], p) == [s[i]] + Filter(s[i..j][1..], p);
  }

  /** Filtering keeps relative order: `Filter` distributes over concatenation. */
  lemma {:induction false} FilterAppend<T>(a: seq<T>, b: seq<T>, p: T -> bool)
    ensures Filter(a + b, p) == Filter(a, p) + Filter(b, p)
  {
    if a == [] {
      assert a + b == b;
    } else {
      assert (a + b)[1..] == a[1..] + b;
      FilterAppend(a[1..], b, p);
    }
  }

  /** Filtering depends only on which elements the predicate accepts. */
  lemma {:induction false} FilterSamePredicate<T>(s: seq<T>, p: T -> bool, q: T -> bool)
    requires forall i :: 0 <= i < |s| ==> p(s[i]) == q(s[i])
    ensures Filter(s, p) == Filter(s, q)
  {
    if s != [] {
      FilterSamePredicate(s[1..], p, q);
    }
  }

  predicate NoDuplicates<T(==)>(s: seq<T>) {
    forall i, j :: 0 <= i < j < |s| ==> s[i] != s[j]
  }

  /** The index of the first occurrence of `x` in `s`. */
  function IndexOf<T(==)>(s: seq<T>, x: T): (i: nat)
    requires x in s
    ensures i < |s| && s[i] == x && x !in s[..i]
  {
    if s[0] == x then 0 else 1 + IndexOf(s[1..], x)
  }

  lemma {:induction false} IndexOfPrefix<T>(s: seq<T>, k: nat, x: T)
    requires k <= |s| && x in s[..k]
    ensures IndexOf(s, x) == IndexOf(s[..k], x)
  {
    if s[0] != x {
      assert s[1..][..k - 1] == s[..k][1..];
      IndexOfPrefix(s[1..], k - 1, x);
    }
  }

  /**
   * `[...new Set(s)]`: the distinct elements of `s` in the order in which
   * each was first seen (a JavaScript Set iterates in insertion order).
   */
  function Distinct<T(==)>(s: seq<T>): (r: seq<T>)
    ensures NoDuplicates(r)
    ensures forall i :: 0 <= i < |r| ==> r[i] in s
    ensures forall i :: 0 <= i < |s| ==> s[i] in r
    decreases |s|
  {
    if s == [] then []
    else
      var d := Distinct(s[..|s| - 1]);
      if s[|s| - 1] in d then d else d + [s[|s| - 1]]
  }

  /** Extending `s` by one element extends its distinct elements by it when it is new. */
  lemma DistinctSnoc<T>(s: seq<T>, x: T)
    ensures Distinct(s + [x]) == if x in Distinct(s) then Distinct(s) else Distinct(s) + [x]
  {
    assert (s + [x])[..|s|] == s;
  }

  /** `Distinct` keeps exactly the elements of `s`. */
  lemma DistinctSameElements<T>(s: seq<T>)
    ensures forall x :: x in Distinct(s) <==> x in s
  {
    var d := Distinct(s);
    forall x | x in d ensures x in s {
      var i :| 0 <= i < |d| && d[i] == x;
    }
    forall x | x in s ensures x in d {
      var i :| 0 <= i < |s| && s[i] == x;
    }
  }

  /** Every element of `r` occurs in `s`, and `r` lists them in order of first occurrence. */
  predicate InFirstSeenOrder<T(==)>(s: seq<T>, r: seq<T>) {
    (forall i :: 0 <= i < |r| ==> r[i] in s) &&
    forall i, j :: 0 <= i < j < |r| ==> IndexOf(s, r[i]) < IndexOf(s, r[j])
  }

  /** The distinct elements appear in the order of their first occurrence in `s`. */
  lemma {:induction false} DistinctFirstSeenOrder<T>(s: seq<T>)
    ensures InFirstSeenOrder(s, Distinct(s))
    decreases |s|
  {
    if s != [] {
      var n := |s| - 1;
      var p := s[..n];
      var d := Distinct(p);
      var r := Distinct(s);
      DistinctFirstSeenOrder(p);
      forall i | 0 <= i < |d|
        ensures d[i] in s && IndexOf(s, d[i]) == IndexOf(p, d[i]) < n
      {
        IndexOfPrefix(s, n, d[i]);
      }
      if s[n] in d {
        assert r == d;
      } else {
        IndexOfFresh(s);
        assert r == d + [s[n]];
        forall i, j | 0 <= i < j < |r|
          ensures IndexOf(s, r[i]) < IndexOf(s, r[j])
        {
          assert r[i] == d[i];
          if j < |d| {
            assert r[j] == d[j];
          }
        }
      }
    }
  }

  lemma IndexOfFresh<T>(s: seq<T>)
    requires s != [] && s[|s| - 1] !in s[..|s| - 1]
    ensures IndexOf(s, s[|s| - 1]) == |s| - 1
  {
  }

  lemma MultisetMembers<T>(t: seq<T>, s: seq<T>, x: T)
    requires multiset(t) == multiset(s) + multiset{x}
    ensures forall k :: 0 <= k < |t| ==> t[k] == x || t[k] in s
  {
    forall k | 0 <= k < |t|
      ensures t[k] == x || t[k] in s
    {
      assert t[k] in multiset(t);
    }
  }

  predicate SortedBy<T>(s: seq<T>, key: T -> int) {
    forall i, j :: 0 <= i < j < |s| ==> key(s[i]) <= key(s[j])
  }

  /** Filtering a sorted sequence leaves it sorted. */
  lemma {:induction false} FilterSorted<T>(s: seq<T>, p: T -> bool, key: T -> int)
    requires SortedBy(s, key)
    ensures SortedBy(Filter(s, p), key)
  {
    if s != [] {
      var rest := Filter(s[1..], p);
      FilterSorted(s[1..], p, key);
      if p(s[0]) {
        var r := Filter(s, p);
        assert r == [s[0]] + rest;
        forall j | 0 < j < |r|
          ensures key(r[0]) <= key(r[j])
        {
          assert r[j] == rest[j - 1];
          var m :| 0 <= m < |s[1..]| && s[1..][m] == rest[j - 1];
          assert s[m + 1] == r[j];
        }
      }
    }
  }

  /** Inserts `x` into a sorted `s` in front of the first element whose key is not smaller. */
  function Insert<T(==)>(x: T, s: seq<T>, key: T -> int): (r: seq<T>)
    requires SortedBy(s, key)
    ensures SortedBy(r, key)
    ensures multiset(r) == multiset(s) + multiset{x}
    ensures |r| == |s| + 1
  {
    if s == [] || key(x) <= key(s[0]) then
      InsertFront(x, s, key);
      [x] + s
    else
      var t := Insert(x, s[1..], key);
      InsertHead(s, x, t, key);
      [s[0]] + t
  }

  /** `x` no larger than the head of a sorted `s` can go first. */
  lemma InsertFront<T>(x: T, s: seq<T>, key: T -> int)
    requires SortedBy(s, key) && (s == [] || key(x) <= key(s[0]))
    ensures SortedBy([x] + s, key)
  {
    var r := [x] + s;
    forall i, j | 0 <= i < j < |r|
      ensures key(r[i]) <= key(r[j])
    {
      assert r[j] == s[j - 1];
      if i > 0 {
        assert r[i] == s[i - 1];
      }
    }
  }

  /** The head of a sorted `s` stays first when `x` goes after it. */
  lemma InsertHead<T>(s: seq<T>, x: T, t: seq<T>, key: T -> int)
    requires s != [] && SortedBy(s, key) && key(s[0]) < key(x)
    requires SortedBy(t, key) && multiset(t) == multiset(s[1..]) + multiset{x}
    ensures SortedBy([s[0]] + t, key)
    ensures multiset([s[0]] + t) == multiset(s) + multiset{x}
  {
    assert s == [s[0]] + s[1..];
    MultisetMembers(t, s[1..], x);
    var r := [s[0]] + t;
    forall i, j | 0 <= i < j < |r|
      ensures key(r[i]) <= key(r[j])
    {
      if i > 0 {
        assert r[i] == t[i - 1] && r[j] == t[j - 1];
      } else {
        assert r[j] == t[j - 1];
        if r[j] != x {
          var m :| 0 <= m < |s[1..]| && s[1..][m] == r[j];
          assert s[m + 1] == r[j];
        }
      }
    }
  }

  /**
   * `sort` by an integer key, ascending. Equal keys keep their original order:
   * the element met first is inserted in front of the equal elements met later.
   */
  function SortBy<T(==)>(s: seq<T>, key: T -> int): (r: seq<T>)
    ensures SortedBy(r, key)
    ensures multiset(r) == multiset(s)
    ensures |r| == |s|
  {
    if s == [] then []
    else
      assert s == [s[0]] + s[1..];
      Insert(s[0], SortBy(s[1..], key), key)
  }

  /**
   * `skip(skip).limit(limit)` (and `slice(skip, skip + limit)`): the elements of
   * `s` from position `skip` on, at most `limit` of them.
   */
  function Window<T>(s: seq<T>, skip: nat, limit: nat): (r: seq<T>)
    ensures |r| == if skip >= |s| then 0 else Min(limit, |s| - skip)
    ensures forall k :: 0 <= k < |r| ==> r[k] == s[skip + k]
  {
    if skip >= |s| then [] else s[skip..skip + Min(limit, |s| - skip)]
  }

  /** `s.find(p)`: the first element that satisfies `p`, if any. */
  function Find<T(==)>(s: seq<T>, p: T -> bool): (r: Option<T>)
    ensures r.None? <==> forall i :: 0 <= i < |s| ==> !p(s[i])
    ensures r.Some? ==>
      exists i :: 0 <= i < |s| && s[i] == r.value && p(s[i]) && forall j :: 0 <= j < i ==> !p(s[j])
  {
    if s == [] then None
    else if p(s[0]) then Some(s[0])
    else
      var r := Find(s[1..], p);
      assert forall i :: 1 <= i < |s| ==> s[i] == s[1..][i - 1];
      if r.Some? then
        var i :| 0 <= i < |s[1..]| && s[1..][i] == r.value && p(s[1..][i])
          && forall j :: 0 <= j < i ==> !p(s[1..][j]);
        assert s[i + 1] == r.value;
        r
      else r
  }

  /** `slice(0, n)`. */
  function Take<T>(s: seq<T>, n: nat): (r: seq<T>)
    ensures |r| == Min(n, |s|)
    ensures r == s[..|r|]
  {
    Window(s, 0, n)
  }
}
