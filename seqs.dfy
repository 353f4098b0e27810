/**
  `Array.prototype.filter` and `Array.prototype.sort` as the core uses them.
  A sort with a consistent comparator `(a, b) => key(a) - key(b)` is modelled by
  an insertion sort on the key; the result is sorted and a permutation of the
  input, and nothing is claimed about the order of equal keys.
*/
module Seqs {

  /** `s.filter(p)`. */
  function Filter<T>(s: seq<T>, p: T -> bool): (r: seq<T>)
    ensures |r| <= |s|
    ensures forall k :: 0 <= k < |r| ==> p(r[k]) && r[k] in s
    ensures forall x :: x in s && p(x) ==> x in r
  {
    if s == [] then []
    else if p(s[0]) then [s[0]] + Filter(s[1..], p)
    else Filter(s[1..], p)
  }

  /** Filter, unfolded once. */
  lemma FilterStep<T>(s: seq<T>, p: T -> bool)
    requires s != []
    ensures Filter(s, p) == (if p(s[0]) then [s[0]] else []) + Filter(s[1..], p)
  {
  }

  lemma {:induction false} FilterAppend<T>(a: seq<T>, b: seq<T>, p: T -> bool)
    ensures Filter(a + b, p) == Filter(a, p) + Filter(b, p)
    decreases |a|
  {
    if a != [] {
      var ab := a + b;
      assert ab[0] == a[0] && ab[1..] == a[1..] + b;
      FilterAppend(a[1..], b, p);
      FilterStep(ab, p);
      FilterStep(a, p);
      var head: seq<T> := if p(a[0]) then [a[0]] else [];
      ConcatAssoc(head, Filter(a[1..], p), Filter(b, p));
    } else {
      assert a + b == b;
    }
  }

  lemma ConcatAssoc<T>(a: seq<T>, b: seq<T>, c: seq<T>)
    ensures a + (b + c) == (a + b) + c
  {
  }

  lemma HeadOfConcat<T>(a: seq<T>, b: seq<T>)
    requires |a| >= 1
    ensures (a + b)[0] == a[0] && (a + b)[1..] == a[1..] + b
  {
  }

  /** Splitting a list by a predicate and its negation loses and invents no element. */
  lemma {:induction false} FilterPartition<T>(s: seq<T>, p: T -> bool, q: T -> bool)
    requires forall x :: q(x) <==> !p(x)
    ensures multiset(Filter(s, p)) + multiset(Filter(s, q)) == multiset(s)
    decreases |s|
  {
    if s != [] {
      var rest := s[1..];
      FilterPartition(rest, p, q);
      FilterStep(s, p);
      FilterStep(s, q);
      HeadMultiset(s);
    }
  }

  lemma HeadMultiset<T>(s: seq<T>)
    requires s != []
    ensures multiset(s) == multiset{s[0]} + multiset(s[1..])
  {
    assert s == [s[0]] + s[1..];
  }

  lemma InAppendOne<T>(s: seq<T>, x: T, y: T)
    ensures y in s + [x] <==> y in s || y == x
  {
  }

  lemma InAppendLeft<T>(a: seq<T>, b: seq<T>, x: T)
    requires x in a
    ensures x in a + b
  {
  }

  lemma InAppendRight<T>(a: seq<T>, b: seq<T>, x: T)
    requires x in b
    ensures x in a + b
  {
  }

  /** `s.map(f)`. */
  function Map<A, B>(s: seq<A>, f: A -> B): (r: seq<B>)
    ensures |r| == |s| && forall k :: 0 <= k < |s| ==> r[k] == f(s[k])
  {
    seq(|s|, k requires 0 <= k < |s| => f(s[k]))
  }

  /** Mapping one more element appends its image. */
  lemma MapSnoc<A, B>(s: seq<A>, j: nat, f: A -> B)
    requires j < |s|
    ensures Map(s[..j + 1], f) == Map(s[..j], f) + [f(s[j])]
  {
  }

  /** The lists `f` gives for the elements of `s`, concatenated in order. */
  function ConcatMap<A, B>(s: seq<A>, f: A -> seq<B>): seq<B> {
    if s == [] then [] else ConcatMap(s[..|s| - 1], f) + f(s[|s| - 1])
  }

  lemma ConcatMapSnoc<A, B>(s: seq<A>, j: nat, f: A -> seq<B>)
    requires j < |s|
    ensures ConcatMap(s[..j + 1], f) == ConcatMap(s[..j], f) + f(s[j])
  {
    assert s[..j + 1][..j] == s[..j];
  }

  /** An element of the concatenation is an element of one of the lists, and every element of each list is in it. */
  lemma {:induction false} ConcatMapMembers<A, B>(s: seq<A>, f: A -> seq<B>, y: B)
    ensures y in ConcatMap(s, f) <==> exists i :: 0 <= i < |s| && y in f(s[i])
  {
    if s != [] {
      var n := |s| - 1;
      var init := s[..n];
      ConcatMapMembers(init, f, y);
      assert ConcatMap(s, f) == ConcatMap(init, f) + f(s[n]);
      if exists i :: 0 <= i < |s| && y in f(s[i]) {
        var i :| 0 <= i < |s| && y in f(s[i]);
        if i < n { assert init[i] == s[i]; }
      }
      if y in ConcatMap(init, f) {
        var i :| 0 <= i < |init| && y in f(init[i]);
        assert init[i] == s[i];
      }
    }
  }

  /** An element of a list mapped element by element is the image of some element. */
  lemma MappedMembers<A, B>(s: seq<A>, r: seq<B>, f: A -> B, y: B)
    requires |r| == |s| && forall k :: 0 <= k < |s| ==> r[k] == f(s[k])
    ensures y in r <==> exists j :: 0 <= j < |s| && y == f(s[j])
  {
    if y in r {
      var k :| 0 <= k < |r| && r[k] == y;
      assert y == f(s[k]);
    }
  }

  /** A predicate every element satisfies keeps the whole list. */
  lemma {:induction false} FilterAll<T>(s: seq<T>, p: T -> bool)
    requires forall k :: 0 <= k < |s| ==> p(s[k])
    ensures Filter(s, p) == s
  {
    if s != [] {
      FilterAll(s[1..], p);
      assert s == [s[0]] + s[1..];
    }
  }

  predicate SortedBy<T>(s: seq<T>, key: T -> int) {
    forall i, j :: 0 <= i < j < |s| ==> key(s[i]) <= key(s[j])
  }

  function InsertByKey<T>(x: T, s: seq<T>, key: T -> int): (r: seq<T>)
    requires SortedBy(s, key)
    ensures SortedBy(r, key)
    ensures multiset(r) == multiset(s) + multiset{x}
    ensures |r| == |s| + 1
    ensures forall k :: 0 <= k < |r| ==> r[k] == x || r[k] in s
  {
    if s == [] then [x]
    else if key(x) <= key(s[0]) then
      SortedCons(x, s, key);
      [x] + s
    else
      var tail := s[1..];
      SortedTail(s, key);
      var rest := InsertByKey(x, tail, key);
      AboveHead(x, s, rest, key);
      SortedCons(s[0], rest, key);
      ConsMembers(s, x, rest);
      [s[0]] + rest
  }

  lemma SortedTail<T>(s: seq<T>, key: T -> int)
    requires s != [] && SortedBy(s, key)
    ensures SortedBy(s[1..], key)
    ensures forall k :: 0 <= k < |s[1..]| ==> key(s[0]) <= key(s[1..][k])
  {
  }

  /** A head no greater than every element of a sorted tail keeps the list sorted. */
  lemma SortedCons<T>(h: T, t: seq<T>, key: T -> int)
    requires SortedBy(t, key) && forall k :: 0 <= k < |t| ==> key(h) <= key(t[k])
    ensures SortedBy([h] + t, key)
  {
    var r := [h] + t;
    forall i, j | 0 <= i < j < |r| ensures key(r[i]) <= key(r[j]) {
      assert r[j] == t[j - 1];
      if i > 0 { assert r[i] == t[i - 1]; }
    }
  }

  /** Every element of the insertion into the tail is at least the head: it is `x`, which is above it, or a tail element. */
  lemma AboveHead<T>(x: T, s: seq<T>, rest: seq<T>, key: T -> int)
    requires s != [] && SortedBy(s, key) && key(x) > key(s[0])
    requires forall k :: 0 <= k < |rest| ==> rest[k] == x || rest[k] in s[1..]
    ensures forall k :: 0 <= k < |rest| ==> key(s[0]) <= key(rest[k])
  {
    forall k | 0 <= k < |rest| ensures key(s[0]) <= key(rest[k]) {
      if rest[k] != x {
        var j :| 0 <= j < |s[1..]| && s[1..][j] == rest[k];
        assert s[j + 1] == rest[k];
      }
    }
  }

  lemma ConsMembers<T>(s: seq<T>, x: T, rest: seq<T>)
    requires s != [] && multiset(rest) == multiset(s[1..]) + multiset{x}
    requires forall k :: 0 <= k < |rest| ==> rest[k] == x || rest[k] in s[1..]
    ensures multiset([s[0]] + rest) == multiset(s) + multiset{x}
    ensures forall k :: 0 <= k < |[s[0]] + rest| ==> ([s[0]] + rest)[k] == x || ([s[0]] + rest)[k] in s
  {
    assert s == [s[0]] + s[1..];
    var r := [s[0]] + rest;
    forall k | 0 <= k < |r| ensures r[k] == x || r[k] in s {
      if k > 0 {
        assert r[k] == rest[k - 1];
        if rest[k - 1] != x {
          var j :| 0 <= j < |s[1..]| && s[1..][j] == rest[k - 1];
          assert s[j + 1] == rest[k - 1];
        }
      }
    }
  }

  /** `s.sort((a, b) => key(a) - key(b))`, up to the order of equal keys. */
  function SortByKey<T>(s: seq<T>, key: T -> int): (r: seq<T>)
    ensures SortedBy(r, key)
    ensures multiset(r) == multiset(s)
    ensures |r| == |s|
  {
    if s == [] then []
    else
      assert s == [s[0]] + s[1..];
      InsertByKey(s[0], SortByKey(s[1..], key), key)
  }

  /** How often each value occurs in a filtered list. */
  lemma {:induction false} FilterMultiplicity<T>(s: seq<T>, p: T -> bool, x: T)
    ensures multiset(Filter(s, p))[x] == if p(x) then multiset(s)[x] else 0
    decreases |s|
  {
    if s != [] {
      FilterMultiplicity(s[1..], p, x);
      FilterStep(s, p);
      HeadMultiset(s);
    }
  }

  /**
    One pass of insertion by an arbitrary comparator `cmp` (negative, zero or
    positive as in `Array.prototype.sort`). The comparator need not be
    consistent, so only the permutation is guaranteed.
  */
  function InsertByComparator<T>(x: T, s: seq<T>, cmp: (T, T) -> int): (r: seq<T>)
    ensures multiset(r) == multiset(s) + multiset{x}
  {
    if s == [] then [x]
    else if cmp(x, s[0]) <= 0 then [x] + s
    else
      assert s == [s[0]] + s[1..];
      [s[0]] + InsertByComparator(x, s[1..], cmp)
  }

  /** `s.sort(cmp)` for a comparator that may be inconsistent: some permutation of `s`. */
  function SortByComparator<T>(s: seq<T>, cmp: (T, T) -> int): (r: seq<T>)
    ensures multiset(r) == multiset(s)
  {
    if s == [] then []
    else
      assert s == [s[0]] + s[1..];
      InsertByComparator(s[0], SortByComparator(s[1..], cmp), cmp)
  }
}
