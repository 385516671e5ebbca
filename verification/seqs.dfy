/** Sequence operations behind the array methods the store uses
    (`filter`, `find`, `findIndex`, `splice`) and the newest-first ordering
    the listing queries ask of the document store. */
module Seqs {
  import opened Optional

  /** `Array.prototype.filter`: the elements satisfying `p`, in their order. */
  function Filter<T>(s: seq<T>, p: T -> bool): (r: seq<T>)
    ensures |r| <= |s|
    ensures forall i :: 0 <= i < |r| ==> r[i] in s && p(r[i])
    ensures forall i :: 0 <= i < |s| && p(s[i]) ==> s[i] in r
  {
    if s == [] then []
    else
      var rest := Filter(s[1..], p);
      FilterStep(s[0], s[1..], p, rest);
      (if p(s[0]) then [s[0]] else []) + rest
  }

  /** One filter step: the head is kept or dropped and the filtered tail
      follows, so what holds of the tail's filter holds of the whole. */
  lemma FilterStep<T>(h: T, t: seq<T>, p: T -> bool, rest: seq<T>)
    requires |rest| <= |t|
    requires forall i :: 0 <= i < |rest| ==> rest[i] in t && p(rest[i])
    requires forall i :: 0 <= i < |t| && p(t[i]) ==> t[i] in rest
    ensures var s := [h] + t;
            var r := (if p(h) then [h] else []) + rest;
            && |r| <= |s|
            && (forall i :: 0 <= i < |r| ==> r[i] in s && p(r[i]))
            && (forall i :: 0 <= i < |s| && p(s[i]) ==> s[i] in r)
  {
    var s := [h] + t;
    var r := (if p(h) then [h] else []) + rest;
    forall i | 0 <= i < |r|
      ensures r[i] in s && p(r[i])
    {
      if !p(h) || i > 0 {
        var k := if p(h) then i - 1 else i;
        assert r[i] == rest[k];
      }
    }
    forall i | 0 <= i < |s| && p(s[i])
      ensures s[i] in r
    {
      if i > 0 {
        assert s[i] == t[i - 1];
      }
    }
  }

  /** A filter drops copies of failing values only: the result is a
      sub-multiset of the input, and every passing value occurs in it exactly
      as often as in the input. */
  lemma {:induction false} FilterCounts<T>(s: seq<T>, p: T -> bool)
    ensures multiset(Filter(s, p)) <= multiset(s)
    ensures forall i :: 0 <= i < |s| && p(s[i]) ==> multiset(Filter(s, p))[s[i]] == multiset(s)[s[i]]
  {
    if s != [] {
      var rest := Filter(s[1..], p);
      FilterCounts(s[1..], p);
      FilterCountsStep(s, s[1..], p, rest);
    }
  }

  lemma FilterCountsStep<T>(s: seq<T>, t: seq<T>, p: T -> bool, rest: seq<T>)
    requires s != [] && t == s[1..]
    requires multiset(rest) <= multiset(t)
    requires forall i :: 0 <= i < |t| && p(t[i]) ==> multiset(rest)[t[i]] == multiset(t)[t[i]]
    ensures var r := (if p(s[0]) then [s[0]] else []) + rest;
            && multiset(r) <= multiset(s)
            && forall i :: 0 <= i < |s| && p(s[i]) ==> multiset(r)[s[i]] == multiset(s)[s[i]]
  {
    assert s == [s[0]] + t;
    var r := (if p(s[0]) then [s[0]] else []) + rest;
    forall i | 0 <= i < |s| && p(s[i])
      ensures multiset(r)[s[i]] == multiset(s)[s[i]]
    {
      var x := s[i];
      if x in t {
        var k :| 0 <= k < |t| && t[k] == x;
        assert multiset(rest)[t[k]] == multiset(t)[t[k]];
      } else {
        assert multiset(t)[x] == 0;
      }
    }
  }

  /** Filtering distributes over concatenation, so it keeps relative order. */
  lemma {:induction false} FilterAppend<T>(a: seq<T>, b: seq<T>, p: T -> bool)
    ensures Filter(a + b, p) == Filter(a, p) + Filter(b, p)
  {
    if a == [] {
      assert a + b == b;
    } else {
      assert (a + b)[0] == a[0];
      assert (a + b)[1..] == a[1..] + b;
      FilterAppend(a[1..], b, p);
    }
  }

  /** Two predicates that agree on the elements of `s` filter it alike. */
  lemma {:induction false} FilterAgree<T>(s: seq<T>, p: T -> bool, q: T -> bool)
    requires forall x :: x in s ==> p(x) == q(x)
    ensures Filter(s, p) == Filter(s, q)
  {
    if s != [] {
      assert forall x :: x in s[1..] ==> x in s;
      FilterAgree(s[1..], p, q);
    }
  }

  /** The conjunction of two element predicates. */
  function Both<T>(p: T -> bool, q: T -> bool): T -> bool {
    x => p(x) && q(x)
  }

  /** `p`, and also `q` when `c` holds. */
  function AndIf<T>(p: T -> bool, c: bool, q: T -> bool): T -> bool {
    x => p(x) && (c ==> q(x))
  }

  /** Filtering twice is filtering once by the conjunction. */
  lemma {:induction false} FilterTwice<T>(s: seq<T>, p: T -> bool, q: T -> bool)
    ensures Filter(Filter(s, p), q) == Filter(s, Both(p, q))
  {
    if s != [] {
      var head := if p(s[0]) then [s[0]] else [];
      FilterAppend(head, Filter(s[1..], p), q);
      FilterTwice(s[1..], p, q);
    }
  }

  /** `if (c) s = s.filter(q)`: an optional narrowing step. */
  function Narrow<T>(s: seq<T>, c: bool, q: T -> bool): seq<T> {
    if c then Filter(s, q) else s
  }

  /** A narrowing step after a filter is one filter by the guarded conjunction. */
  lemma NarrowFilter<T>(s: seq<T>, p: T -> bool, c: bool, q: T -> bool)
    ensures Narrow(Filter(s, p), c, q) == Filter(s, AndIf(p, c, q))
  {
    if c {
      FilterTwice(s, p, q);
      FilterAgree(s, Both(p, q), AndIf(p, c, q));
    } else {
      FilterAgree(s, p, AndIf(p, c, q));
    }
  }

  /** `Array.prototype.findIndex`: the first position satisfying `p`. */
  function FirstIndex<T>(s: seq<T>, p: T -> bool): (r: Option<nat>)
    ensures r.Some? ==> r.value < |s| && p(s[r.value])
    ensures r.Some? ==> forall j :: 0 <= j < r.value ==> !p(s[j])
    ensures r.None? <==> forall j :: 0 <= j < |s| ==> !p(s[j])
  {
    if s == [] then None
    else if p(s[0]) then Some(0)
    else match FirstIndex(s[1..], p)
      case None => None
      case Some(i) => Some(i + 1)
  }

  /** `Array.prototype.find`: the first element satisfying `p`. */
  function First<T>(s: seq<T>, p: T -> bool): (r: Option<T>)
    ensures r.Some? ==> exists i :: 0 <= i < |s| && s[i] == r.value && p(s[i]) && forall j :: 0 <= j < i ==> !p(s[j])
    ensures r.None? <==> forall i :: 0 <= i < |s| ==> !p(s[i])
  {
    match FirstIndex(s, p)
    case None => None
    case Some(i) => Some(s[i])
  }

  /** Replacing the first match by another match keeps it the first. */
  lemma FirstIndexReplaced<T>(s1: seq<T>, s2: seq<T>, i: nat, x: T, p: T -> bool)
    requires FirstIndex(s1, p) == Some(i)
    requires |s2| == |s1| && i < |s1| && s2[i] == x && p(x)
    requires forall j :: 0 <= j < |s1| && j != i ==> s2[j] == s1[j]
    ensures FirstIndex(s2, p) == Some(i)
  {
    assert p(s2[i]);
  }

  /** `s2` is `s1` with position `i` replaced by `x` and every other position
      unchanged. */
  ghost predicate ReplacedAt<T>(s1: seq<T>, s2: seq<T>, i: nat, x: T) {
    && |s2| == |s1|
    && i < |s1|
    && s2[i] == x
    && forall j :: 0 <= j < |s1| && j != i ==> s2[j] == s1[j]
  }

  /** `a` can be obtained from `b` by deleting elements: it keeps `b`'s order. */
  ghost predicate Subsequence<T>(a: seq<T>, b: seq<T>)
    decreases |b|
  {
    a == [] || (b != [] && ((a[0] == b[0] && Subsequence(a[1..], b[1..])) || Subsequence(a, b[1..])))
  }

  /** The members of a filter result are exactly the members of the input
      that satisfy the predicate. */
  lemma FilterMembers<T>(s: seq<T>, p: T -> bool)
    ensures forall x :: x in Filter(s, p) <==> x in s && p(x)
  {
    var r := Filter(s, p);
    forall x | x in r
      ensures x in s && p(x)
    {
      var i :| 0 <= i < |r| && r[i] == x;
    }
    forall x | x in s && p(x)
      ensures x in r
    {
      var i :| 0 <= i < |s| && s[i] == x;
    }
  }

  /** A filter result is an order-preserving subsequence of its input. */
  lemma {:induction false} FilterIsSubsequence<T>(s: seq<T>, p: T -> bool)
    ensures Subsequence(Filter(s, p), s)
  {
    if s != [] {
      var rest := Filter(s[1..], p);
      FilterIsSubsequence(s[1..], p);
      var a := Filter(s, p);
      if p(s[0]) {
        assert a == [s[0]] + rest;
        assert a[0] == s[0] && a[1..] == rest;
        assert a[0] == s[0] && Subsequence(a[1..], s[1..]);
        assert a != [] && s != [];
      } else {
        assert a == rest;
        assert Subsequence(a, s[1..]);
      }
    }
  }

  /** `splice(i, 1)`: the sequence without position `i`, others in order. */
  function RemoveAt<T>(s: seq<T>, i: nat): (r: seq<T>)
    requires i < |s|
    ensures |r| == |s| - 1
    ensures forall j :: 0 <= j < i ==> r[j] == s[j]
    ensures forall j :: i <= j < |r| ==> r[j] == s[j + 1]
    ensures multiset(r) + multiset{s[i]} == multiset(s)
  {
    assert s == s[..i] + [s[i]] + s[i + 1..];
    s[..i] + s[i + 1..]
  }

  /** Keys never increase from left to right. */
  predicate SortedDesc<T>(s: seq<T>, key: T -> int) {
    forall i, j :: 0 <= i < j < |s| ==> key(s[i]) >= key(s[j])
  }

  /** Places `x` into a descending sequence. */
  function Insert<T>(x: T, s: seq<T>, key: T -> int): (r: seq<T>)
    requires SortedDesc(s, key)
    ensures SortedDesc(r, key)
    ensures multiset(r) == multiset(s) + multiset{x}
  {
    if s == [] || key(x) >= key(s[0]) then
      [x] + s
    else
      var rest := Insert(x, s[1..], key);
      assert s == [s[0]] + s[1..];
      BoundedPermutation(rest, s[1..], x, key, key(s[0]));
      ConsSorted(s[0], rest, key);
      [s[0]] + rest
  }

  /** A bound on the keys of `t` and of `x` bounds the keys of any
      rearrangement of `t` with `x` added. */
  lemma BoundedPermutation<T>(r: seq<T>, t: seq<T>, x: T, key: T -> int, k: int)
    requires multiset(r) == multiset(t) + multiset{x}
    requires forall i :: 0 <= i < |t| ==> key(t[i]) <= k
    requires key(x) <= k
    ensures forall i :: 0 <= i < |r| ==> key(r[i]) <= k
  {
    forall i | 0 <= i < |r|
      ensures key(r[i]) <= k
    {
      assert r[i] in multiset(r);
      if r[i] != x {
        assert r[i] in multiset(t);
        var j :| 0 <= j < |t| && t[j] == r[i];
      }
    }
  }

  /** A head no smaller than anything in a descending tail keeps it
      descending. */
  lemma ConsSorted<T>(h: T, t: seq<T>, key: T -> int)
    requires SortedDesc(t, key)
    requires forall i :: 0 <= i < |t| ==> key(t[i]) <= key(h)
    ensures SortedDesc([h] + t, key)
  {
    var r := [h] + t;
    forall i, j | 0 <= i < j < |r|
      ensures key(r[i]) >= key(r[j])
    {
      if i > 0 {
        assert r[i] == t[i - 1] && r[j] == t[j - 1];
      } else {
        assert r[j] == t[j - 1];
      }
    }
  }

  /** A descending permutation of `s` by `key` (an insertion sort): the
      `.sort({ field: -1 })` of the document store. */
  function SortDesc<T>(s: seq<T>, key: T -> int): (r: seq<T>)
    ensures SortedDesc(r, key)
    ensures multiset(r) == multiset(s)
  {
    if s == [] then []
    else
      assert s == [s[0]] + s[1..];
      Insert(s[0], SortDesc(s[1..], key), key)
  }

  /** A reordering holds only elements of the original, as many of them. */
  lemma ReorderedMembers<T>(a: seq<T>, b: seq<T>)
    requires multiset(a) == multiset(b)
    ensures forall i :: 0 <= i < |a| ==> a[i] in b
    ensures |a| == |b|
  {
    assert |multiset(a)| == |a| && |multiset(b)| == |b|;
    forall i | 0 <= i < |a|
      ensures a[i] in b
    {
      assert a[i] in multiset(a);
    }
  }

  /** Sequences with the same multiset hold the same elements. */
  lemma SameElements<T>(a: seq<T>, b: seq<T>)
    requires multiset(a) == multiset(b)
    ensures forall x :: x in a <==> x in b
  {
    forall x
      ensures x in a <==> x in b
    {
      assert x in a <==> x in multiset(a);
      assert x in b <==> x in multiset(b);
    }
  }
}
