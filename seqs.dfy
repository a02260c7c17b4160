/** Sequence operations that the pages use through JavaScript's array methods:
    `filter`, `filter((_, idx) => idx !== i)`, `slice(0, n)` and `includes`. */
module Seqs {

  /** `a` is an order-preserving subsequence of `b` (greedy matching). */
  predicate IsSubseq<T(==)>(a: seq<T>, b: seq<T>)
    decreases |b|
  {
    a == [] || (b != [] && if a[0] == b[0] then IsSubseq(a[1..], b[1..]) else IsSubseq(a, b[1..]))
  }

  lemma {:induction false} SubseqCons<T>(a: seq<T>, b: seq<T>, x: T)
    requires IsSubseq(a, b)
    ensures IsSubseq(a, [x] + b)
    decreases |b|, 1
  {
    if a != [] && a[0] == x {
      SubseqDropHead(a, b);
      assert ([x] + b)[1..] == b;
    } else if a != [] {
      assert ([x] + b)[1..] == b;
    }
  }

  lemma {:induction false} SubseqDropHead<T>(a: seq<T>, b: seq<T>)
    requires a != [] && IsSubseq(a, b)
    ensures IsSubseq(a[1..], b)
    decreases |b|, 0
  {
    assert b != [];
    if a[0] == b[0] {
      SubseqCons(a[1..], b[1..], b[0]);
      assert [b[0]] + b[1..] == b;
    } else {
      SubseqDropHead(a, b[1..]);
      SubseqCons(a[1..], b[1..], b[0]);
      assert [b[0]] + b[1..] == b;
    }
  }

  lemma {:induction false} SubseqRefl<T>(a: seq<T>)
    ensures IsSubseq(a, a)
  {
    if a != [] {
      SubseqRefl(a[1..]);
    }
  }

  /** `xs.filter(p)`. What it keeps is stated by FilterSpec. */
  function Filter<T>(xs: seq<T>, p: T -> bool): (r: seq<T>)
    ensures |r| <= |xs|
  {
    if xs == [] then []
    else if p(xs[0]) then [xs[0]] + Filter(xs[1..], p)
    else Filter(xs[1..], p)
  }

  /** The filtered sequence holds exactly the elements satisfying `p`, in their
      original order and with their multiplicities. */
  lemma {:induction false} FilterSpec<T>(xs: seq<T>, p: T -> bool)
    ensures forall x :: x in Filter(xs, p) ==> x in xs && p(x)
    ensures forall x :: x in xs && p(x) ==> multiset(Filter(xs, p))[x] == multiset(xs)[x]
    ensures forall x :: x in xs && p(x) ==> x in Filter(xs, p)
    ensures IsSubseq(Filter(xs, p), xs)
  {
    if xs != [] {
      FilterSpec(xs[1..], p);
      var rest := Filter(xs[1..], p);
      assert xs == [xs[0]] + xs[1..];
      if p(xs[0]) {
        assert ([xs[0]] + rest)[1..] == rest;
      } else {
        SubseqCons(rest, xs[1..], xs[0]);
      }
    }
  }

  /** Filtering keeps the whole sequence when every element passes. */
  lemma {:induction false} FilterAll<T>(xs: seq<T>, p: T -> bool)
    requires forall x :: x in xs ==> p(x)
    ensures Filter(xs, p) == xs
  {
    if xs != [] {
      FilterAll(xs[1..], p);
      assert xs == [xs[0]] + xs[1..];
    }
  }

  /** Filtering distributes over concatenation. */
  lemma {:induction false} FilterAppend<T>(a: seq<T>, b: seq<T>, p: T -> bool)
    ensures Filter(a + b, p) == Filter(a, p) + Filter(b, p)
  {
    if a != [] {
      FilterAppend(a[1..], b, p);
      var ab := a + b;
      assert ab[0] == a[0] && ab[1..] == a[1..] + b;
      assert Filter(ab, p) == (if p(a[0]) then [a[0]] else []) + Filter(a[1..] + b, p);
      assert Filter(a, p) == (if p(a[0]) then [a[0]] else []) + Filter(a[1..], p);
    } else {
      assert a + b == b;
    }
  }

  lemma AppendAssoc<T>(a: seq<T>, b: seq<T>, c: seq<T>)
    ensures (a + b) + c == a + (b + c)
  {
  }

  /** Both tests at once. */
  function Both<T>(p: T -> bool, q: T -> bool): T -> bool
  {
    x => p(x) && q(x)
  }

  /** Two filters in a row are one filter by both tests. */
  lemma {:induction false} FilterFilter<T>(xs: seq<T>, p: T -> bool, q: T -> bool)
    ensures Filter(Filter(xs, p), q) == Filter(xs, Both(p, q))
  {
    if xs != [] {
      FilterFilter(xs[1..], p, q);
    }
  }

  /** Two filters in a row keep, in order, exactly what passes both. */
  lemma FilterFilterSpec<T>(xs: seq<T>, p: T -> bool, q: T -> bool)
    ensures IsSubseq(Filter(Filter(xs, p), q), xs)
    ensures forall x :: x in Filter(Filter(xs, p), q) <==> x in xs && p(x) && q(x)
  {
    FilterFilter(xs, p, q);
    FilterSpec(xs, Both(p, q));
  }

  /** Filtering twice by the same predicate changes nothing the second time. */
  lemma FilterIdempotent<T>(xs: seq<T>, p: T -> bool)
    ensures Filter(Filter(xs, p), p) == Filter(xs, p)
  {
    FilterSpec(xs, p);
    FilterAll(Filter(xs, p), p);
  }

  /** `xs.slice(0, n)` for `n >= 0`. */
  function Take<T>(xs: seq<T>, n: nat): (r: seq<T>)
    ensures |r| <= n && |r| <= |xs|
    ensures |xs| <= n ==> r == xs
    ensures n <= |xs| ==> |r| == n
    ensures r <= xs
  {
    if |xs| <= n then xs else xs[..n]
  }

  /** `xs.filter((_, idx) => idx !== i)`: drop the entry at position `i`, if any. */
  function RemoveAt<T>(xs: seq<T>, i: int): (r: seq<T>)
    ensures 0 <= i < |xs| ==> r == xs[..i] + xs[i + 1..]
    ensures !(0 <= i < |xs|) ==> r == xs
    decreases |xs|
  {
    if xs == [] then []
    else if i == 0 then xs[1..]
    else [xs[0]] + RemoveAt(xs[1..], i - 1)
  }

  /** The set of the elements of a sequence. */
  function Elems<T(!new)>(xs: seq<T>): (r: set<T>)
    ensures forall x :: x in r <==> x in xs
  {
    if xs == [] then {} else {xs[0]} + Elems(xs[1..])
  }

  /** No value occurs twice. */
  predicate NoDup<T(==)>(xs: seq<T>)
  {
    forall i, j :: 0 <= i < j < |xs| ==> xs[i] != xs[j]
  }

  /** Removing an entry keeps a duplicate-free list duplicate-free, and keeps the
      other entries in order. */
  lemma RemoveAtKeepsNoDup<T>(xs: seq<T>, i: int)
    requires NoDup(xs)
    ensures NoDup(RemoveAt(xs, i))
    ensures IsSubseq(RemoveAt(xs, i), xs)
  {
    var r := RemoveAt(xs, i);
    if 0 <= i < |xs| {
      forall a, b | 0 <= a < b < |r| ensures r[a] != r[b] {
        var a' := if a < i then a else a + 1;
        var b' := if b < i then b else b + 1;
        assert r[a] == xs[a'] && r[b] == xs[b'];
      }
      RemoveAtSubseq(xs, i);
    } else {
      SubseqRefl(xs);
    }
  }

  lemma {:induction false} RemoveAtSubseq<T>(xs: seq<T>, i: int)
    ensures IsSubseq(RemoveAt(xs, i), xs)
    decreases |xs|
  {
    if xs == [] {
    } else if i == 0 {
      SubseqRefl(xs[1..]);
      SubseqCons(xs[1..], xs[1..], xs[0]);
      assert [xs[0]] + xs[1..] == xs;
    } else {
      RemoveAtSubseq(xs[1..], i - 1);
      var r := RemoveAt(xs, i);
      assert r == [xs[0]] + RemoveAt(xs[1..], i - 1);
      assert r[1..] == RemoveAt(xs[1..], i - 1);
    }
  }
}
