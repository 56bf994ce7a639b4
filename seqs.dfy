/**
 * Sequence vocabulary used by several modules: duplicate-freedom, order
 * preserving subsequences, first-occurrence deduplication (the
 * "skip what was already seen" loops of the source), filtering and a stable sort by
 * a descending key (Python's `sorted(..., reverse=True)` and SQL's
 * `ORDER BY ... DESC`).
 */
module Seqs {

  /** No element occurs twice. */
  predicate Distinct<T(==)>(s: seq<T>)
  {
    forall i, j :: 0 <= i < j < |s| ==> s[i] != s[j]
  }

  /** `a` is `b` with some elements dropped and the order of the rest kept. */
  predicate IsSubsequence<T(==)>(a: seq<T>, b: seq<T>)
    decreases |b|
  {
    if a == [] then true
    else if b == [] then false
    else if a[|a| - 1] == b[|b| - 1] then IsSubsequence(a[..|a| - 1], b[..|b| - 1])
    else IsSubsequence(a, b[..|b| - 1])
  }

  lemma {:induction false} SubsequenceMembers<T>(a: seq<T>, b: seq<T>)
    requires IsSubsequence(a, b)
    ensures |a| <= |b|
    ensures forall x :: x in a ==> x in b
    decreases |b|
  {
    if a != [] {
      if a[|a| - 1] == b[|b| - 1] {
        SubsequenceMembers(a[..|a| - 1], b[..|b| - 1]);
        assert a == a[..|a| - 1] + [a[|a| - 1]];
        assert b == b[..|b| - 1] + [b[|b| - 1]];
      } else {
        SubsequenceMembers(a, b[..|b| - 1]);
        assert b == b[..|b| - 1] + [b[|b| - 1]];
      }
    }
  }

  /** A subsequence stays one when the longer sequence grows at its end. */
  lemma {:induction false} SubsequenceExtend<T>(a: seq<T>, b: seq<T>, x: T)
    requires IsSubsequence(a, b)
    ensures IsSubsequence(a, b + [x])
    decreases |b|, 1
  {
    if a != [] {
      assert (b + [x])[..|b|] == b;
      if a[|a| - 1] == x {
        SubsequenceDropLast(a, b);
      }
    }
  }

  /** Dropping the last element of a subsequence leaves a subsequence. */
  lemma {:induction false} SubsequenceDropLast<T>(a: seq<T>, b: seq<T>)
    requires a != [] && IsSubsequence(a, b)
    ensures IsSubsequence(a[..|a| - 1], b)
    decreases |b|, 0
  {
    if a[|a| - 1] == b[|b| - 1] {
      SubsequenceExtend(a[..|a| - 1], b[..|b| - 1], b[|b| - 1]);
      assert b[..|b| - 1] + [b[|b| - 1]] == b;
    } else {
      SubsequenceDropLast(a, b[..|b| - 1]);
      SubsequenceExtend(a[..|a| - 1], b[..|b| - 1], b[|b| - 1]);
      assert b[..|b| - 1] + [b[|b| - 1]] == b;
    }
  }

  /** Equal last elements can be added to both sides. */
  lemma SubsequenceSnoc<T>(a: seq<T>, b: seq<T>, x: T)
    requires IsSubsequence(a, b)
    ensures IsSubsequence(a + [x], b + [x])
  {
    assert (a + [x])[..|a|] == a;
    assert (b + [x])[..|b|] == b;
  }

  lemma {:induction false} SubsequenceReflexive<T>(s: seq<T>)
    ensures IsSubsequence(s, s)
    decreases |s|
  {
    if s != [] {
      SubsequenceReflexive(s[..|s| - 1]);
    }
  }

  /** Every prefix is a subsequence. */
  lemma {:induction false} PrefixIsSubsequence<T>(s: seq<T>, n: nat)
    requires n <= |s|
    ensures IsSubsequence(s[..n], s)
    decreases |s|
  {
    if n == |s| {
      assert s[..n] == s;
      SubsequenceReflexive(s);
    } else {
      PrefixIsSubsequence(s[..|s| - 1], n);
      assert s[..|s| - 1][..n] == s[..n];
      SubsequenceExtend(s[..n], s[..|s| - 1], s[|s| - 1]);
      assert s[..|s| - 1] + [s[|s| - 1]] == s;
    }
  }

  lemma {:induction false} SubsequenceTransitive<T>(a: seq<T>, b: seq<T>, c: seq<T>)
    requires IsSubsequence(a, b) && IsSubsequence(b, c)
    ensures IsSubsequence(a, c)
    decreases |c|
  {
    if a != [] {
      SubsequenceMembers(b, c);
      if b[|b| - 1] == c[|c| - 1] {
        if a[|a| - 1] == b[|b| - 1] {
          SubsequenceTransitive(a[..|a| - 1], b[..|b| - 1], c[..|c| - 1]);
        } else {
          SubsequenceTransitive(a, b[..|b| - 1], c[..|c| - 1]);
        }
      } else {
        SubsequenceTransitive(a, b, c[..|c| - 1]);
        SubsequenceExtend(a, c[..|c| - 1], c[|c| - 1]);
        assert c[..|c| - 1] + [c[|c| - 1]] == c;
      }
    }
  }

  /** The first occurrence of every element, in the order they first appear. */
  function Dedupe<T(==)>(s: seq<T>): seq<T>
    decreases |s|
  {
    if s == [] then []
    else
      var d := Dedupe(s[..|s| - 1]);
      var x := s[|s| - 1];
      if x in d then d else d + [x]
  }

  /** Deduplication keeps exactly the elements of the input. */
  lemma {:induction false} DedupeMembers<T>(s: seq<T>)
    ensures forall x :: x in Dedupe(s) <==> x in s
    decreases |s|
  {
    if s != [] {
      DedupeMembers(s[..|s| - 1]);
      assert s == s[..|s| - 1] + [s[|s| - 1]];
    }
  }

  /** Deduplication leaves no element twice. */
  lemma {:induction false} DedupeDistinct<T>(s: seq<T>)
    ensures Distinct(Dedupe(s))
    decreases |s|
  {
    if s != [] {
      DedupeDistinct(s[..|s| - 1]);
    }
  }

  /** Deduplication keeps the order of the elements it keeps. */
  lemma {:induction false} DedupeSubsequence<T>(s: seq<T>)
    ensures IsSubsequence(Dedupe(s), s)
    decreases |s|
  {
    if s != [] {
      var p := s[..|s| - 1];
      var x := s[|s| - 1];
      var d := Dedupe(p);
      DedupeSubsequence(p);
      assert p + [x] == s;
      if x in d {
        SubsequenceExtend(d, p, x);
      } else {
        SubsequenceSnoc(d, p, x);
      }
    }
  }

  /** One more element can only extend the deduplicated list. */
  lemma DedupeStep<T>(s: seq<T>)
    requires s != []
    ensures Dedupe(s[..|s| - 1]) <= Dedupe(s)
  {
  }

  /** Deduplicating a prefix gives a prefix of the deduplicated whole: elements keep their first-occurrence order. */
  lemma {:induction false} DedupePrefix<T>(s: seq<T>, n: nat)
    requires n <= |s|
    ensures Dedupe(s[..n]) <= Dedupe(s)
    decreases |s|
  {
    if n < |s| {
      var p := s[..|s| - 1];
      assert p[..n] == s[..n];
      DedupePrefix(p, n);
      var a, b, c := Dedupe(s[..n]), Dedupe(p), Dedupe(s);
      assert a <= b;
      DedupeStep(s);
      assert b <= c;
      PrefixTransitive(a, b, c);
    } else {
      assert s[..n] == s;
    }
  }

  lemma PrefixTransitive<T>(a: seq<T>, b: seq<T>, c: seq<T>)
    requires a <= b && b <= c
    ensures a <= c
  {
  }

  /** A duplicate-free sequence is its own deduplication. */
  lemma {:induction false} DedupeOfDistinct<T>(s: seq<T>)
    requires Distinct(s)
    ensures Dedupe(s) == s
    decreases |s|
  {
    if s != [] {
      DedupeOfDistinct(s[..|s| - 1]);
      assert s[|s| - 1] !in s[..|s| - 1];
      assert s[..|s| - 1] + [s[|s| - 1]] == s;
    }
  }

  /** `f` applied to every element of `s`, in order (a list comprehension without a condition). */
  function Map<S, T>(f: S -> T, s: seq<S>): (r: seq<T>)
    ensures |r| == |s|
    decreases |s|
  {
    if s == [] then [] else Map(f, s[..|s| - 1]) + [f(s[|s| - 1])]
  }

  /** Element `i` of the mapped list is `f` of element `i`. */
  lemma {:induction false} MapAt<S, T>(f: S -> T, s: seq<S>)
    ensures forall i :: 0 <= i < |s| ==> Map(f, s)[i] == f(s[i])
    decreases |s|
  {
    if s != [] {
      var n := |s| - 1;
      MapAt(f, s[..n]);
      forall i | 0 <= i < n ensures Map(f, s[..n])[i] == f(s[i]) {
        assert s[..n][i] == s[i];
      }
    }
  }

  /** Mapping a list with one more element adds `f` of that element at the end. */
  lemma MapSnoc<S, T>(f: S -> T, s: seq<S>, x: S)
    ensures Map(f, s + [x]) == Map(f, s) + [f(x)]
  {
    assert (s + [x])[..|s|] == s;
  }

  /** The elements of `s` that satisfy `p`, in order (a list comprehension with a condition). */
  function Filter<T>(s: seq<T>, p: T -> bool): seq<T>
    decreases |s|
  {
    if s == [] then []
    else
      var f := Filter(s[..|s| - 1], p);
      if p(s[|s| - 1]) then f + [s[|s| - 1]] else f
  }

  /** One more element joins the filtered list iff it satisfies `p`. */
  lemma FilterSnoc<T>(s: seq<T>, x: T, p: T -> bool)
    ensures Filter(s + [x], p) == if p(x) then Filter(s, p) + [x] else Filter(s, p)
  {
    assert (s + [x])[..|s|] == s;
  }

  /** The filtered list holds exactly the elements that satisfy `p`. */
  lemma {:induction false} FilterMembers<T>(s: seq<T>, p: T -> bool)
    ensures forall x :: x in Filter(s, p) <==> x in s && p(x)
    decreases |s|
  {
    if s != [] {
      FilterMembers(s[..|s| - 1], p);
      assert s == s[..|s| - 1] + [s[|s| - 1]];
    }
  }

  /** An element of the filtered list is in the list and satisfies `p`. */
  lemma FilterIn<T>(s: seq<T>, p: T -> bool, y: T)
    requires y in Filter(s, p)
    ensures y in s && p(y)
  {
    FilterMembers(s, p);
  }

  /** Filtering keeps the order of what it keeps. */
  lemma {:induction false} FilterSubsequence<T>(s: seq<T>, p: T -> bool)
    ensures IsSubsequence(Filter(s, p), s)
    decreases |s|
  {
    if s != [] {
      var q := s[..|s| - 1];
      var x := s[|s| - 1];
      var f := Filter(q, p);
      FilterSubsequence(q, p);
      assert q + [x] == s;
      if p(x) {
        SubsequenceSnoc(f, q, x);
      } else {
        SubsequenceExtend(f, q, x);
      }
    }
  }

  /** A filter and its complement split a sequence: their lengths add up. */
  lemma {:induction false} FilterPartition<T>(s: seq<T>, p: T -> bool, q: T -> bool)
    requires forall x :: q(x) == !p(x)
    ensures |Filter(s, p)| + |Filter(s, q)| == |s|
    decreases |s|
  {
    if s != [] {
      FilterPartition(s[..|s| - 1], p, q);
    }
  }

  /** Nothing passes a filter that rejects every element. */
  lemma {:induction false} FilterNone<T>(s: seq<T>, p: T -> bool)
    requires forall i :: 0 <= i < |s| ==> !p(s[i])
    ensures Filter(s, p) == []
    decreases |s|
  {
    if s != [] {
      FilterNone(s[..|s| - 1], p);
    }
  }

  /** One more element is appended to the deduplicated filter iff it satisfies `p` and is not in it yet. */
  lemma DedupeFilterSnoc<T>(s: seq<T>, x: T, p: T -> bool)
    ensures Dedupe(Filter(s + [x], p)) ==
      if p(x) && x !in Dedupe(Filter(s, p)) then Dedupe(Filter(s, p)) + [x] else Dedupe(Filter(s, p))
  {
    var f := Filter(s, p);
    FilterSnoc(s, x, p);
    DedupeMembers(f);
    if p(x) {
      assert (f + [x])[..|f|] == f;
    }
  }

  /** Extending the input only extends the deduplicated filter. */
  lemma DedupeFilterMonotonic<T>(s: seq<T>, x: T, p: T -> bool)
    ensures Dedupe(Filter(s, p)) <= Dedupe(Filter(s + [x], p))
  {
    var f := Filter(s, p);
    FilterSnoc(s, x, p);
    if p(x) {
      assert (f + [x])[..|f|] == f;
      DedupePrefix(f + [x], |f|);
    }
  }

  /** One element that passes. */
  lemma DedupeFilterOfOne<T>(a: T, p: T -> bool)
    requires p(a)
    ensures Dedupe(Filter([a], p)) == [a]
  {
    DedupeFilterSnoc([], a, p);
    assert [] + [a] == [a];
  }

  /** Two distinct elements that pass: both stay, in order. */
  lemma DedupeFilterOfTwo<T>(a: T, b: T, p: T -> bool)
    requires p(a) && p(b) && a != b
    ensures Dedupe(Filter([a, b], p)) == [a, b]
  {
    DedupeFilterOfOne(a, p);
    DedupeFilterSnoc([a], b, p);
    assert [a] + [b] == [a, b];
  }

  /** Two distinct elements that pass and a third that does not: the first two stay, in order. */
  lemma DedupeFilterOfThree<T>(a: T, b: T, c: T, p: T -> bool)
    requires p(a) && p(b) && !p(c) && a != b
    ensures Dedupe(Filter([a, b, c], p)) == [a, b]
  {
    DedupeFilterOfTwo(a, b, p);
    DedupeFilterSnoc([a, b], c, p);
    assert [a, b] + [c] == [a, b, c];
  }

  /** Insert `x` into a list sorted by non-increasing `key`, after every element whose key is at least `key(x)`. */
  function InsertDesc<T>(x: T, s: seq<T>, key: T -> real): (r: seq<T>)
    ensures |r| == |s| + 1
    ensures multiset(r) == multiset(s) + multiset{x}
    decreases |s|
  {
    if s == [] then [x]
    else if key(s[0]) < key(x) then [x] + s
    else
      assert s == [s[0]] + s[1..];
      [s[0]] + InsertDesc(x, s[1..], key)
  }

  /** Sorted by non-increasing `key`. */
  predicate SortedDesc<T>(s: seq<T>, key: T -> real)
  {
    forall i, j :: 0 <= i < j < |s| ==> key(s[i]) >= key(s[j])
  }

  /** The elements of `s` whose key is `k`, in order. */
  function WithKey<T>(s: seq<T>, key: T -> real, k: real): (r: seq<T>)
    ensures |r| <= |s|
    decreases |s|
  {
    if s == [] then []
    else (if key(s[0]) == k then [s[0]] else []) + WithKey(s[1..], key, k)
  }

  /** Stable sort by non-increasing `key` (insertion sort, each element placed after its equals). */
  function SortDesc<T>(s: seq<T>, key: T -> real): (r: seq<T>)
    ensures |r| == |s|
    ensures multiset(r) == multiset(s)
    decreases |s|
  {
    if s == [] then []
    else
      assert s == s[..|s| - 1] + [s[|s| - 1]];
      InsertDesc(s[|s| - 1], SortDesc(s[..|s| - 1], key), key)
  }

  lemma {:induction false} InsertDescSorted<T>(x: T, s: seq<T>, key: T -> real)
    requires SortedDesc(s, key)
    ensures SortedDesc(InsertDesc(x, s, key), key)
    decreases |s|
  {
    if s != [] && key(s[0]) >= key(x) {
      InsertDescSorted(x, s[1..], key);
      var r := InsertDesc(x, s, key);
      var t := InsertDesc(x, s[1..], key);
      assert r == [s[0]] + t;
      forall j | 0 < j < |r| ensures key(r[0]) >= key(r[j]) {
        assert r[j] == t[j - 1];
        assert t[j - 1] in multiset(s[1..]) + multiset{x};
        if r[j] != x {
          assert r[j] in s[1..];
        }
      }
    }
  }

  /** WithKey distributes over concatenation. */
  lemma {:induction false} WithKeyAppend<T>(a: seq<T>, b: seq<T>, key: T -> real, k: real)
    ensures WithKey(a + b, key, k) == WithKey(a, key, k) + WithKey(b, key, k)
    decreases |a|
  {
    if a == [] {
      assert a + b == b;
    } else {
      var h := if key(a[0]) == k then [a[0]] else [];
      assert (a + b)[0] == a[0];
      assert (a + b)[1..] == a[1..] + b;
      assert WithKey(a + b, key, k) == h + WithKey(a[1..] + b, key, k);
      assert WithKey(a, key, k) == h + WithKey(a[1..], key, k);
      WithKeyAppend(a[1..], b, key, k);
    }
  }

  /** In a list sorted by non-increasing key whose first key is below `k`, no key equals `k`. */
  lemma {:induction false} WithKeyNone<T>(s: seq<T>, key: T -> real, k: real)
    requires SortedDesc(s, key) && s != [] && key(s[0]) < k
    ensures WithKey(s, key, k) == []
    decreases |s|
  {
    if |s| > 1 {
      assert key(s[1]) <= key(s[0]);
      WithKeyNone(s[1..], key, k);
    }
  }

  /** Inserting `x` puts it after every element with its key. */
  lemma {:induction false} InsertDescStable<T>(x: T, s: seq<T>, key: T -> real, k: real)
    requires SortedDesc(s, key)
    ensures WithKey(InsertDesc(x, s, key), key, k) == WithKey(s, key, k) + WithKey([x], key, k)
    decreases |s|
  {
    var xk := WithKey([x], key, k);
    assert xk == if key(x) == k then [x] else [];
    if s == [] {
    } else if key(s[0]) < key(x) {
      WithKeyAppend([x], s, key, k);
      if key(x) == k {
        WithKeyNone(s, key, k);
      }
    } else {
      InsertDescStable(x, s[1..], key, k);
      assert InsertDesc(x, s, key)[1..] == InsertDesc(x, s[1..], key);
    }
  }

  /** Sorting one more element keeps the order among the elements with key `k`. */
  lemma SortDescSnocStable<T>(p: seq<T>, x: T, key: T -> real, k: real)
    requires SortedDesc(SortDesc(p, key), key)
    requires WithKey(SortDesc(p, key), key, k) == WithKey(p, key, k)
    ensures WithKey(SortDesc(p + [x], key), key, k) == WithKey(p + [x], key, k)
  {
    assert (p + [x])[..|p|] == p;
    assert SortDesc(p + [x], key) == InsertDesc(x, SortDesc(p, key), key);
    InsertDescStable(x, SortDesc(p, key), key, k);
    WithKeyAppend(p, [x], key, k);
  }

  /** SortDesc sorts, and keeps the input order among elements with equal keys. */
  lemma {:induction false} SortDescCorrect<T>(s: seq<T>, key: T -> real)
    ensures SortedDesc(SortDesc(s, key), key)
    ensures forall k :: WithKey(SortDesc(s, key), key, k) == WithKey(s, key, k)
    decreases |s|
  {
    if s != [] {
      var p := s[..|s| - 1];
      var x := s[|s| - 1];
      assert s == p + [x];
      SortDescCorrect(p, key);
      InsertDescSorted(x, SortDesc(p, key), key);
      forall k ensures WithKey(SortDesc(p + [x], key), key, k) == WithKey(p + [x], key, k) {
        SortDescSnocStable(p, x, key, k);
      }
    }
  }
}
