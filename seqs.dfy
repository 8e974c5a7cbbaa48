/** Order-preserving filtering (`Array.prototype.filter`), subsequences,
    first-occurrence de-duplication (`[...new Set(xs)]`) and the default
    string sort of `Array.prototype.sort`. */
module Seqs {

  /** `s.filter(p)`: the elements of `s` that satisfy `p`, in their order. */
  function Filter<T(!new)>(s: seq<T>, p: T -> bool): (r: seq<T>)
    ensures |r| <= |s|
    ensures forall x :: x in r <==> x in s && p(x)
  {
    if s == [] then [] else (if p(s[0]) then [s[0]] else []) + Filter(s[1..], p)
  }

  /** `a` is obtained from `b` by deleting elements, keeping the order of the rest. */
  ghost predicate IsSubsequence<T>(a: seq<T>, b: seq<T>)
    decreases |b|
  {
    a == [] ||
    (b != [] && ((a[0] == b[0] && IsSubsequence(a[1..], b[1..])) || IsSubsequence(a, b[1..])))
  }

  lemma {:induction false} FilterIsSubsequence<T(!new)>(s: seq<T>, p: T -> bool)
    ensures IsSubsequence(Filter(s, p), s)
  {
    if s != [] {
      FilterIsSubsequence(s[1..], p);
      assert Filter(s, p) == (if p(s[0]) then [s[0]] else []) + Filter(s[1..], p);
      if p(s[0]) {
        assert Filter(s, p)[1..] == Filter(s[1..], p);
      } else {
        assert Filter(s, p) == Filter(s[1..], p);
      }
    }
  }

  /** Filtering twice is filtering once by the conjunction. */
  lemma {:induction false} FilterFilter<T(!new)>(s: seq<T>, p: T -> bool, q: T -> bool, both: T -> bool)
    requires forall x :: both(x) == (p(x) && q(x))
    ensures Filter(Filter(s, p), q) == Filter(s, both)
  {
    if s != [] {
      FilterFilter(s[1..], p, q, both);
      var rest := Filter(s[1..], p);
      if p(s[0]) {
        assert Filter(s, p) == [s[0]] + rest;
        assert ([s[0]] + rest)[1..] == rest;
      } else {
        assert Filter(s, p) == rest;
      }
    }
  }

  /** Filters by predicates that agree everywhere agree. */
  lemma {:induction false} FilterCongruent<T(!new)>(s: seq<T>, p: T -> bool, q: T -> bool)
    requires forall x :: p(x) == q(x)
    ensures Filter(s, p) == Filter(s, q)
  {
    if s != [] {
      FilterCongruent(s[1..], p, q);
    }
  }

  /** A filter whose predicate holds of every element keeps everything. */
  lemma {:induction false} FilterKeepsAll<T(!new)>(s: seq<T>, p: T -> bool)
    requires forall i :: 0 <= i < |s| ==> p(s[i])
    ensures Filter(s, p) == s
  {
    if s != [] {
      FilterKeepsAll(s[1..], p);
      assert [s[0]] + s[1..] == s;
    }
  }

  /** A predicate and its negation keep, between them, as many elements as `s` has. */
  lemma {:induction false} FilterLengthSplit<T(!new)>(s: seq<T>, p: T -> bool, q: T -> bool)
    requires forall x :: q(x) == !p(x)
    ensures |Filter(s, p)| + |Filter(s, q)| == |s|
  {
    if s != [] {
      FilterLengthSplit(s[1..], p, q);
      assert q(s[0]) == !p(s[0]);
    }
  }

  lemma MultisetHeadTail<T>(s: seq<T>)
    requires s != []
    ensures multiset(s) == multiset{s[0]} + multiset(s[1..])
  {
    assert s == [s[0]] + s[1..];
  }

  lemma AddToLeft<T>(x: T, a: multiset<T>, b: multiset<T>)
    ensures (multiset{x} + a) + b == multiset{x} + (a + b)
  {
  }

  lemma AddToRight<T>(x: T, a: multiset<T>, b: multiset<T>)
    ensures (multiset{} + a) + (multiset{x} + b) == multiset{x} + (a + b)
  {
  }

  /** Filtering a non-empty sequence, counted as a multiset: the head if it
      passes, then what passes in the tail. */
  lemma FilterStep<T(!new)>(s: seq<T>, p: T -> bool)
    requires s != []
    ensures multiset(Filter(s, p)) == (if p(s[0]) then multiset{s[0]} else multiset{}) + multiset(Filter(s[1..], p))
  {
    assert Filter(s, p) == (if p(s[0]) then [s[0]] else []) + Filter(s[1..], p);
  }

  /** A predicate and its negation split a sequence into two parts that
      together hold every element exactly once. */
  lemma {:induction false} FilterPartition<T(!new)>(s: seq<T>, p: T -> bool, q: T -> bool)
    requires forall x :: q(x) == !p(x)
    ensures |Filter(s, p)| + |Filter(s, q)| == |s|
    ensures multiset(Filter(s, p)) + multiset(Filter(s, q)) == multiset(s)
  {
    FilterLengthSplit(s, p, q);
    if s != [] {
      FilterPartition(s[1..], p, q);
      var a, b := multiset(Filter(s[1..], p)), multiset(Filter(s[1..], q));
      FilterStep(s, p);
      FilterStep(s, q);
      MultisetHeadTail(s);
      if p(s[0]) {
        AddToLeft(s[0], a, b);
      } else {
        assert q(s[0]);
        AddToRight(s[0], a, b);
      }
    }
  }

  ghost predicate NoDuplicates<T>(s: seq<T>) {
    forall i, j :: 0 <= i < j < |s| ==> s[i] != s[j]
  }

  /** Two sequences with the same elements and multiplicities agree on being duplicate-free. */
  lemma NoDuplicatesByMultiset<T>(s: seq<T>, t: seq<T>)
    requires multiset(s) == multiset(t) && NoDuplicates(s)
    ensures NoDuplicates(t)
  {
    forall i, j | 0 <= i < j < |t| ensures t[i] != t[j] {
      if t[i] == t[j] {
        var x := t[i];
        assert t == t[..i] + [x] + t[i + 1..j] + [x] + t[j + 1..];
        assert multiset(t)[x] >= 2;
        DuplicateFree(s, x);
        assert false;
      }
    }
  }

  /** In a duplicate-free sequence every element occurs at most once. */
  lemma {:induction false} DuplicateFree<T>(s: seq<T>, x: T)
    requires NoDuplicates(s)
    ensures multiset(s)[x] <= 1
  {
    if s != [] {
      assert s == [s[0]] + s[1..];
      DuplicateFree(s[1..], x);
      if s[0] == x {
        assert x !in s[1..];
      }
    }
  }

  /** `x` occurs in `s` before the first occurrence of `y`. */
  ghost predicate FirstBefore<T>(s: seq<T>, x: T, y: T) {
    exists k :: 0 <= k < |s| && s[k] == x && y !in s[..k]
  }

  /** The elements of `r` appear in the order of their first occurrences in `s`. */
  ghost predicate InFirstOccurrenceOrder<T>(r: seq<T>, s: seq<T>) {
    forall i, j :: 0 <= i < j < |r| ==> FirstBefore(s, r[i], r[j])
  }

  /** An order of first occurrences in the tail of `s` still holds in `s`
      for elements other than its head. */
  lemma FirstBeforeCons<T>(s: seq<T>, x: T, y: T)
    requires s != [] && FirstBefore(s[1..], x, y) && y != s[0]
    ensures FirstBefore(s, x, y)
  {
    var k :| 0 <= k < |s[1..]| && s[1..][k] == x && y !in s[1..][..k];
    assert s[..k + 1] == [s[0]] + s[1..][..k];
  }

  lemma OrderSkippingHead<T>(s: seq<T>, rest: seq<T>)
    requires s != [] && s[0] !in rest && InFirstOccurrenceOrder(rest, s[1..])
    ensures InFirstOccurrenceOrder(rest, s)
  {
    forall i, j | 0 <= i < j < |rest| ensures FirstBefore(s, rest[i], rest[j]) {
      FirstBeforeCons(s, rest[i], rest[j]);
    }
  }

  lemma OrderKeepingHead<T>(s: seq<T>, rest: seq<T>)
    requires s != [] && s[0] !in rest && InFirstOccurrenceOrder(rest, s[1..])
    ensures InFirstOccurrenceOrder([s[0]] + rest, s)
  {
    var r := [s[0]] + rest;
    forall i, j | 0 <= i < j < |r| ensures FirstBefore(s, r[i], r[j]) {
      if i == 0 {
        assert s[0] == r[i] && r[j] !in s[..0];
      } else {
        assert r[i] == rest[i - 1] && r[j] == rest[j - 1];
        FirstBeforeCons(s, rest[i - 1], rest[j - 1]);
      }
    }
  }

  /** The elements of `s` not in `seen`, each once, in order of first occurrence:
      the iteration order of a JavaScript `Set` built from `s`. */
  function DistinctFrom<T(==,!new)>(s: seq<T>, seen: set<T>): (r: seq<T>)
    ensures NoDuplicates(r)
    ensures forall x :: x in r <==> x in s && x !in seen
    ensures IsSubsequence(r, s)
    ensures InFirstOccurrenceOrder(r, s)
  {
    if s == [] then []
    else if s[0] in seen then
      var rest := DistinctFrom(s[1..], seen);
      assert IsSubsequence(rest, s) by { assert rest == [] || IsSubsequence(rest, s[1..]); }
      OrderSkippingHead(s, rest);
      rest
    else
      var rest := DistinctFrom(s[1..], seen + {s[0]});
      assert ([s[0]] + rest)[1..] == rest;
      OrderKeepingHead(s, rest);
      [s[0]] + rest
  }

  /** `[...new Set(s)]`. */
  function Distinct<T(==,!new)>(s: seq<T>): (r: seq<T>)
    ensures NoDuplicates(r)
    ensures forall x :: x in r <==> x in s
    ensures IsSubsequence(r, s)
    ensures InFirstOccurrenceOrder(r, s)
  {
    DistinctFrom(s, {})
  }

  /** The default comparison of `Array.prototype.sort` on strings: character by
      character, a proper prefix first. JavaScript compares UTF-16 code units,
      which orders the same way for characters of the Basic Multilingual Plane. */
  predicate CharLessEq(a: string, b: string) {
    a == [] || (b != [] && (a[0] < b[0] || (a[0] == b[0] && CharLessEq(a[1..], b[1..]))))
  }

  lemma {:induction false} CharOrderTotal(a: string, b: string)
    ensures CharLessEq(a, b) || CharLessEq(b, a)
  {
    if a != [] && b != [] && a[0] == b[0] {
      CharOrderTotal(a[1..], b[1..]);
    }
  }

  lemma {:induction false} CharOrderTransitive(a: string, b: string, c: string)
    requires CharLessEq(a, b) && CharLessEq(b, c)
    ensures CharLessEq(a, c)
  {
    if a != [] && a[0] == b[0] && b[0] == c[0] {
      CharOrderTransitive(a[1..], b[1..], c[1..]);
    }
  }

  lemma {:induction false} CharOrderAntisymmetric(a: string, b: string)
    requires CharLessEq(a, b) && CharLessEq(b, a)
    ensures a == b
  {
    if a != [] {
      CharOrderAntisymmetric(a[1..], b[1..]);
      assert a == [a[0]] + a[1..] && b == [b[0]] + b[1..];
    }
  }

  ghost predicate SortedByChars(s: seq<string>) {
    forall i, j :: 0 <= i < j < |s| ==> CharLessEq(s[i], s[j])
  }

  /** Putting in front of a sorted sequence an element no greater than any of
      its elements keeps it sorted. */
  lemma SortedCons(x: string, s: seq<string>)
    requires SortedByChars(s)
    requires forall y :: y in multiset(s) ==> CharLessEq(x, y)
    ensures SortedByChars([x] + s)
  {
    var r := [x] + s;
    forall i, j | 0 <= i < j < |r| ensures CharLessEq(r[i], r[j]) {
      if i == 0 {
        assert r[j] == s[j - 1];
        assert r[j] in multiset(s);
      } else {
        assert r[i] == s[i - 1] && r[j] == s[j - 1];
      }
    }
  }

  /** The head of a sorted sequence is no greater than any later element. */
  lemma HeadIsLeast(s: seq<string>)
    requires SortedByChars(s) && s != []
    ensures forall y :: y in multiset(s[1..]) ==> CharLessEq(s[0], y)
  {
    forall y | y in multiset(s[1..]) ensures CharLessEq(s[0], y) {
      var j :| 0 <= j < |s[1..]| && s[1..][j] == y;
      assert s[j + 1] == y;
    }
  }

  function InsertByChars(x: string, s: seq<string>): (r: seq<string>)
    requires SortedByChars(s)
    ensures SortedByChars(r)
    ensures multiset(r) == multiset(s) + multiset{x}
  {
    if s == [] then [x]
    else if CharLessEq(x, s[0]) then
      assert forall y :: y in multiset(s) ==> CharLessEq(x, y) by {
        forall y | y in multiset(s) ensures CharLessEq(x, y) {
          var j :| 0 <= j < |s| && s[j] == y;
          if j > 0 { CharOrderTransitive(x, s[0], s[j]); }
        }
      }
      SortedCons(x, s);
      [x] + s
    else
      var rest := InsertByChars(x, s[1..]);
      CharOrderTotal(x, s[0]);
      assert s == [s[0]] + s[1..];
      HeadIsLeast(s);
      assert forall y :: y in multiset(rest) ==> CharLessEq(s[0], y) by {
        forall y | y in multiset(rest) ensures CharLessEq(s[0], y) {
          if y != x {
            assert y in multiset(s[1..]);
          }
        }
      }
      SortedCons(s[0], rest);
      [s[0]] + rest
  }

  /** Sequences with the same multiset have the same members. */
  lemma SameMembers<T>(a: seq<T>, b: seq<T>)
    requires multiset(a) == multiset(b)
    ensures forall x :: x in a <==> x in b
  {
    forall x ensures x in a <==> x in b {
      assert x in a <==> x in multiset(a);
      assert x in b <==> x in multiset(b);
    }
  }

  /** `s.sort()` on strings: a permutation of `s` in `CharLessEq` order. */
  function SortByChars(s: seq<string>): (r: seq<string>)
    ensures SortedByChars(r)
    ensures multiset(r) == multiset(s)
    ensures NoDuplicates(s) ==> NoDuplicates(r)
  {
    if s == [] then []
    else
      assert s == [s[0]] + s[1..];
      var r := InsertByChars(s[0], SortByChars(s[1..]));
      assert NoDuplicates(s) ==> NoDuplicates(r) by {
        if NoDuplicates(s) { NoDuplicatesByMultiset(s, r); }
      }
      r
  }
}
