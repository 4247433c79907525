/**
  Sequence vocabulary shared by the pages: order-preserving subsequences,
  duplicate-freedom, first occurrences, and the insertion-ordered
  de-duplication performed by a JavaScript `Set` built from an array.
 */
module Seqs {

  /** `a` is obtained from `b` by deleting elements, keeping the order of the rest. */
  predicate IsSubsequence<T(==)>(a: seq<T>, b: seq<T>)
    decreases |b|
  {
    && |a| <= |b|
    && (|a| == 0
        || (a[0] == b[0] && IsSubsequence(a[1..], b[1..]))
        || IsSubsequence(a, b[1..]))
  }

  /** No element occurs twice. */
  predicate NoDuplicates<T(==)>(xs: seq<T>) {
    forall i, j :: 0 <= i < j < |xs| ==> xs[i] != xs[j]
  }

  /** Prepending an element that is not yet present keeps a sequence duplicate-free. */
  lemma PrependKeepsNoDuplicates<T>(x: T, xs: seq<T>)
    requires NoDuplicates(xs) && x !in xs
    ensures NoDuplicates([x] + xs)
  {
    var r := [x] + xs;
    forall i, j | 0 <= i < j < |r| ensures r[i] != r[j] {
      if i > 0 {
        assert r[i] == xs[i - 1] && r[j] == xs[j - 1];
      } else {
        assert r[j] == xs[j - 1];
      }
    }
  }

  /** In a duplicate-free sequence every element is counted at most once. */
  lemma {:induction false} NoDuplicatesCountAtMostOne<T>(xs: seq<T>, x: T)
    requires NoDuplicates(xs)
    ensures multiset(xs)[x] <= 1
  {
    if |xs| > 0 {
      assert xs == [xs[0]] + xs[1..];
      assert NoDuplicates(xs[1..]);
      NoDuplicatesCountAtMostOne(xs[1..], x);
      if x == xs[0] {
        assert x !in xs[1..];
      }
    }
  }

  /** Position of the first occurrence of `x` in `xs`. */
  function FirstIndex<T(==)>(xs: seq<T>, x: T): (r: nat)
    requires x in xs
    ensures r < |xs| && xs[r] == x
    ensures forall j :: 0 <= j < r ==> xs[j] != x
  {
    if xs[0] == x then 0 else 1 + FirstIndex(xs[1..], x)
  }

  /** Elements of `d` appear in the order of their first occurrence in `xs`. */
  predicate FirstOccurrenceOrder<T(==)>(xs: seq<T>, d: seq<T>)
    requires forall i :: 0 <= i < |d| ==> d[i] in xs
  {
    forall i, j :: 0 <= i < j < |d| ==> FirstIndex(xs, d[i]) < FirstIndex(xs, d[j])
  }

  /** Appending an element does not move any earlier first occurrence. */
  lemma FirstIndexAppend<T>(xs: seq<T>, z: T, x: T)
    requires x in xs
    ensures FirstIndex(xs + [z], x) == FirstIndex(xs, x)
  {
    var r1 := FirstIndex(xs, x);
    var r2 := FirstIndex(xs + [z], x);
    assert (xs + [z])[r1] == x;
  }

  /**
    The array `[...new Set(xs)]`: elements are inserted from left to right and
    an element already in the set is skipped.
   */
  function Dedup<T(==)>(xs: seq<T>): (d: seq<T>)
    ensures forall i :: 0 <= i < |d| ==> d[i] in xs
    ensures forall i :: 0 <= i < |xs| ==> xs[i] in d
    ensures NoDuplicates(d)
    ensures |d| <= |xs|
  {
    if |xs| == 0 then []
    else
      var kept := Dedup(xs[..|xs| - 1]);
      var x := xs[|xs| - 1];
      assert xs == xs[..|xs| - 1] + [x];
      if x in kept then kept else kept + [x]
  }

  /** `Dedup` lists the distinct elements in first-occurrence order. */
  lemma {:induction false} DedupFirstOccurrenceOrder<T>(xs: seq<T>)
    ensures FirstOccurrenceOrder(xs, Dedup(xs))
    decreases |xs|
  {
    if |xs| > 0 {
      var init := xs[..|xs| - 1];
      var x := xs[|xs| - 1];
      assert xs == init + [x];
      var kept := Dedup(init);
      DedupFirstOccurrenceOrder(init);
      forall y | y in kept
        ensures FirstIndex(xs, y) == FirstIndex(init, y)
      {
        FirstIndexAppend(init, x, y);
      }
      if x !in kept {
        assert FirstIndex(xs, x) == |init|;
        var d := kept + [x];
        forall i, j | 0 <= i < j < |d|
          ensures FirstIndex(xs, d[i]) < FirstIndex(xs, d[j])
        {
          if j < |kept| {
            assert d[i] == kept[i] && d[j] == kept[j];
          } else {
            assert d[i] == kept[i];
          }
        }
      }
    }
  }

  /**
    Independent characterisation: any duplicate-free list of exactly the
    elements of `xs`, in first-occurrence order, is `Dedup(xs)`.
   */
  lemma {:induction false} DedupUnique<T>(xs: seq<T>, d: seq<T>)
    requires forall x :: x in d <==> x in xs
    requires NoDuplicates(d)
    requires FirstOccurrenceOrder(xs, d)
    ensures d == Dedup(xs)
  {
    DedupFirstOccurrenceOrder(xs);
    SortedByFirstIndexUnique(xs, d, Dedup(xs));
  }

  /** The head of a list in first-occurrence order comes first in `xs` among its elements. */
  lemma HeadFirst<T>(xs: seq<T>, a: seq<T>, x: T)
    requires forall i :: 0 <= i < |a| ==> a[i] in xs
    requires FirstOccurrenceOrder(xs, a)
    ensures x in a && x != a[0] ==> FirstIndex(xs, a[0]) < FirstIndex(xs, x)
  {
    if x in a && x != a[0] {
      var k :| 0 <= k < |a| && a[k] == x;
    }
  }

  /** In a duplicate-free list, the tail holds exactly the elements other than the head. */
  lemma TailMembers<T>(a: seq<T>, x: T)
    requires NoDuplicates(a) && |a| > 0
    ensures x in a[1..] <==> x in a && x != a[0]
  {
    if x in a[1..] {
      var k :| 0 <= k < |a[1..]| && a[1..][k] == x;
      assert a[k + 1] == x;
    }
    if x in a && x != a[0] {
      var k :| 0 <= k < |a| && a[k] == x;
      assert a[1..][k - 1] == x;
    }
  }

  /** Two duplicate-free lists with the same elements, both ordered by first occurrence, are equal. */
  lemma {:induction false} SortedByFirstIndexUnique<T>(xs: seq<T>, a: seq<T>, b: seq<T>)
    requires forall x :: x in a <==> x in b
    requires forall x :: x in a ==> x in xs
    requires NoDuplicates(a) && NoDuplicates(b)
    requires FirstOccurrenceOrder(xs, a) && FirstOccurrenceOrder(xs, b)
    ensures a == b
    decreases |a|
  {
    assert |b| > 0 ==> b[0] in b;
    if |a| == 0 {
      assert |b| == 0;
    } else {
      assert a[0] in a && b[0] in b;
      HeadFirst(xs, a, b[0]);
      HeadFirst(xs, b, a[0]);
      assert a[0] == b[0];
      forall x ensures x in a[1..] <==> x in b[1..] {
        TailMembers(a, x);
        TailMembers(b, x);
      }
      SortedByFirstIndexUnique(xs, a[1..], b[1..]);
      assert a == [a[0]] + a[1..] && b == [b[0]] + b[1..];
    }
  }
}
