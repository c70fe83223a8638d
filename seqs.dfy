/** Sequence helpers that mirror the JavaScript array operations the application uses. */
module Seqs {

  /** `b` contains the elements of `a` in the same relative order (not necessarily adjacent). */
  predicate IsSubsequence<T(==)>(a: seq<T>, b: seq<T>)
    decreases |b|
  {
    if a == [] then true
    else if b == [] then false
    else (a[0] == b[0] && IsSubsequence(a[1..], b[1..])) || IsSubsequence(a, b[1..])
  }

  /** No element occurs twice. */
  predicate NoDuplicates<T(==)>(s: seq<T>) {
    forall i, j :: 0 <= i < j < |s| ==> s[i] != s[j]
  }

  /** `xs.filter(p)`: the elements that satisfy `p`, in their original order. */
  function Filter<T>(xs: seq<T>, p: T -> bool): (r: seq<T>)
    ensures |r| <= |xs|
    ensures forall i :: 0 <= i < |r| ==> p(r[i])
  {
    if xs == [] then []
    else if p(xs[0]) then [xs[0]] + Filter(xs[1..], p)
    else Filter(xs[1..], p)
  }

  /** The filtered elements, in order, are drawn from the input. */
  lemma {:induction false} FilterIsSubsequence<T>(xs: seq<T>, p: T -> bool)
    ensures IsSubsequence(Filter(xs, p), xs)
  {
    if xs != [] {
      FilterIsSubsequence(xs[1..], p);
      if p(xs[0]) {
        assert Filter(xs, p)[1..] == Filter(xs[1..], p);
      } else {
        SubsequenceOfTail(Filter(xs, p), xs);
      }
    }
  }

  /** A subsequence of the tail is a subsequence of the whole. */
  lemma {:induction false} SubsequenceOfTail<T>(a: seq<T>, b: seq<T>)
    requires b != [] && IsSubsequence(a, b[1..])
    ensures IsSubsequence(a, b)
  {
  }

  /** Every filtered element occurs in the input. */
  lemma {:induction false} FilterMembers<T>(xs: seq<T>, p: T -> bool)
    ensures forall i :: 0 <= i < |Filter(xs, p)| ==> Filter(xs, p)[i] in xs
  {
    FilterIsSubsequence(xs, p);
    SubsequenceMembers(Filter(xs, p), xs);
  }

  /** Every input element that passes the test is kept. */
  lemma {:induction false} FilterKeeps<T>(xs: seq<T>, p: T -> bool, i: nat)
    requires i < |xs| && p(xs[i])
    ensures xs[i] in Filter(xs, p)
  {
    if i > 0 {
      FilterKeeps(xs[1..], p, i - 1);
      assert xs[1..][i - 1] == xs[i];
    }
  }

  /** A sequence is a subsequence of itself. */
  lemma {:induction false} SubsequenceReflexive<T>(a: seq<T>)
    ensures IsSubsequence(a, a)
  {
    if a != [] {
      SubsequenceReflexive(a[1..]);
    }
  }

  /** A prefix of a subsequence is still a subsequence. */
  lemma {:induction false} PrefixOfSubsequence<T>(a: seq<T>, b: seq<T>, k: nat)
    requires IsSubsequence(a, b) && k <= |a|
    ensures IsSubsequence(a[..k], b)
    decreases |b|
  {
    if k == 0 || a == [] {
    } else if a[0] == b[0] && IsSubsequence(a[1..], b[1..]) {
      PrefixOfSubsequence(a[1..], b[1..], k - 1);
      assert a[..k][1..] == a[1..][..k - 1];
    } else {
      PrefixOfSubsequence(a, b[1..], k);
    }
  }

  /** Every element of a subsequence occurs in the sequence it was drawn from. */
  lemma {:induction false} SubsequenceMembers<T>(a: seq<T>, b: seq<T>)
    requires IsSubsequence(a, b)
    ensures forall i :: 0 <= i < |a| ==> a[i] in b
    decreases |b|
  {
    if a == [] {
    } else if a[0] == b[0] && IsSubsequence(a[1..], b[1..]) {
      SubsequenceMembers(a[1..], b[1..]);
    } else {
      SubsequenceMembers(a, b[1..]);
    }
  }

  /** A subsequence of a duplicate-free sequence is duplicate-free. */
  lemma {:induction false} SubsequenceKeepsNoDuplicates<T>(a: seq<T>, b: seq<T>)
    requires IsSubsequence(a, b) && NoDuplicates(b)
    ensures NoDuplicates(a)
    decreases |b|
  {
    if a == [] {
    } else if a[0] == b[0] && IsSubsequence(a[1..], b[1..]) {
      SubsequenceKeepsNoDuplicates(a[1..], b[1..]);
      SubsequenceMembers(a[1..], b[1..]);
      assert forall j :: 0 < j < |a| ==> a[j] in b[1..] by {
        forall j | 0 < j < |a| ensures a[j] in b[1..] {
          assert a[j] == a[1..][j - 1];
        }
      }
      forall i, j | 0 <= i < j < |a| ensures a[i] != a[j] {
        if i == 0 {
          var k :| 0 <= k < |b[1..]| && b[1..][k] == a[j];
          assert b[k + 1] == a[j];
        } else {
          assert a[i] == a[1..][i - 1] && a[j] == a[1..][j - 1];
        }
      }
    } else {
      SubsequenceKeepsNoDuplicates(a, b[1..]);
    }
  }

  /** Filtering with a predicate every element satisfies keeps the whole sequence. */
  lemma {:induction false} FilterKeepsAll<T>(xs: seq<T>, p: T -> bool)
    requires forall i :: 0 <= i < |xs| ==> p(xs[i])
    ensures Filter(xs, p) == xs
  {
    if xs != [] {
      FilterKeepsAll(xs[1..], p);
    }
  }

  /** Filtering with a predicate no element satisfies leaves nothing. */
  lemma {:induction false} FilterKeepsNone<T>(xs: seq<T>, p: T -> bool)
    requires forall i :: 0 <= i < |xs| ==> !p(xs[i])
    ensures Filter(xs, p) == []
  {
    if xs != [] {
      FilterKeepsNone(xs[1..], p);
    }
  }

  /** Filtering distributes over concatenation. */
  lemma {:induction false} FilterAppend<T>(a: seq<T>, b: seq<T>, p: T -> bool)
    ensures Filter(a + b, p) == Filter(a, p) + Filter(b, p)
  {
    if a != [] {
      assert (a + b)[1..] == a[1..] + b;
      FilterAppend(a[1..], b, p);
    } else {
      assert a + b == b;
    }
  }

  /**
   * An element that passes sits in the filtered sequence at the index given by the
   * number of passing elements before it.
   */
  lemma {:induction false} FilterIndex<T>(xs: seq<T>, p: T -> bool, i: nat)
    requires i < |xs| && p(xs[i])
    ensures |Filter(xs[..i], p)| < |Filter(xs, p)|
    ensures Filter(xs, p)[|Filter(xs[..i], p)|] == xs[i]
  {
    assert xs == xs[..i] + xs[i..];
    FilterAppend(xs[..i], xs[i..], p);
    assert xs[i..][1..] == xs[i + 1..];
    assert Filter(xs[i..], p) == [xs[i]] + Filter(xs[i + 1..], p);
  }

  /** A passing element at `j` counts among the passing elements before any later `k`. */
  lemma {:induction false} FilterCountGrows<T>(xs: seq<T>, p: T -> bool, j: nat, k: nat)
    requires j < k <= |xs| && p(xs[j])
    ensures |Filter(xs[..j], p)| < |Filter(xs[..k], p)|
  {
    assert xs[..k] == xs[..j] + xs[j..k];
    FilterAppend(xs[..j], xs[j..k], p);
    assert xs[j..k][1..] == xs[j + 1..k];
    assert Filter(xs[j..k], p) == [xs[j]] + Filter(xs[j + 1..k], p);
  }

  /** A non-empty sequence is its front followed by its last element. */
  lemma {:induction false} SplitLast<T>(s: seq<T>)
    requires s != []
    ensures s == s[..|s| - 1] + [s[|s| - 1]]
  {
  }

  /**
   * Filtering `r + [y]`, where `r` filters as `xs` followed by `x`, gives `xs + [y]`
   * filtered followed by `x` when `x` and `y` do not both pass.
   */
  lemma {:induction false} FilterMovesPast<T>(r: seq<T>, xs: seq<T>, x: T, y: T, p: T -> bool)
    requires Filter(r, p) == Filter(xs, p) + Filter([x], p)
    requires !(p(x) && p(y))
    ensures Filter(r + [y], p) == Filter(xs + [y], p) + Filter([x], p)
  {
    FilterAppend(r, [y], p);
    FilterAppend(xs, [y], p);
    if p(x) {
      assert Filter([y], p) == [];
    } else {
      assert Filter([x], p) == [];
    }
  }

  /** Every element is kept either by `p` or by its negation. */
  lemma {:induction false} FilterSplits<T>(xs: seq<T>, p: T -> bool, q: T -> bool)
    requires forall x :: q(x) == !p(x)
    ensures |Filter(xs, p)| + |Filter(xs, q)| == |xs|
  {
    if xs != [] {
      FilterSplits(xs[1..], p, q);
    }
  }
}
