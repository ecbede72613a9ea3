/** Sequence operations the storefront uses through JavaScript's
    `Array.prototype.filter` and `Array.prototype.reduce`, with the facts
    about them that the component modules rely on. */
module Seqs {

  /** `s.filter(keep)`: the elements of `s` that satisfy `keep`, in order. */
  function Filter<T(==,!new)>(s: seq<T>, keep: T -> bool): (r: seq<T>)
    ensures |r| <= |s|
    ensures forall x :: x in r <==> x in s && keep(x)
  {
    if |s| == 0 then []
    else if keep(s[0]) then [s[0]] + Filter(s[1..], keep)
    else Filter(s[1..], keep)
  }

  /** `a` can be obtained from `b` by deleting elements: order is kept and
      nothing is added or duplicated. */
  predicate IsSubsequence<T(==,!new)>(a: seq<T>, b: seq<T>)
    decreases |b|
  {
    if |a| == 0 then true
    else if |b| == 0 then false
    else if a[0] == b[0] then IsSubsequence(a[1..], b[1..])
    else IsSubsequence(a, b[1..])
  }

  /** Filtering only deletes: the result is a subsequence of the input. */
  lemma {:induction false} FilterIsSubsequence<T(!new)>(s: seq<T>, keep: T -> bool)
    ensures IsSubsequence(Filter(s, keep), s)
  {
    if |s| > 0 {
      FilterIsSubsequence(s[1..], keep);
      var rest := Filter(s[1..], keep);
      if !keep(s[0]) && |rest| > 0 {
        assert rest[0] in rest;
        assert rest[0] != s[0];
      }
    }
  }

  /** Filtering keeps every occurrence of a kept value and no occurrence of
      a dropped one. */
  lemma {:induction false} FilterCounts<T(!new)>(s: seq<T>, keep: T -> bool, x: T)
    ensures multiset(Filter(s, keep))[x] == if keep(x) then multiset(s)[x] else 0
  {
    if |s| > 0 {
      FilterCounts(s[1..], keep, x);
      assert s == [s[0]] + s[1..];
      assert multiset(s) == multiset{s[0]} + multiset(s[1..]);
      if keep(s[0]) {
        assert multiset(Filter(s, keep)) == multiset{s[0]} + multiset(Filter(s[1..], keep));
      }
    }
  }

  /** `FilterCounts` for every value at once. */
  lemma FilterCountsAll<T(!new)>(s: seq<T>, keep: T -> bool)
    ensures forall x :: multiset(Filter(s, keep))[x] == if keep(x) then multiset(s)[x] else 0
  {
    forall x ensures multiset(Filter(s, keep))[x] == if keep(x) then multiset(s)[x] else 0 {
      FilterCounts(s, keep, x);
    }
  }

  /** A filter whose predicate holds of every element returns its input. */
  lemma {:induction false} FilterKeepsAll<T(!new)>(s: seq<T>, keep: T -> bool)
    requires forall i :: 0 <= i < |s| ==> keep(s[i])
    ensures Filter(s, keep) == s
  {
    if |s| > 0 {
      FilterKeepsAll(s[1..], keep);
      assert s == [s[0]] + s[1..];
    }
  }

  /** A filter whose predicate holds of no element returns nothing. */
  lemma {:induction false} FilterDropsAll<T(!new)>(s: seq<T>, keep: T -> bool)
    requires forall i :: 0 <= i < |s| ==> !keep(s[i])
    ensures Filter(s, keep) == []
  {
    if |s| > 0 {
      FilterDropsAll(s[1..], keep);
    }
  }

  /** A filter over three elements that keeps only the first. */
  lemma FilterKeepsFirstOfThree<T(!new)>(a: T, b: T, c: T, keep: T -> bool)
    requires keep(a) && !keep(b) && !keep(c)
    ensures Filter([a, b, c], keep) == [a]
  {
    assert [c][1..] == [];
    assert Filter([c], keep) == [];
    assert [b, c][1..] == [c];
    assert Filter([b, c], keep) == [];
    assert [a, b, c][1..] == [b, c];
    assert Filter([a, b, c], keep) == [a] + Filter([b, c], keep);
  }

  /** Two filters in a row are one filter by the conjunction. */
  lemma {:induction false} FilterFilter<T(!new)>(s: seq<T>, first: T -> bool, second: T -> bool, both: T -> bool)
    requires forall x :: both(x) <==> first(x) && second(x)
    ensures Filter(Filter(s, first), second) == Filter(s, both)
  {
    if |s| > 0 {
      FilterFilter(s[1..], first, second, both);
    }
  }

  /** Filtering depends only on which elements the predicate accepts. */
  lemma {:induction false} FilterSamePredicate<T(!new)>(s: seq<T>, p: T -> bool, q: T -> bool)
    requires forall x :: p(x) <==> q(x)
    ensures Filter(s, p) == Filter(s, q)
  {
    if |s| > 0 {
      FilterSamePredicate(s[1..], p, q);
    }
  }

  /** A filter that keeps as many elements as it was given kept all of them. */
  lemma {:induction false} FilterFullLength<T(!new)>(s: seq<T>, keep: T -> bool)
    requires |Filter(s, keep)| == |s|
    ensures forall i :: 0 <= i < |s| ==> keep(s[i])
  {
    if |s| > 0 {
      if !keep(s[0]) {
        assert false;
      }
      FilterFullLength(s[1..], keep);
      assert forall i :: 1 <= i < |s| ==> s[i] == s[1..][i - 1];
    }
  }

  /** Re-filtering by the same predicate changes nothing. */
  lemma FilterIdempotent<T(!new)>(s: seq<T>, keep: T -> bool)
    ensures Filter(Filter(s, keep), keep) == Filter(s, keep)
  {
    var r := Filter(s, keep);
    assert forall i :: 0 <= i < |r| ==> r[i] in r;
    FilterKeepsAll(r, keep);
  }

  /** Filtering by a stronger predicate keeps no more elements. */
  lemma {:induction false} FilterStrongerIsShorter<T(!new)>(s: seq<T>, strong: T -> bool, weak: T -> bool)
    requires forall x :: strong(x) ==> weak(x)
    ensures |Filter(s, strong)| <= |Filter(s, weak)|
  {
    if |s| > 0 {
      FilterStrongerIsShorter(s[1..], strong, weak);
    }
  }

  /** Filtering by two disjoint predicates splits the filter by their union. */
  lemma {:induction false} FilterDisjointUnion<T(!new)>(s: seq<T>, p: T -> bool, q: T -> bool, either: T -> bool)
    requires forall x :: either(x) <==> p(x) || q(x)
    requires forall x :: !(p(x) && q(x))
    ensures |Filter(s, either)| == |Filter(s, p)| + |Filter(s, q)|
  {
    if |s| > 0 {
      FilterDisjointUnion(s[1..], p, q, either);
    }
  }

  /** Filtering distributes over concatenation. */
  lemma {:induction false} FilterAppend<T(!new)>(a: seq<T>, b: seq<T>, keep: T -> bool)
    ensures Filter(a + b, keep) == Filter(a, keep) + Filter(b, keep)
  {
    if |a| > 0 {
      FilterAppend(a[1..], b, keep);
      assert (a + b)[1..] == a[1..] + b;
    } else {
      assert a + b == b;
    }
  }

  /** The reference sum of `f` over `s`. */
  function Sum<T>(s: seq<T>, f: T -> int): int
  {
    if |s| == 0 then 0 else f(s[0]) + Sum(s[1..], f)
  }

  /** `s.reduce((acc, x) => acc + f(x), acc)`: a left fold, as JavaScript
      evaluates it. */
  function SumLeft<T>(s: seq<T>, f: T -> int, acc: int): (r: int)
    decreases |s|
  {
    if |s| == 0 then acc else SumLeft(s[1..], f, acc + f(s[0]))
  }

  /** The left fold from `acc` is `acc` plus the reference sum. */
  lemma {:induction false} SumLeftIsSum<T>(s: seq<T>, f: T -> int, acc: int)
    ensures SumLeft(s, f, acc) == acc + Sum(s, f)
    decreases |s|
  {
    if |s| > 0 {
      SumLeftIsSum(s[1..], f, acc + f(s[0]));
    }
  }

  /** The sum distributes over concatenation. */
  lemma {:induction false} SumAppend<T>(a: seq<T>, b: seq<T>, f: T -> int)
    ensures Sum(a + b, f) == Sum(a, f) + Sum(b, f)
  {
    if |a| > 0 {
      SumAppend(a[1..], b, f);
      assert (a + b)[1..] == a[1..] + b;
    } else {
      assert a + b == b;
    }
  }

  /** A sum of non-negative terms is non-negative. */
  lemma {:induction false} SumNonNegative<T>(s: seq<T>, f: T -> int)
    requires forall i :: 0 <= i < |s| ==> f(s[i]) >= 0
    ensures Sum(s, f) >= 0
  {
    if |s| > 0 {
      SumNonNegative(s[1..], f);
    }
  }

  /** A sum of terms that are each at least one is at least the length. */
  lemma {:induction false} SumAtLeastLength<T>(s: seq<T>, f: T -> int)
    requires forall i :: 0 <= i < |s| ==> f(s[i]) >= 1
    ensures Sum(s, f) >= |s|
  {
    if |s| > 0 {
      SumAtLeastLength(s[1..], f);
    }
  }

  /** A positive sum has a positive term. */
  lemma {:induction false} PositiveSumHasPositiveTerm<T>(s: seq<T>, f: T -> int) returns (i: nat)
    requires Sum(s, f) > 0
    ensures i < |s| && f(s[i]) > 0
  {
    if f(s[0]) > 0 {
      i := 0;
    } else {
      var j := PositiveSumHasPositiveTerm(s[1..], f);
      i := j + 1;
    }
  }
}
