/** Array helpers the application uses through `filter`, `map` and `every`. */
module Seqs {

  /** `xs.filter(p)`: the elements satisfying `p`, in their original order. */
  function Filter<T>(p: T -> bool, xs: seq<T>): (r: seq<T>)
    ensures |r| <= |xs|
    ensures forall i :: 0 <= i < |r| ==> p(r[i])
  {
    if |xs| == 0 then []
    else if p(xs[0]) then [xs[0]] + Filter(p, xs[1..])
    else Filter(p, xs[1..])
  }

  /** `xs.map(f)`. */
  function Map<T, U>(f: T -> U, xs: seq<T>): (r: seq<U>)
    ensures |r| == |xs|
    ensures forall i :: 0 <= i < |xs| ==> r[i] == f(xs[i])
  {
    if |xs| == 0 then [] else [f(xs[0])] + Map(f, xs[1..])
  }

  /** `xs.filter(p).length`. */
  function Count<T>(p: T -> bool, xs: seq<T>): nat {
    |Filter(p, xs)|
  }

  lemma ConcatAssoc<T>(a: seq<T>, b: seq<T>, c: seq<T>)
    ensures a + (b + c) == (a + b) + c
  {
  }

  /** Putting the first element back in front of the rest of `a`, followed by `r`. */
  lemma ConsPrefix<T>(a: seq<T>, r: seq<T>)
    requires |a| > 0
    ensures [a[0]] + (a[1..] + r) == a + r
  {
    ConcatAssoc([a[0]], a[1..], r);
    assert [a[0]] + a[1..] == a;
  }

  /**
   * One step of a scan that emits `head` and continues: when the rest
   * splits at `sep` into `l` and `r`, so does the whole, with `head` on the left.
   */
  lemma ConcatStep<T>(x: seq<T>, y: seq<T>, z: seq<T>, head: seq<T>, l: seq<T>, sep: seq<T>, r: seq<T>)
    requires x == head + y && y == l + sep + r && z == head + l
    ensures x == z + sep + r
  {
    ConcatAssoc(head, l + sep, r);
    ConcatAssoc(head, l, sep);
  }

  /** `a` is obtained from `b` by deleting elements: order is kept, nothing is invented. */
  predicate IsSubsequence<T(==)>(a: seq<T>, b: seq<T>) {
    if |a| == 0 then true
    else if |b| == 0 then false
    else if a[0] == b[0] then IsSubsequence(a[1..], b[1..])
    else IsSubsequence(a, b[1..])
  }

  lemma {:induction false} FilterIsSubsequence<T>(p: T -> bool, xs: seq<T>)
    ensures IsSubsequence(Filter(p, xs), xs)
  {
    if |xs| > 0 {
      FilterIsSubsequence(p, xs[1..]);
      if !p(xs[0]) {
        SubsequenceDropHead(Filter(p, xs[1..]), xs[1..], xs[0]);
        assert [xs[0]] + xs[1..] == xs;
      }
    }
  }

  /** Putting an extra element in front of `b` keeps `a` a subsequence of it. */
  lemma SubsequenceDropHead<T>(a: seq<T>, b: seq<T>, x: T)
    requires IsSubsequence(a, b)
    ensures IsSubsequence(a, [x] + b)
  {
    assert ([x] + b)[1..] == b;
    if |a| > 0 && a[0] == x {
      SubsequenceWeaken(a, b);
    }
  }

  /** Dropping the first element of a subsequence leaves a subsequence. */
  lemma {:induction false} SubsequenceWeaken<T>(a: seq<T>, b: seq<T>)
    requires |a| > 0 && IsSubsequence(a, b)
    ensures IsSubsequence(a[1..], b)
  {
    if a[0] == b[0] {
      if |a| > 1 && a[1] == b[0] {
        SubsequenceWeaken(a[1..], b[1..]);
        assert a[1..][1..] == a[2..];
      }
    } else {
      SubsequenceWeaken(a, b[1..]);
      if |a| > 1 && a[1] == b[0] {
        SubsequenceWeaken(a[1..], b[1..]);
        assert a[1..][1..] == a[2..];
      }
    }
  }

  lemma {:induction false} FilterAppend<T>(p: T -> bool, a: seq<T>, b: seq<T>)
    ensures Filter(p, a + b) == Filter(p, a) + Filter(p, b)
  {
    if |a| > 0 {
      assert (a + b)[1..] == a[1..] + b;
      FilterAppend(p, a[1..], b);
    } else {
      assert a + b == b;
    }
  }

  /** The complement of a predicate. */
  function Negate<T>(p: T -> bool): T -> bool {
    x => !p(x)
  }

  /** Filtering by `p` and by its negation loses and duplicates nothing. */
  lemma {:induction false} FilterPartition<T>(p: T -> bool, xs: seq<T>)
    ensures multiset(Filter(p, xs)) + multiset(Filter(Negate(p), xs)) == multiset(xs)
  {
    if |xs| > 0 {
      var x, rest := xs[0], xs[1..];
      FilterPartition(p, rest);
      assert xs == [x] + rest;
      assert multiset(xs) == multiset{x} + multiset(rest);
      if p(x) {
        assert Filter(p, xs) == [x] + Filter(p, rest);
        assert Filter(Negate(p), xs) == Filter(Negate(p), rest);
      } else {
        assert Filter(p, xs) == Filter(p, rest);
        assert Filter(Negate(p), xs) == [x] + Filter(Negate(p), rest);
      }
    }
  }

  /** The two halves of a partition add up to the whole. */
  lemma FilterPartitionLength<T>(p: T -> bool, xs: seq<T>)
    ensures |Filter(p, xs)| + |Filter(Negate(p), xs)| == |xs|
  {
    FilterPartition(p, xs);
    assert |multiset(Filter(p, xs)) + multiset(Filter(Negate(p), xs))| == |multiset(xs)|;
  }

  /** Every element of the sequence satisfies `p`: `xs.every(p)`. */
  predicate All<T>(p: T -> bool, xs: seq<T>) {
    forall i :: 0 <= i < |xs| ==> p(xs[i])
  }

  lemma {:induction false} AllAppend<T>(p: T -> bool, a: seq<T>, b: seq<T>)
    requires All(p, a) && All(p, b)
    ensures All(p, a + b)
  {
    forall i | 0 <= i < |a + b|
      ensures p((a + b)[i])
    {
      if i < |a| {
        assert (a + b)[i] == a[i];
      } else {
        assert (a + b)[i] == b[i - |a|];
      }
    }
  }

  lemma {:induction false} AllSlice<T>(p: T -> bool, a: seq<T>, i: nat, j: nat)
    requires All(p, a) && i <= j <= |a|
    ensures All(p, a[i..j])
  {
    forall k | 0 <= k < j - i
      ensures p(a[i..j][k])
    {
      assert a[i..j][k] == a[i + k];
    }
  }

  lemma {:induction false} AllSuffix<T>(p: T -> bool, a: seq<T>, i: nat)
    requires All(p, a) && i <= |a|
    ensures All(p, a[i..])
  {
    forall k | 0 <= k < |a| - i
      ensures p(a[i..][k])
    {
      assert a[i..][k] == a[i + k];
    }
  }

  /** Filtering keeps every property all the elements had. */
  lemma {:induction false} FilterAll<T>(p: T -> bool, q: T -> bool, xs: seq<T>)
    requires All(q, xs)
    ensures All(q, Filter(p, xs))
  {
    if |xs| > 0 {
      FilterAll(p, q, xs[1..]);
    }
  }

  /** Filtering removes exactly the elements failing `p`: when none fails, nothing changes. */
  lemma {:induction false} FilterKeepsAll<T>(p: T -> bool, xs: seq<T>)
    requires All(p, xs)
    ensures Filter(p, xs) == xs
  {
    if |xs| > 0 {
      FilterKeepsAll(p, xs[1..]);
      assert xs == [xs[0]] + xs[1..];
    }
  }

  /** Every element satisfying `p` survives the filter. */
  lemma {:induction false} FilterComplete<T>(p: T -> bool, xs: seq<T>, i: nat)
    requires i < |xs| && p(xs[i])
    ensures xs[i] in Filter(p, xs)
    decreases i
  {
    if i > 0 {
      FilterComplete(p, xs[1..], i - 1);
    }
  }

  /** When no element satisfies `p`, nothing is left. */
  lemma {:induction false} FilterNone<T>(p: T -> bool, xs: seq<T>)
    requires forall i :: 0 <= i < |xs| ==> !p(xs[i])
    ensures Filter(p, xs) == []
  {
    if |xs| > 0 {
      FilterNone(p, xs[1..]);
    }
  }

  /** The filter invents nothing: what survives was there. */
  lemma {:induction false} FilterSound<T>(p: T -> bool, xs: seq<T>, x: T)
    requires x in Filter(p, xs)
    ensures x in xs && p(x)
  {
    if |xs| > 0 {
      if p(xs[0]) && x == xs[0] {
      } else {
        assert x in Filter(p, xs[1..]);
        FilterSound(p, xs[1..], x);
      }
    }
  }
}
