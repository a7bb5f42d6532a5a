/** Order-preserving selection and summation over sequences: the row-mask and
    column-sum operations the pipeline applies to its tables. */
module Seqs {

  /** The elements of `xs` that satisfy `f`, in their original order. */
  function Filter<T>(xs: seq<T>, f: T -> bool): (r: seq<T>)
    ensures |r| <= |xs|
    ensures forall k :: 0 <= k < |r| ==> r[k] in xs && f(r[k])
  {
    if |xs| == 0 then []
    else
      assert xs == [xs[0]] + xs[1..];
      if f(xs[0]) then [xs[0]] + Filter(xs[1..], f) else Filter(xs[1..], f)
  }

  /** Nothing that satisfies `f` is dropped. */
  lemma {:induction false} FilterKeeps<T>(xs: seq<T>, f: T -> bool, k: int)
    requires 0 <= k < |xs| && f(xs[k])
    ensures xs[k] in Filter(xs, f)
  {
    if k > 0 {
      assert xs[1..][k - 1] == xs[k];
      FilterKeeps(xs[1..], f, k - 1);
    }
  }

  /** The complement of a predicate. */
  function Not<T>(f: T -> bool): T -> bool
  {
    x => !f(x)
  }

  /** The sum of `f` over `xs`. */
  function Sum<T>(xs: seq<T>, f: T -> int): int
  {
    if |xs| == 0 then 0 else f(xs[0]) + Sum(xs[1..], f)
  }

  lemma TailOfAppend<T>(xs: seq<T>, ys: seq<T>)
    requires |xs| > 0
    ensures (xs + ys)[0] == xs[0]
    ensures (xs + ys)[1..] == xs[1..] + ys
  {
  }

  lemma AppendEmpty<T>(xs: seq<T>, ys: seq<T>)
    requires |xs| == 0
    ensures xs + ys == ys
  {
  }

  lemma PrefixStep<T>(xs: seq<T>, i: int)
    requires 0 <= i < |xs|
    ensures xs[..i + 1] == xs[..i] + [xs[i]]
  {
  }

  lemma WholePrefix<T>(xs: seq<T>)
    ensures xs[..|xs|] == xs
  {
  }

  lemma AppendAssoc<T>(xs: seq<T>, ys: seq<T>, zs: seq<T>)
    ensures xs + (ys + zs) == xs + ys + zs
  {
  }

  /** Selection distributes over concatenation, so it keeps relative order. */
  lemma {:induction false} FilterAppend<T>(xs: seq<T>, ys: seq<T>, f: T -> bool)
    ensures Filter(xs + ys, f) == Filter(xs, f) + Filter(ys, f)
  {
    if |xs| == 0 {
      assert xs + ys == ys;
    } else {
      assert (xs + ys)[1..] == xs[1..] + ys;
      FilterAppend(xs[1..], ys, f);
    }
  }

  /** Selecting by `f` and by its complement splits `xs` with nothing lost or duplicated. */
  lemma {:induction false} FilterPartition<T>(xs: seq<T>, f: T -> bool)
    ensures multiset(Filter(xs, f)) + multiset(Filter(xs, Not(f))) == multiset(xs)
    ensures |Filter(xs, f)| + |Filter(xs, Not(f))| == |xs|
  {
    if |xs| > 0 {
      FilterPartition(xs[1..], f);
      assert xs == [xs[0]] + xs[1..];
    }
  }

  /** Two selections commute. */
  lemma {:induction false} FilterCommutes<T>(xs: seq<T>, f: T -> bool, g: T -> bool)
    ensures Filter(Filter(xs, f), g) == Filter(Filter(xs, g), f)
  {
    if |xs| > 0 {
      FilterCommutes(xs[1..], f, g);
    }
  }

  /** Sums distribute over concatenation. */
  lemma {:induction false} SumAppend<T>(xs: seq<T>, ys: seq<T>, f: T -> int)
    ensures Sum(xs + ys, f) == Sum(xs, f) + Sum(ys, f)
  {
    if |xs| == 0 {
      assert xs + ys == ys;
    } else {
      assert (xs + ys)[1..] == xs[1..] + ys;
      SumAppend(xs[1..], ys, f);
    }
  }

  /** The sum over `xs` splits into the sums over a selection and its complement. */
  lemma {:induction false} SumPartition<T>(xs: seq<T>, f: T -> bool, g: T -> int)
    ensures Sum(Filter(xs, f), g) + Sum(Filter(xs, Not(f)), g) == Sum(xs, g)
  {
    if |xs| > 0 {
      SumPartition(xs[1..], f, g);
    }
  }

  /** A sum of non-negative terms does not grow when terms are dropped. */
  lemma {:induction false} SumFilterBound<T>(xs: seq<T>, f: T -> bool, g: T -> int)
    requires forall k :: 0 <= k < |xs| ==> g(xs[k]) >= 0
    ensures 0 <= Sum(Filter(xs, f), g) <= Sum(xs, g)
  {
    if |xs| > 0 {
      SumFilterBound(xs[1..], f, g);
    }
  }
}
