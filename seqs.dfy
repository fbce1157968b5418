/** Occurrence of a sequence inside another at a given position, stated one element
    at a time so that a proof unfolds only the elements it looks at. */
module Seqs {

  /** `ys` occurs in `xs` from position `p` on. */
  ghost predicate At<T>(xs: seq<T>, p: nat, ys: seq<T>)
    decreases |ys|
  {
    p <= |xs| && (ys == [] || (p < |xs| && xs[p] == ys[0] && At(xs, p + 1, ys[1..])))
  }

  lemma {:induction false} AtBound<T>(xs: seq<T>, p: nat, ys: seq<T>)
    requires At(xs, p, ys)
    ensures p + |ys| <= |xs|
    decreases |ys|
  {
    if ys != [] {
      AtBound(xs, p + 1, ys[1..]);
    }
  }

  lemma {:induction false} AtIndex<T>(xs: seq<T>, p: nat, ys: seq<T>, k: nat)
    requires At(xs, p, ys) && k < |ys|
    ensures p + k < |xs| && xs[p + k] == ys[k]
    decreases k
  {
    if k > 0 {
      AtIndex(xs, p + 1, ys[1..], k - 1);
    }
  }

  lemma {:induction false} AtSplit<T>(xs: seq<T>, p: nat, a: seq<T>, b: seq<T>)
    requires At(xs, p, a + b)
    ensures At(xs, p, a) && At(xs, p + |a|, b)
    decreases |a|
  {
    if a == [] {
      assert a + b == b;
    } else {
      assert (a + b)[0] == a[0] && (a + b)[1..] == a[1..] + b;
      AtSplit(xs, p + 1, a[1..], b);
    }
  }

  lemma {:induction false} AtSuffix<T>(xs: seq<T>, p: nat)
    requires p <= |xs|
    ensures At(xs, p, xs[p..])
    decreases |xs| - p
  {
    if p < |xs| {
      assert xs[p..][0] == xs[p] && xs[p..][1..] == xs[p + 1..];
      AtSuffix(xs, p + 1);
    } else {
      assert xs[p..] == [];
    }
  }

  lemma {:induction false} AtSlice<T>(xs: seq<T>, p: nat, ys: seq<T>)
    requires At(xs, p, ys)
    ensures p + |ys| <= |xs| && xs[p..p + |ys|] == ys
    decreases |ys|
  {
    AtBound(xs, p, ys);
    if ys != [] {
      AtSlice(xs, p + 1, ys[1..]);
      assert xs[p..p + |ys|] == [xs[p]] + xs[p + 1..p + |ys|];
      assert ys == [ys[0]] + ys[1..];
    }
  }

  /** The middle part of `a + b + c` occurs after `a`. */
  lemma AtMiddle<T>(a: seq<T>, b: seq<T>, c: seq<T>)
    ensures At(a + b + c, |a|, b)
  {
    var xs := a + b + c;
    AtSuffix(xs, |a|);
    assert xs[|a|..] == b + c;
    AtSplit(xs, |a|, b, c);
  }

  /** The front part of `a + b` occurs at its start. */
  lemma AtPrefix<T>(a: seq<T>, b: seq<T>)
    ensures At(a + b, 0, a)
  {
    AtMiddle([], a, b);
    assert [] + a + b == a + b;
  }

  lemma SuffixCons<T>(xs: seq<T>, i: nat)
    requires i < |xs|
    ensures xs[i..] == [xs[i]] + xs[i + 1..]
  {
  }
}
