/** Folds over sequences of reals: sum, maximum and minimum, the building blocks of the
    window statistics. Each is defined from the left, the way a loop accumulates. */
module Seqs {

  function Sum(xs: seq<real>): real
  {
    if xs == [] then 0.0 else Sum(xs[..|xs| - 1]) + xs[|xs| - 1]
  }

  /** The largest element: it is in the list and no element exceeds it. */
  function Max(xs: seq<real>): (m: real)
    requires |xs| > 0
    ensures m in xs
    ensures forall i :: 0 <= i < |xs| ==> xs[i] <= m
  {
    if |xs| == 1 then xs[0]
    else
      var m := Max(xs[..|xs| - 1]);
      assert forall i :: 0 <= i < |xs| - 1 ==> xs[..|xs| - 1][i] == xs[i];
      if xs[|xs| - 1] > m then xs[|xs| - 1] else m
  }

  /** The smallest element: it is in the list and no element is below it. */
  function Min(xs: seq<real>): (m: real)
    requires |xs| > 0
    ensures m in xs
    ensures forall i :: 0 <= i < |xs| ==> m <= xs[i]
  {
    if |xs| == 1 then xs[0]
    else
      var m := Min(xs[..|xs| - 1]);
      assert forall i :: 0 <= i < |xs| - 1 ==> xs[..|xs| - 1][i] == xs[i];
      if xs[|xs| - 1] < m then xs[|xs| - 1] else m
  }

  /** A sum of n terms lies between n times the smallest and n times the largest term. */
  lemma {:induction false} SumBounds(xs: seq<real>, lo: real, hi: real)
    requires forall i :: 0 <= i < |xs| ==> lo <= xs[i] <= hi
    ensures (|xs| as real) * lo <= Sum(xs) <= (|xs| as real) * hi
  {
    if xs != [] {
      var init := xs[..|xs| - 1];
      assert forall i :: 0 <= i < |init| ==> init[i] == xs[i];
      SumBounds(init, lo, hi);
      var n := |init| as real;
      assert (|xs| as real) * lo == n * lo + lo;
      assert (|xs| as real) * hi == n * hi + hi;
    }
  }

  /** Summing n copies of c gives n * c. */
  lemma {:induction false} SumConstant(xs: seq<real>, c: real)
    requires forall i :: 0 <= i < |xs| ==> xs[i] == c
    ensures Sum(xs) == (|xs| as real) * c
  {
    SumBounds(xs, c, c);
  }

  /** A quotient by a positive number lies between the bounds its dividend satisfies. */
  lemma QuotientBounds(s: real, n: real, lo: real, hi: real)
    requires n > 0.0 && n * lo <= s <= n * hi
    ensures lo <= s / n <= hi
  {
    var q := s / n;
    assert n * (q - lo) == s - n * lo >= 0.0;
    assert n * (hi - q) == n * hi - s >= 0.0;
  }

  /** What `xs.pop(i)` leaves: everything else, so nothing is lost or duplicated. */
  function Pop<T>(xs: seq<T>, i: nat): (r: seq<T>)
    requires i < |xs|
    ensures multiset(xs) == multiset(r) + multiset{xs[i]}
    ensures |r| == |xs| - 1
    ensures forall y :: y in r ==> y in xs
  {
    assert xs == xs[..i] + [xs[i]] + xs[i + 1..];
    xs[..i] + xs[i + 1..]
  }

  /** How many times `range(k)` runs, and the length of `[0]*k`: none for a negative k. */
  function Clamp(k: int): nat
  {
    if k < 0 then 0 else k
  }

  /** k * c, counted block by block, so that the arithmetic stays linear. */
  function Times(k: nat, c: nat): nat
  {
    if k == 0 then 0 else Times(k - 1, c) + c
  }

  lemma {:induction false} TimesIsProduct(k: nat, c: nat)
    ensures Times(k, c) == k * c
  {
    if k > 0 {
      TimesIsProduct(k - 1, c);
    }
  }

  /** Appending leaves a prefix alone and extends every suffix. */
  lemma SliceAppend<T>(xs: seq<T>, p: nat, extra: seq<T>)
    requires p <= |xs|
    ensures (xs + extra)[..p] == xs[..p]
    ensures (xs + extra)[p..] == xs[p..] + extra
  {
  }

  /** The empty sequence is neutral for concatenation. */
  lemma AppendEmpty<T>(xs: seq<T>)
    ensures [] + xs == xs && xs + [] == xs
  {
  }

  /** The head and tail of a sequence built by prepending. */
  lemma ConsParts<T>(a: T, ys: seq<T>)
    ensures ([a] + ys)[0] == a && ([a] + ys)[1..] == ys
  {
  }

  /** A non-empty sequence is its head followed by its tail, also with something appended. */
  lemma ConsAppend<T>(xs: seq<T>, ys: seq<T>)
    requires xs != []
    ensures xs == [xs[0]] + xs[1..]
    ensures xs + ys == [xs[0]] + (xs[1..] + ys)
  {
  }

  /** Concatenation is associative. */
  lemma AppendAssoc<T>(xs: seq<T>, ys: seq<T>, zs: seq<T>)
    ensures xs + ys + zs == xs + (ys + zs)
  {
  }

  /** Cut into consecutive blocks of width `w` (the last one possibly shorter): the first
      entry of every block, and the other entries of every block. */
  function Heads<T>(xs: seq<T>, w: nat): seq<T>
    requires w > 0
    decreases |xs|
  {
    if xs == [] then []
    else if |xs| <= w then [xs[0]]
    else [xs[0]] + Heads(xs[w..], w)
  }

  function Rests<T>(xs: seq<T>, w: nat): seq<T>
    requires w > 0
    decreases |xs|
  {
    if xs == [] then []
    else if |xs| <= w then xs[1..]
    else xs[1..w] + Rests(xs[w..], w)
  }

  /** Appending a whole block to a list of k whole blocks adds its first entry to the heads
      and the rest of it to the rests. */
  lemma {:induction false} HeadsRestsBlock<T>(xs: seq<T>, blk: seq<T>, w: nat, k: nat)
    requires w > 0 && |xs| == Times(k, w) && |blk| == w
    ensures Heads(xs + blk, w) == Heads(xs, w) + [blk[0]]
    ensures Rests(xs + blk, w) == Rests(xs, w) + blk[1..]
    decreases k
  {
    if k == 0 {
      assert xs == [] && xs + blk == blk;
    } else {
      var ys := xs + blk;
      assert |xs| >= w;
      assert ys[0] == xs[0] && ys[1..w] == xs[1..w] && ys[w..] == xs[w..] + blk;
      HeadsRestsBlock(xs[w..], blk, w, k - 1);
      if |xs| == w {
        assert xs[w..] == [] && xs[1..w] == xs[1..];
      } else {
        assert Heads(xs, w) == [xs[0]] + Heads(xs[w..], w);
        assert Rests(xs, w) == xs[1..w] + Rests(xs[w..], w);
      }
      assert Heads(ys, w) == [xs[0]] + Heads(ys[w..], w);
      assert Rests(ys, w) == ys[1..w] + Rests(ys[w..], w);
    }
  }

  /** k whole blocks give k heads and k * (w - 1) other entries. */
  lemma {:induction false} HeadsRestsSizes<T>(xs: seq<T>, w: nat, k: nat)
    requires w > 0 && |xs| == Times(k, w)
    ensures |Heads(xs, w)| == k && |Rests(xs, w)| == Times(k, w - 1)
    decreases k
  {
    if k > 0 {
      HeadsRestsSizes(xs[w..], w, k - 1);
    }
  }

  /** The heads and the rests together are the list, as a multiset. */
  lemma {:induction false} HeadsRestsPartition<T>(xs: seq<T>, w: nat)
    requires w > 0
    ensures multiset(Heads(xs, w)) + multiset(Rests(xs, w)) == multiset(xs)
    decreases |xs|
  {
    if |xs| > w {
      HeadsRestsPartition(xs[w..], w);
      assert xs == [xs[0]] + xs[1..w] + xs[w..];
    } else if xs != [] {
      assert xs == [xs[0]] + xs[1..];
    }
  }
}
