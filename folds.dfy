/** What the record holds after a run of replies: Min, Max and Avg as left
    folds of the per-reply updates, and what those folds amount to. */
module Folds {
  import opened Stats

  /** Min after the samples `vs` (in ms) are fed, in order, to a record whose Min was `m0`. */
  function FoldMin(m0: real, vs: seq<real>): real
    decreases |vs|
  {
    if vs == [] then m0 else NextMin(FoldMin(m0, vs[..|vs| - 1]), vs[|vs| - 1])
  }

  /** Max after the samples `vs` are fed, in order, to a record whose Max was `m0`. */
  function FoldMax(m0: real, vs: seq<real>): real
    decreases |vs|
  {
    if vs == [] then m0 else NextMax(FoldMax(m0, vs[..|vs| - 1]), vs[|vs| - 1])
  }

  /** Avg after the samples `vs` are fed, in order, to a record whose Avg was `a0`:
      a0, then a(i) = (a(i-1) + v(i)) / 2. */
  function FoldAvg(a0: real, vs: seq<real>): real
    decreases |vs|
  {
    if vs == [] then a0 else NextAvg(FoldAvg(a0, vs[..|vs| - 1]), vs[|vs| - 1])
  }

  /** The latest sample, or `v0` when there is none. */
  function LastOr(v0: real, vs: seq<real>): real
  {
    if vs == [] then v0 else vs[|vs| - 1]
  }

  /** 2 to the power n, as a real. */
  function Pow2(n: nat): (p: real)
    ensures p >= 1.0
  {
    if n == 0 then 1.0 else 2.0 * Pow2(n - 1)
  }

  /** The exponentially weighted sum in which the k-th of n samples
      (counting from 0) weighs 1 / 2^(n - k): the latest weighs 1/2, the one
      before 1/4, and so on. */
  function Smoothed(vs: seq<real>): real
    decreases |vs|
  {
    if vs == [] then 0.0 else vs[0] / Pow2(|vs|) + Smoothed(vs[1..])
  }

  /** From the zeroed record, with every reply strictly positive, Min is the
      smallest reply. */
  lemma {:induction false} MinIsSmallestSample(vs: seq<real>)
    requires vs != []
    requires forall i :: 0 <= i < |vs| ==> vs[i] > 0.0
    ensures FoldMin(0.0, vs) in vs
    ensures forall i :: 0 <= i < |vs| ==> FoldMin(0.0, vs) <= vs[i]
    decreases |vs|
  {
    var n := |vs|;
    var init := vs[..n - 1];
    if init != [] {
      MinIsSmallestSample(init);
      var m := FoldMin(0.0, init);
      var j :| 0 <= j < |init| && init[j] == m;
      assert vs[j] == m;
    }
  }

  /** From the zeroed record, with no negative reply, Max is the largest reply. */
  lemma {:induction false} MaxIsLargestSample(vs: seq<real>)
    requires vs != []
    requires forall i :: 0 <= i < |vs| ==> vs[i] >= 0.0
    ensures FoldMax(0.0, vs) in vs
    ensures forall i :: 0 <= i < |vs| ==> vs[i] <= FoldMax(0.0, vs)
    decreases |vs|
  {
    var n := |vs|;
    var init := vs[..n - 1];
    if init != [] {
      MaxIsLargestSample(init);
      var m := FoldMax(0.0, init);
      var j :| 0 <= j < |init| && init[j] == m;
      assert vs[j] == m;
    }
  }

  /** Doubling a divisor halves the quotient. */
  lemma HalveQuotient(x: real, p: real)
    requires p > 0.0
    ensures x / (2.0 * p) == (x / p) / 2.0
  {
  }

  /** Appending a sample halves every earlier weight and gives the new sample weight 1/2. */
  lemma {:induction false} SmoothedAppend(vs: seq<real>, x: real)
    ensures Smoothed(vs + [x]) == (Smoothed(vs) + x) / 2.0
    decreases |vs|
  {
    if vs == [] {
      assert [x][1..] == [];
    } else {
      var n := |vs|;
      assert (vs + [x])[1..] == vs[1..] + [x];
      SmoothedAppend(vs[1..], x);
      HalveQuotient(vs[0], Pow2(n));
    }
  }

  /** The halving recurrence is exponential smoothing, not an arithmetic mean:
      after n samples the starting Avg weighs 1/2^n and the samples weigh as in Smoothed. */
  lemma {:induction false} AvgClosedForm(a0: real, vs: seq<real>)
    ensures FoldAvg(a0, vs) == a0 / Pow2(|vs|) + Smoothed(vs)
    decreases |vs|
  {
    if vs != [] {
      var n := |vs|;
      var init := vs[..n - 1];
      AvgClosedForm(a0, init);
      assert vs == init + [vs[n - 1]];
      SmoothedAppend(init, vs[n - 1]);
      HalveQuotient(a0, Pow2(n - 1));
    }
  }

  /** From the zeroed record, with no negative reply, Avg is never negative and
      never above Max, and strictly below Max once Max is positive. */
  lemma {:induction false} AvgBelowMax(vs: seq<real>)
    requires forall i :: 0 <= i < |vs| ==> vs[i] >= 0.0
    ensures 0.0 <= FoldAvg(0.0, vs) <= FoldMax(0.0, vs)
    ensures FoldMax(0.0, vs) > 0.0 ==> FoldAvg(0.0, vs) < FoldMax(0.0, vs)
    decreases |vs|
  {
    if vs != [] {
      var init := vs[..|vs| - 1];
      AvgBelowMax(init);
    }
  }

  /** With no negative Min or reply, Min never goes negative. */
  lemma {:induction false} MinStaysNonNegative(m0: real, vs: seq<real>)
    requires m0 >= 0.0
    requires forall i :: 0 <= i < |vs| ==> vs[i] >= 0.0
    ensures FoldMin(m0, vs) >= 0.0
    decreases |vs|
  {
    if vs != [] {
      MinStaysNonNegative(m0, vs[..|vs| - 1]);
    }
  }

  /** The sentinel at work, anywhere in a run: a reply measuring exactly 0 ms
      drops Min to 0, which reads as "unset", so the next reply replaces Min
      even when it is larger than every earlier reply. */
  lemma ZeroSampleIsForgotten(m0: real, vs: seq<real>, v: real)
    requires m0 >= 0.0 && v > 0.0
    requires forall i :: 0 <= i < |vs| ==> vs[i] >= 0.0
    ensures FoldMin(m0, vs + [0.0]) == 0.0
    ensures FoldMin(m0, vs + [0.0, v]) == v
  {
    MinStaysNonNegative(m0, vs);
    assert (vs + [0.0])[..|vs|] == vs;
    assert (vs + [0.0, v])[..|vs| + 1] == vs + [0.0];
  }

  /** Replies of 10, 5 and 20 ms: Min 5, Max 20, and Avg 12.5, where the
      arithmetic mean would be 35/3; after the first reply alone Avg is 5,
      below Min. */
  lemma SampleRun()
    ensures FoldMin(0.0, [10.0, 5.0, 20.0]) == 5.0
    ensures FoldMax(0.0, [10.0, 5.0, 20.0]) == 20.0
    ensures FoldAvg(0.0, [10.0, 5.0, 20.0]) == 12.5
    ensures FoldAvg(0.0, [10.0]) == 5.0 < FoldMin(0.0, [10.0])
  {
    var vs := [10.0, 5.0, 20.0];
    assert vs[..2] == [10.0, 5.0];
    assert vs[..2][..1] == [10.0];
    assert [10.0][..0] == [];
  }
}
