/** Counting and summing over the fixed tables. */
module Counting {
  import opened Status

  function Count(bs: seq<bool>): nat
  {
    if bs == [] then 0 else Count(bs[..|bs| - 1]) + if bs[|bs| - 1] then 1 else 0
  }

  lemma {:induction false} CountBound(bs: seq<bool>)
    ensures Count(bs) <= |bs|
    ensures Count(bs) == |bs| <==> forall i :: 0 <= i < |bs| ==> bs[i]
    ensures Count(bs) == 0 <==> forall i :: 0 <= i < |bs| ==> !bs[i]
  {
    if bs != [] {
      var front := bs[..|bs| - 1];
      CountBound(front);
      assert forall i :: 0 <= i < |front| ==> front[i] == bs[i];
    }
  }

  lemma {:induction false} CountUpdate(bs: seq<bool>, i: nat, b: bool)
    requires i < |bs|
    ensures Count(bs[i := b]) == Count(bs) + (if b then 1 else 0) - (if bs[i] then 1 else 0)
  {
    var after, n := bs[i := b], |bs| - 1;
    if i == n {
      assert after[..n] == bs[..n];
    } else {
      CountUpdate(bs[..n], i, b);
      assert after[..n] == bs[..n][i := b];
    }
  }

  function Sum(ns: seq<nat>): nat
  {
    if ns == [] then 0 else Sum(ns[..|ns| - 1]) + ns[|ns| - 1]
  }

  lemma {:induction false} SumUpdate(ns: seq<nat>, i: nat, v: nat)
    requires i < |ns|
    ensures Sum(ns[i := v]) == Sum(ns) + v - ns[i]
  {
    var after, n := ns[i := v], |ns| - 1;
    if i == n {
      assert after[..n] == ns[..n];
    } else {
      SumUpdate(ns[..n], i, v);
      assert after[..n] == ns[..n][i := v];
    }
  }

  lemma {:induction false} SumAtLeast(ns: seq<nat>, i: nat)
    requires i < |ns|
    ensures ns[i] <= Sum(ns)
  {
    if i < |ns| - 1 { SumAtLeast(ns[..|ns| - 1], i); }
  }

  lemma {:induction false} SumOfZeros(ns: seq<nat>)
    requires forall i :: 0 <= i < |ns| ==> ns[i] == 0
    ensures Sum(ns) == 0
  {
    if ns != [] { SumOfZeros(ns[..|ns| - 1]); }
  }

  /** The first slot whose flag is clear. */
  function FirstFree(used: seq<bool>): (r: Option<nat>)
    ensures r.Some? ==> r.value < |used| && !used[r.value] && forall j :: 0 <= j < r.value ==> used[j]
    ensures r.None? <==> forall j :: 0 <= j < |used| ==> used[j]
  {
    FirstFreeFrom(used, 0)
  }

  function FirstFreeFrom(used: seq<bool>, from: nat): (r: Option<nat>)
    requires from <= |used|
    ensures r.Some? ==> from <= r.value < |used| && !used[r.value] && forall j :: from <= j < r.value ==> used[j]
    ensures r.None? <==> forall j :: from <= j < |used| ==> used[j]
    decreases |used| - from
  {
    if from == |used| then None
    else if !used[from] then Some(from)
    else FirstFreeFrom(used, from + 1)
  }

  /** The list without (the first occurrence of) `x`. */
  function Without(xs: seq<nat>, x: nat): seq<nat>
  {
    if xs == [] then [] else if xs[0] == x then xs[1..] else [xs[0]] + Without(xs[1..], x)
  }

  lemma {:induction false} WithoutAt(xs: seq<nat>, k: nat)
    requires k < |xs| && forall j :: 0 <= j < k ==> xs[j] != xs[k]
    ensures Without(xs, xs[k]) == xs[..k] + xs[k + 1..]
  {
    if k > 0 {
      assert xs[1..][k - 1] == xs[k];
      WithoutAt(xs[1..], k - 1);
      assert xs[1..][..k - 1] == xs[1..k] && xs[1..][k..] == xs[k + 1..];
      assert [xs[0]] + (xs[1..k] + xs[k + 1..]) == xs[..k] + xs[k + 1..];
    }
  }
}
