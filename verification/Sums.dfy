/** Finite sums of integers and the handful of facts the ledgers below need. */
module Sums {

  function Sum(xs: seq<int>): int
  {
    if |xs| == 0 then 0 else Sum(xs[..|xs| - 1]) + xs[|xs| - 1]
  }

  lemma SumPush(xs: seq<int>, x: int)
    ensures Sum(xs + [x]) == Sum(xs) + x
  {
    assert (xs + [x])[..|xs|] == xs;
  }

  lemma {:induction false} SumConcat(xs: seq<int>, ys: seq<int>)
    ensures Sum(xs + ys) == Sum(xs) + Sum(ys)
  {
    if |ys| == 0 {
      assert xs + ys == xs;
    } else {
      var front := ys[..|ys| - 1];
      SumConcat(xs, front);
      assert (xs + ys)[..|xs + ys| - 1] == xs + front;
    }
  }

  lemma {:induction false} SumUpdate(xs: seq<int>, i: nat, v: int)
    requires i < |xs|
    ensures Sum(xs[i := v]) == Sum(xs) - xs[i] + v
  {
    var front := xs[..|xs| - 1];
    if i == |xs| - 1 {
      assert xs[i := v][..|xs| - 1] == front;
    } else {
      SumUpdate(front, i, v);
      assert xs[i := v][..|xs| - 1] == front[i := v];
    }
  }

  lemma {:induction false} SumLe(xs: seq<int>, ys: seq<int>)
    requires |xs| == |ys|
    requires forall i :: 0 <= i < |xs| ==> xs[i] <= ys[i]
    ensures Sum(xs) <= Sum(ys)
  {
    if |xs| > 0 {
      SumLe(xs[..|xs| - 1], ys[..|ys| - 1]);
    }
  }

  /** Termwise inequality, strict somewhere, makes the sums strictly unequal. */
  lemma {:induction false} SumLt(xs: seq<int>, ys: seq<int>, k: nat)
    requires |xs| == |ys| && k < |xs|
    requires forall i :: 0 <= i < |xs| ==> xs[i] <= ys[i]
    requires xs[k] < ys[k]
    ensures Sum(xs) < Sum(ys)
  {
    var n := |xs| - 1;
    if k == n {
      SumLe(xs[..n], ys[..n]);
    } else {
      SumLt(xs[..n], ys[..n], k);
    }
  }

  lemma {:induction false} SumScale(xs: seq<int>, ys: seq<int>, c: int)
    requires |xs| == |ys|
    requires forall i :: 0 <= i < |xs| ==> ys[i] == c * xs[i]
    ensures Sum(ys) == c * Sum(xs)
  {
    if |xs| > 0 {
      var n := |xs| - 1;
      SumScale(xs[..n], ys[..n], c);
      assert c * Sum(xs) == c * Sum(xs[..n]) + c * xs[n];
    }
  }

  lemma {:induction false} SumZero(xs: seq<int>)
    requires forall i :: 0 <= i < |xs| ==> xs[i] == 0
    ensures Sum(xs) == 0
  {
    if |xs| > 0 {
      SumZero(xs[..|xs| - 1]);
    }
  }

  lemma {:induction false} SumDifference(xs: seq<int>, ys: seq<int>, zs: seq<int>)
    requires |xs| == |ys| == |zs| && forall i :: 0 <= i < |xs| ==> xs[i] == ys[i] - zs[i]
    ensures Sum(xs) == Sum(ys) - Sum(zs)
  {
    if |xs| > 0 {
      SumDifference(xs[..|xs| - 1], ys[..|ys| - 1], zs[..|zs| - 1]);
    }
  }

  lemma {:induction false} SumShift(xs: seq<int>, ys: seq<int>, c: int)
    requires |xs| == |ys| && forall i :: 0 <= i < |xs| ==> ys[i] == xs[i] + c
    ensures Sum(ys) == Sum(xs) + c * |xs|
  {
    if |xs| > 0 {
      SumShift(xs[..|xs| - 1], ys[..|ys| - 1], c);
    }
  }
}
