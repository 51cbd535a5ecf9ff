/** Sums over sequences, the one fold every ledger and payout total below is an instance of. */
module Sums {

  function Sum<T>(xs: seq<T>, f: T -> int): int {
    if |xs| == 0 then 0 else Sum(xs[..|xs| - 1], f) + f(xs[|xs| - 1])
  }

  lemma SumAppend<T>(xs: seq<T>, x: T, f: T -> int)
    ensures Sum(xs + [x], f) == Sum(xs, f) + f(x)
  {
    assert (xs + [x])[..|xs|] == xs;
  }

  /** One more term of a prefix. */
  lemma SumPrefix<T>(xs: seq<T>, i: nat, f: T -> int)
    requires i < |xs|
    ensures Sum(xs[..i + 1], f) == Sum(xs[..i], f) + f(xs[i])
  {
    SplitAt(xs, i);
    SumAppend(xs[..i], xs[i], f);
  }

  lemma {:induction false} SumConcat<T>(xs: seq<T>, ys: seq<T>, f: T -> int)
    ensures Sum(xs + ys, f) == Sum(xs, f) + Sum(ys, f)
  {
    if |ys| == 0 {
      assert xs + ys == xs;
    } else {
      SumConcat(xs, ys[..|ys| - 1], f);
      assert (xs + ys)[..|xs + ys| - 1] == xs + ys[..|ys| - 1];
    }
  }

  lemma {:induction false} SumUpdate<T>(xs: seq<T>, i: nat, x: T, f: T -> int)
    requires i < |xs|
    ensures Sum(xs[i := x], f) == Sum(xs, f) - f(xs[i]) + f(x)
  {
    if i == |xs| - 1 {
      assert xs[i := x][..i] == xs[..i];
    } else {
      SumUpdate(xs[..|xs| - 1], i, x, f);
      assert xs[i := x][..|xs| - 1] == xs[..|xs| - 1][i := x];
    }
  }

  lemma SumInsert<T>(xs: seq<T>, x: T, ys: seq<T>, f: T -> int)
    ensures Sum(xs + [x] + ys, f) == Sum(xs + ys, f) + f(x)
  {
    SumConcat(xs + [x], ys, f);
    SumAppend(xs, x, f);
    SumConcat(xs, ys, f);
  }

  lemma SplitAt<T>(xs: seq<T>, i: nat)
    requires i < |xs|
    ensures xs == xs[..i] + [xs[i]] + xs[i + 1..]
    ensures xs[..i + 1] == xs[..i] + [xs[i]]
  {
  }

  /** Taking one element out of the middle takes its term out of the sum. */
  lemma SumRemove<T>(xs: seq<T>, i: nat, f: T -> int)
    requires i < |xs|
    ensures Sum(xs, f) == Sum(xs[..i] + xs[i + 1..], f) + f(xs[i])
  {
    SplitAt(xs, i);
    SumInsert(xs[..i], xs[i], xs[i + 1..], f);
  }

  /** A sum does not depend on the order of its terms. */
  lemma {:induction false} SumPermutation<T>(xs: seq<T>, ys: seq<T>, f: T -> int)
    requires multiset(xs) == multiset(ys)
    ensures Sum(xs, f) == Sum(ys, f)
    decreases |xs|
  {
    if |xs| == 0 {
      assert |multiset(ys)| == 0;
    } else {
      var n := |xs| - 1;
      assert xs == xs[..n] + [xs[n]];
      assert xs[n] in multiset(ys);
      var i :| 0 <= i < |ys| && ys[i] == xs[n];
      assert ys == ys[..i] + [ys[i]] + ys[i + 1..];
      SumRemove(ys, i, f);
      assert multiset(ys) == multiset(ys[..i] + ys[i + 1..]) + multiset{ys[i]};
      assert multiset(xs) == multiset(xs[..n]) + multiset{xs[n]};
      assert multiset(xs[..n]) == multiset(xs) - multiset{xs[n]};
      assert multiset(ys[..i] + ys[i + 1..]) == multiset(ys) - multiset{ys[i]};
      SumPermutation(xs[..n], ys[..i] + ys[i + 1..], f);
    }
  }

  lemma {:induction false} SumEqual<T>(xs: seq<T>, f: T -> int, g: T -> int)
    requires forall x :: x in xs ==> f(x) == g(x)
    ensures Sum(xs, f) == Sum(xs, g)
  {
    if |xs| == 0 {
    } else {
      SumEqual(xs[..|xs| - 1], f, g);
    }
  }

  lemma {:induction false} SumNonNegative<T>(xs: seq<T>, f: T -> int)
    requires forall x :: x in xs ==> f(x) >= 0
    ensures Sum(xs, f) >= 0
  {
    if |xs| == 0 {
    } else {
      SumNonNegative(xs[..|xs| - 1], f);
    }
  }

  lemma {:induction false} SumZero<T>(xs: seq<T>, f: T -> int)
    requires forall x :: x in xs ==> f(x) == 0
    ensures Sum(xs, f) == 0
  {
    if |xs| == 0 {
    } else {
      SumZero(xs[..|xs| - 1], f);
    }
  }
}
