/** Token buckets counted in bytes throughout: time is told by what the rate has earned by
    then, so that all the arithmetic is linear. */
module TokenBucket {
  /** n tokens taken at time x. */
  datatype Draw = Draw(x: real, n: real)

  function Min(a: real, b: real): real {
    if a <= b then a else b
  }

  function Prev(start: real, ds: seq<Draw>, i: nat): real
    requires i < |ds|
  {
    if i == 0 then start else ds[i - 1].x
  }

  ghost predicate Ordered(start: real, ds: seq<Draw>) {
    forall i :: 0 <= i < |ds| ==> Prev(start, ds, i) <= ds[i].x
  }

  /** The tokens before draw i; the bucket starts out full. */
  function Before(burst: real, start: real, ds: seq<Draw>, i: nat): real
    requires i <= |ds|
  {
    if i == 0 then burst
    else Min(burst, Before(burst, start, ds, i - 1) + (ds[i - 1].x - Prev(start, ds, i - 1))) - ds[i - 1].n
  }

  /** The tokens after draw i. */
  function Tokens(burst: real, start: real, ds: seq<Draw>, i: nat): real
    requires i < |ds|
  {
    Before(burst, start, ds, i + 1)
  }

  /** When the rate has made up for what draw i took too much. */
  function Release(burst: real, start: real, ds: seq<Draw>, i: nat): real
    requires i < |ds|
  {
    ds[i].x + if Tokens(burst, start, ds, i) >= 0.0 then 0.0 else -Tokens(burst, start, ds, i)
  }

  /** The tokens of draws j to k - 1. */
  function Sum(ds: seq<Draw>, j: nat, k: nat): real
    requires j <= k <= |ds|
  {
    if j == k then 0.0 else Sum(ds, j, k - 1) + ds[k - 1].n
  }

  lemma {:induction false} SumFirst(ds: seq<Draw>, j: nat, k: nat)
    requires j < k <= |ds|
    ensures Sum(ds, j, k) == ds[j].n + Sum(ds, j + 1, k)
    decreases k
  {
    if j < k - 1 {
      SumFirst(ds, j, k - 1);
    }
  }

  /** Tokens spent between two draws were there or were earned since. */
  lemma {:induction false} SpentWasEarned(burst: real, start: real, ds: seq<Draw>, j: nat, k: nat)
    requires j <= k < |ds|
    ensures Tokens(burst, start, ds, k) + Sum(ds, j + 1, k + 1)
         <= Tokens(burst, start, ds, j) + (ds[k].x - ds[j].x)
    decreases k
  {
    if j < k {
      SpentWasEarned(burst, start, ds, j, k - 1);
    }
  }

  lemma {:induction false} AtMostBurst(burst: real, start: real, ds: seq<Draw>, j: nat)
    requires j < |ds|
    ensures Tokens(burst, start, ds, j) <= burst - ds[j].n
  {
  }

  lemma {:induction false} WindowBound(burst: real, start: real, ds: seq<Draw>, j: nat, k: nat)
    requires j <= k < |ds| && ds[j].n <= burst
    ensures Sum(ds, j, k + 1) <= burst + (Release(burst, start, ds, k) - Release(burst, start, ds, j))
  {
    SpentWasEarned(burst, start, ds, j, k);
    SumFirst(ds, j, k + 1);
    AtMostBurst(burst, start, ds, j);
  }

  lemma {:induction false} ReleasesInOrder(burst: real, start: real, ds: seq<Draw>, k: nat)
    requires Ordered(start, ds) && 0 < k < |ds| && ds[k].n >= 0.0
    ensures Release(burst, start, ds, k - 1) <= Release(burst, start, ds, k)
  {
    SpentWasEarned(burst, start, ds, k - 1, k);
    assert Prev(start, ds, k) <= ds[k].x;
    assert Sum(ds, k, k + 1) == ds[k].n;
  }

  /** What is left of the burst and of what the window from j on earned. */
  function Allowance(burst: real, ds: seq<Draw>, j: nat, k: nat): real
    requires j <= k < |ds|
  {
    burst + (ds[k].x - ds[j].x) - Sum(ds, j, k + 1)
  }

  /** The tokens are at most the allowance of every window that ends here. */
  lemma {:induction false} TokensAreTight(burst: real, start: real, ds: seq<Draw>, j: nat, k: nat)
    requires j <= k < |ds|
    ensures Tokens(burst, start, ds, k) <= Allowance(burst, ds, j, k)
  {
    SpentWasEarned(burst, start, ds, j, k);
    SumFirst(ds, j, k + 1);
    AtMostBurst(burst, start, ds, j);
  }

  /** The window whose allowance they are. */
  lemma {:induction false} TightestWindow(burst: real, start: real, ds: seq<Draw>, k: nat) returns (j: nat)
    requires Ordered(start, ds) && k < |ds|
    ensures j <= k && Tokens(burst, start, ds, k) == Allowance(burst, ds, j, k)
  {
    assert Prev(start, ds, k) <= ds[k].x;
    assert Sum(ds, k, k) == 0.0 && Before(burst, start, ds, 0) == burst;
    if Before(burst, start, ds, k) + (ds[k].x - Prev(start, ds, k)) >= burst {
      j := k;
    } else {
      j := TightestWindow(burst, start, ds, k - 1);
      assert Tokens(burst, start, ds, k) == Tokens(burst, start, ds, k - 1) + (ds[k].x - ds[k - 1].x) - ds[k].n;
      assert Sum(ds, j, k + 1) == Sum(ds, j, k) + ds[k].n;
    }
  }
}
