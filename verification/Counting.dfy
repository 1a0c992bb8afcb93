/** How many elements of a sequence have a property. */
module Counting {
  function Count<T>(xs: seq<T>, p: T -> bool): (n: nat)
    ensures n <= |xs|
  {
    if xs == [] then 0 else (if p(xs[0]) then 1 else 0) + Count(xs[1..], p)
  }

  lemma {:induction false} CountUpdate<T>(xs: seq<T>, i: nat, x: T, p: T -> bool)
    requires i < |xs|
    ensures Count(xs[i := x], p) == Count(xs, p) - (if p(xs[i]) then 1 else 0) + (if p(x) then 1 else 0)
    decreases |xs|
  {
    var ys := xs[i := x];
    if i == 0 {
      assert ys[1..] == xs[1..];
    } else {
      assert ys[1..] == xs[1..][i - 1 := x];
      CountUpdate(xs[1..], i - 1, x, p);
    }
  }

  lemma {:induction false} CountFree<T>(xs: seq<T>, i: nat, p: T -> bool)
    requires i < |xs| && !p(xs[i])
    ensures Count(xs, p) < |xs|
    decreases |xs|
  {
    if i > 0 {
      CountFree(xs[1..], i - 1, p);
    }
  }

  lemma {:induction false} CountSnoc<T>(xs: seq<T>, x: T, p: T -> bool)
    ensures Count(xs + [x], p) == Count(xs, p) + (if p(x) then 1 else 0)
    decreases |xs|
  {
    if xs == [] {
      assert [] + [x] == [x];
    } else {
      assert (xs + [x])[1..] == xs[1..] + [x];
      CountSnoc(xs[1..], x, p);
    }
  }

  lemma {:induction false} CountNone<T>(xs: seq<T>, p: T -> bool)
    requires forall i :: 0 <= i < |xs| ==> !p(xs[i])
    ensures Count(xs, p) == 0
    decreases |xs|
  {
    if xs != [] {
      CountNone(xs[1..], p);
    }
  }
}
