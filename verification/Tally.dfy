/** Sums over a sequence of tasks: what each contributes, added up as a multiset or as a number. */
module Tally {

  function Gather<T, X>(xs: seq<T>, f: T -> multiset<X>): multiset<X> {
    if xs == [] then multiset{} else
      var n := |xs| - 1;
      Gather(xs[..n], f) + f(xs[n])
  }

  function Count<T>(xs: seq<T>, p: T -> bool): nat {
    if xs == [] then 0 else
      var n := |xs| - 1;
      Count(xs[..n], p) + if p(xs[n]) then 1 else 0
  }

  lemma GatherSnoc<T, X>(xs: seq<T>, x: T, f: T -> multiset<X>)
    ensures Gather(xs + [x], f) == Gather(xs, f) + f(x)
  {
    assert (xs + [x])[..|xs|] == xs;
  }

  lemma {:induction false} GatherAppend<T, X>(xs: seq<T>, ys: seq<T>, f: T -> multiset<X>)
    ensures Gather(xs + ys, f) == Gather(xs, f) + Gather(ys, f)
  {
    if ys == [] {
      assert xs + ys == xs;
    } else {
      var n := |ys| - 1;
      GatherAppend(xs, ys[..n], f);
      assert xs + ys == (xs + ys[..n]) + [ys[n]];
      GatherSnoc(xs + ys[..n], ys[n], f);
    }
  }

  /** Changing one element trades its contribution for the new one. */
  lemma {:induction false} GatherUpdate<T, X>(xs: seq<T>, i: nat, x: T, f: T -> multiset<X>)
    requires i < |xs|
    ensures Gather(xs[i := x], f) + f(xs[i]) == Gather(xs, f) + f(x)
  {
    var n := |xs| - 1;
    if i == n {
      assert xs[i := x][..n] == xs[..n];
    } else {
      GatherUpdate(xs[..n], i, x, f);
      assert xs[i := x][..n] == xs[..n][i := x];
      var before, after, last := Gather(xs[..n], f), Gather(xs[..n][i := x], f), f(xs[n]);
      assert (after + last) + f(xs[i]) == (after + f(xs[i])) + last;
      assert (before + last) + f(x) == (before + f(x)) + last;
    }
  }

  /** A change that leaves the contribution alone leaves the sum alone. */
  lemma GatherSame<T, X>(xs: seq<T>, i: nat, x: T, f: T -> multiset<X>)
    requires i < |xs| && f(xs[i]) == f(x)
    ensures Gather(xs[i := x], f) == Gather(xs, f)
  {
    GatherUpdate(xs, i, x, f);
    var after, before := Gather(xs[i := x], f), Gather(xs, f);
    assert after == (after + f(x)) - f(x) && before == (before + f(x)) - f(x);
  }

  /** A change that adds to the contribution adds to the sum. */
  lemma GatherMore<T, X>(xs: seq<T>, i: nat, x: T, f: T -> multiset<X>, more: multiset<X>)
    requires i < |xs| && f(x) == f(xs[i]) + more
    ensures Gather(xs[i := x], f) == Gather(xs, f) + more
  {
    GatherUpdate(xs, i, x, f);
    var after, before := Gather(xs[i := x], f), Gather(xs, f);
    assert after == (after + f(xs[i])) - f(xs[i]);
    assert before + more == (before + (f(xs[i]) + more)) - f(xs[i]);
  }

  /** Sums split like their contributions. */
  lemma {:induction false} GatherSplit<T, X>(xs: seq<T>, f: T -> multiset<X>, g: T -> multiset<X>, h: T -> multiset<X>)
    requires forall x :: x in xs ==> f(x) == g(x) + h(x)
    ensures Gather(xs, f) == Gather(xs, g) + Gather(xs, h)
  {
    if xs != [] {
      var n := |xs| - 1;
      assert xs[n] in xs;
      GatherSplit(xs[..n], f, g, h);
    }
  }

  lemma {:induction false} GatherEqual<T, X>(xs: seq<T>, f: T -> multiset<X>, g: T -> multiset<X>)
    requires forall x :: x in xs ==> f(x) == g(x)
    ensures Gather(xs, f) == Gather(xs, g)
  {
    if xs != [] {
      var n := |xs| - 1;
      assert xs[n] in xs;
      GatherEqual(xs[..n], f, g);
    }
  }

  /** How often one value occurs in a sum, counted by a condition. */
  lemma {:induction false} GatherCounts<T, X>(xs: seq<T>, f: T -> multiset<X>, y: X, p: T -> bool)
    requires forall x :: x in xs ==> f(x)[y] == if p(x) then 1 else 0
    ensures Gather(xs, f)[y] == Count(xs, p)
  {
    if xs != [] {
      var n := |xs| - 1;
      assert xs[n] in xs;
      GatherCounts(xs[..n], f, y, p);
    }
  }

  /** The size of a sum, counted by a condition. */
  lemma {:induction false} GatherSizes<T, X>(xs: seq<T>, f: T -> multiset<X>, p: T -> bool)
    requires forall x :: x in xs ==> |f(x)| == if p(x) then 1 else 0
    ensures |Gather(xs, f)| == Count(xs, p)
  {
    if xs != [] {
      var n := |xs| - 1;
      assert xs[n] in xs;
      GatherSizes(xs[..n], f, p);
    }
  }

  lemma {:induction false} CountSplit<T>(xs: seq<T>, p: T -> bool, q: T -> bool, r: T -> bool)
    requires forall x :: x in xs ==> (p(x) <==> q(x) || r(x)) && !(q(x) && r(x))
    ensures Count(xs, p) == Count(xs, q) + Count(xs, r)
  {
    if xs != [] {
      var n := |xs| - 1;
      assert xs[n] in xs;
      CountSplit(xs[..n], p, q, r);
    }
  }
}
