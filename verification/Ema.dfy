/** The exponential moving average that filters the sensor voltage, over the reals. */
module Ema {
  const ALPHA: real := 0.3

  /** One update of the filter. */
  function Ema(v: real, x: real): real {
    v * (1.0 - ALPHA) + x * ALPHA
  }

  /** The filter started at v0 after the inputs xs. */
  function Fold(v0: real, xs: seq<real>): real {
    if xs == [] then v0 else Ema(Fold(v0, xs[..|xs| - 1]), xs[|xs| - 1])
  }

  /** (1 - ALPHA)^n, the weight the starting value still has after n updates. */
  function Pow(n: nat): (p: real)
    ensures 0.0 < p <= 1.0
  {
    if n == 0 then 1.0 else 0.7 * Pow(n - 1)
  }

  /** What an input contributes after n more updates. */
  function Aged(n: nat, x: real): real {
    Pow(n) * x
  }

  /** The first k inputs, each weighted by its age when all of xs has been seen. */
  function Weighted(xs: seq<real>, k: nat): real
    requires k <= |xs|
  {
    if k == 0 then 0.0 else Weighted(xs, k - 1) + Aged(|xs| - k, xs[k - 1])
  }

  function LastOf(x0: real, xs: seq<real>): real {
    if xs == [] then x0 else xs[|xs| - 1]
  }

  /** Starting from x0, no input exceeds the one before it by more than d. */
  predicate RisesAtMost(x0: real, xs: seq<real>, d: real) {
    xs == [] ||
    (var front := xs[..|xs| - 1];
     xs[|xs| - 1] - LastOf(x0, front) <= d && RisesAtMost(x0, front, d))
  }

  /** Starting from x0, no input falls below the one before it by more than d. */
  predicate FallsAtMost(x0: real, xs: seq<real>, d: real) {
    xs == [] ||
    (var front := xs[..|xs| - 1];
     LastOf(x0, front) - xs[|xs| - 1] <= d && FallsAtMost(x0, front, d))
  }

  predicate AllWithin(xs: seq<real>, lo: real, hi: real) {
    forall i :: 0 <= i < |xs| ==> lo <= xs[i] <= hi
  }

  lemma FoldSnoc(v0: real, xs: seq<real>, x: real)
    ensures Fold(v0, xs + [x]) == Ema(Fold(v0, xs), x)
  {
    assert (xs + [x])[..|xs|] == xs;
  }

  lemma {:induction false} WeightedAges(xs: seq<real>, k: nat)
    requires k < |xs|
    ensures Weighted(xs, k) == 0.7 * Weighted(xs[..|xs| - 1], k)
  {
    if k > 0 {
      WeightedAges(xs, k - 1);
      assert xs[..|xs| - 1][k - 1] == xs[k - 1];
      AgedOneMore(|xs| - 1 - k, xs[k - 1]);
    }
  }

  lemma AgedOneMore(n: nat, x: real)
    ensures Aged(n + 1, x) == 0.7 * Aged(n, x)
  {
    assert Pow(n + 1) == 0.7 * Pow(n);
  }

  lemma Distribute(c: real, a: real, p: real, x: real)
    ensures c * (a + p * x) == c * a + (c * p) * x
  {}

  /** Closed form: 0.7^n v0 plus 0.3 times the inputs weighted by 0.7 to the power of their age. */
  lemma {:induction false} ClosedForm(v0: real, xs: seq<real>)
    ensures Fold(v0, xs) == Pow(|xs|) * v0 + ALPHA * Weighted(xs, |xs|)
  {
    if xs != [] {
      var n := |xs| - 1;
      ClosedForm(v0, xs[..n]);
      WeightedAges(xs, n);
      assert Pow(n + 1) * v0 == 0.7 * (Pow(n) * v0);
    }
  }

  /** The start is forgotten geometrically, whatever the inputs. */
  lemma {:induction false} ForgetsStart(v: real, w: real, xs: seq<real>)
    ensures Fold(v, xs) - Fold(w, xs) == Pow(|xs|) * (v - w)
  {
    if xs != [] {
      var n := |xs| - 1;
      ForgetsStart(v, w, xs[..n]);
      assert Pow(n + 1) * (v - w) == 0.7 * (Pow(n) * (v - w));
    }
  }

  /** On a constant input the distance to it shrinks by exactly 0.7 per update. */
  lemma {:induction false} ConvergesOnConstant(v0: real, x: real, xs: seq<real>)
    requires AllWithin(xs, x, x)
    ensures Fold(v0, xs) - x == Pow(|xs|) * (v0 - x)
  {
    StaysInHull(x, xs, x, x);
    ForgetsStart(v0, x, xs);
  }

  /** The filter never leaves an interval that holds its start and all its inputs. */
  lemma {:induction false} StaysInHull(v0: real, xs: seq<real>, lo: real, hi: real)
    requires lo <= v0 <= hi && AllWithin(xs, lo, hi)
    ensures lo <= Fold(v0, xs) <= hi
  {
    if xs != [] {
      StaysInHull(v0, xs[..|xs| - 1], lo, hi);
    }
  }

  /** Raising the start or any input never lowers the output. */
  lemma {:induction false} Monotone(v: real, w: real, xs: seq<real>, ys: seq<real>)
    requires v <= w && |xs| == |ys| && forall i :: 0 <= i < |xs| ==> xs[i] <= ys[i]
    ensures Fold(v, xs) <= Fold(w, ys)
  {
    if xs != [] {
      Monotone(v, w, xs[..|xs| - 1], ys[..|ys| - 1]);
    }
  }

  /** How far an input moving at most d per update can be ahead after n updates, from a head start of e. */
  function Lead(n: nat, e: real, d: real): real {
    Pow(n) * e + 7.0 / 3.0 * (d * (1.0 - Pow(n)))
  }

  /** While the input rises by at most d per update, it leads the output by at most (7/3) d once the start is forgotten. */
  lemma {:induction false} TracksRise(x0: real, v0: real, xs: seq<real>, d: real)
    requires RisesAtMost(x0, xs, d)
    ensures LastOf(x0, xs) - Fold(v0, xs) <= Lead(|xs|, x0 - v0, d)
  {
    if xs != [] {
      var n := |xs| - 1;
      TracksRise(x0, v0, xs[..n], d);
      RampStep(n, x0 - v0, d);
    }
  }

  /** The same for a falling input, which lags the output. */
  lemma {:induction false} TracksFall(x0: real, v0: real, xs: seq<real>, d: real)
    requires FallsAtMost(x0, xs, d)
    ensures Fold(v0, xs) - LastOf(x0, xs) <= Lead(|xs|, v0 - x0, d)
  {
    if xs != [] {
      var n := |xs| - 1;
      TracksFall(x0, v0, xs[..n], d);
      RampStep(n, v0 - x0, d);
    }
  }

  lemma RampStep(n: nat, e: real, d: real)
    ensures 0.7 * (Lead(n, e, d) + d) == Lead(n + 1, e, d)
  {
    var p := Pow(n);
    assert Pow(n + 1) == 0.7 * p;
    Distribute(0.7, 0.0, p, e);
    Remainder(d, p);
    Remainder(d, 0.7 * p);
    Scaled(d, 0.7, p);
  }

  lemma Remainder(d: real, p: real)
    ensures d * (1.0 - p) == d - d * p
  {}

  lemma Scaled(d: real, c: real, p: real)
    ensures d * (c * p) == c * (d * p)
  {}

  /** A greater head start never lowers the bound. */
  lemma LeadMonotone(n: nat, e: real, f: real, d: real)
    requires e <= f
    ensures Lead(n, e, d) <= Lead(n, f, d)
  {
    ScaleMonotone(Pow(n), e, f);
  }

  lemma ScaleMonotone(t: real, a: real, b: real)
    requires t >= 0.0 && a <= b
    ensures t * a <= t * b
  {}
}
