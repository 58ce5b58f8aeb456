/** Real vectors of a known dimension, with products. */
module Vectors {
  type Vec = seq<real>

  function Co(u: Vec, k: nat): real {
    if k < |u| then u[k] else 0.0
  }

  function Zero(n: nat): Vec {
    seq(n, _ => 0.0)
  }

  /** a + t b */
  function Axpy(a: Vec, t: real, b: Vec, n: nat): (r: Vec)
    ensures |r| == n && forall k :: 0 <= k < n ==> r[k] == Co(a, k) + t * Co(b, k)
  {
    seq(n, k requires 0 <= k < n => Co(a, k) + t * Co(b, k))
  }

  function Times(a: Vec, b: Vec, n: nat): (r: Vec)
    ensures |r| == n && forall k :: 0 <= k < n ==> r[k] == Co(a, k) * Co(b, k)
  {
    seq(n, k requires 0 <= k < n => Co(a, k) * Co(b, k))
  }

  function Dot(u: Vec, v: Vec, n: nat): real {
    if n == 0 then 0.0 else Dot(u, v, n - 1) + Co(u, n - 1) * Co(v, n - 1)
  }

  /** Product of `u` and `v` with every coordinate scaled by a rate. */
  function Rated(r: Vec, u: Vec, v: Vec, n: nat): real {
    if n == 0 then 0.0 else Rated(r, u, v, n - 1) + Co(r, n - 1) * (Co(u, n - 1) * Co(v, n - 1))
  }

  predicate Positive(r: Vec, n: nat) {
    |r| == n && forall k :: 0 <= k < n ==> r[k] > 0.0
  }

  lemma {:induction false} DotZero(u: Vec, m: nat, n: nat)
    requires n <= m
    ensures Dot(u, Zero(m), n) == 0.0
  {
    if n > 0 { DotZero(u, m, n - 1); }
  }

  lemma {:induction false} DotAxpy(u: Vec, a: Vec, t: real, b: Vec, m: nat, n: nat)
    requires n <= m
    ensures Dot(u, Axpy(a, t, b, m), n) == Dot(u, a, n) + t * Dot(u, b, n)
  {
    if n > 0 {
      DotAxpy(u, a, t, b, m, n - 1);
      Spread(Co(u, n - 1), Co(a, n - 1), t, Co(b, n - 1), Dot(u, b, n - 1));
    }
  }

  lemma Spread(u: real, a: real, t: real, b: real, d: real)
    ensures u * (a + t * b) + t * d == u * a + t * (d + u * b)
  {
    assert u * (t * b) == t * (u * b);
  }

  lemma {:induction false} RatedAxpy(r: Vec, u: Vec, a: Vec, t: real, b: Vec, m: nat, n: nat)
    requires n <= m
    ensures Rated(r, u, Axpy(a, t, b, m), n) == Rated(r, u, a, n) + t * Rated(r, u, b, n)
  {
    if n > 0 {
      RatedAxpy(r, u, a, t, b, m, n - 1);
      var rk, uk, ak, bk := Co(r, n - 1), Co(u, n - 1), Co(a, n - 1), Co(b, n - 1);
      assert rk * (uk * (ak + t * bk)) == rk * (uk * ak) + t * (rk * (uk * bk)) by {
        Spread(uk, ak, t, bk, 0.0);
        Spread(rk, uk * ak, t, uk * bk, 0.0);
      }
      Distribute(t, Rated(r, u, b, n - 1), rk * (uk * bk));
    }
  }

  lemma Distribute(t: real, a: real, b: real)
    ensures t * (a + b) == t * a + t * b
  {
  }

  lemma {:induction false} RatedSwap(r: Vec, u: Vec, v: Vec, n: nat)
    ensures Rated(r, u, v, n) == Rated(r, v, u, n)
  {
    if n > 0 { RatedSwap(r, u, v, n - 1); }
  }

  /** Twice the product of two vectors is at most the sum of their squares. */
  lemma {:induction false} RatedSquares(r: Vec, u: Vec, v: Vec, n: nat)
    requires Positive(r, |r|) && n <= |r|
    ensures 2.0 * Rated(r, u, v, n) <= Rated(r, u, u, n) + Rated(r, v, v, n)
  {
    if n > 0 {
      RatedSquares(r, u, v, n - 1);
      var a, b, s := Co(u, n - 1), Co(v, n - 1), r[n - 1];
      assert (a - b) * (a - b) == a * a - 2.0 * (a * b) + b * b;
      Scaled(s, (a - b) * (a - b));
      Distribute(s, a * a - 2.0 * (a * b), b * b);
      Spread(s, a * a, -2.0, a * b, 0.0);
    }
  }

  lemma Scaled(s: real, q: real)
    requires s > 0.0
    ensures q >= 0.0 ==> s * q >= 0.0
  {
  }

  /** base + rate times pull */
  function Weights(base: Vec, rate: Vec, pull: Vec, n: nat): Vec {
    Axpy(base, 1.0, Times(rate, pull, n), n)
  }

  lemma {:induction false} DotWeights(base: Vec, rate: Vec, pull: Vec, x: Vec, m: nat, n: nat)
    requires n <= m
    ensures Dot(Weights(base, rate, pull, m), x, n) == Dot(base, x, n) + Rated(rate, pull, x, n)
  {
    if n > 0 {
      DotWeights(base, rate, pull, x, m, n - 1);
      var b, r, p, c := Co(base, n - 1), Co(rate, n - 1), Co(pull, n - 1), Co(x, n - 1);
      assert Weights(base, rate, pull, m)[n - 1] == b + r * p;
      assert (b + r * p) * c == b * c + r * (p * c);
    }
  }
}
