/** The large-margin training problem: instances with weighted hypotheses, the
    primal objective, the dual objective, and how they bound each other. */
module MarginModel {
  import opened Wrappers
  import opened Vectors

  const EPSILON: real := 0.01

  /** A hypothesis: its features, its loss and its weight in the dual problem. */
  datatype Hyp = Hyp(mvector: Vec, loss: real, alpha: real)

  /** A training example: its working set and which of it is the hope. */
  datatype Instance = Instance(hyps: seq<Hyp>, hope: Option<nat>)

  predicate Hoped(inst: Instance) {
    inst.hope.Some? && inst.hope.value < |inst.hyps|
  }

  function HopeOf(inst: Instance): Hyp {
    if Hoped(inst) then inst.hyps[inst.hope.value] else Hyp([], 0.0, 0.0)
  }

  /** How much worse the hypothesis is than the hope, minus how much the model
      prefers the hope. */
  function Violation(inst: Instance, w: Vec, hyp: Hyp, n: nat): real {
    var loss := -HopeOf(inst).loss + hyp.loss;
    var margin := -Dot(w, Axpy(HopeOf(inst).mvector, -1.0, hyp.mvector, n), n);
    loss - margin
  }

  // ----- sums over a working set

  function AlphaSum(hyps: seq<Hyp>, k: nat): real
    requires k <= |hyps|
  {
    if k == 0 then 0.0 else AlphaSum(hyps, k - 1) + hyps[k - 1].alpha
  }

  function AlphaLoss(hyps: seq<Hyp>, k: nat): real
    requires k <= |hyps|
  {
    if k == 0 then 0.0 else AlphaLoss(hyps, k - 1) + hyps[k - 1].alpha * hyps[k - 1].loss
  }

  /** The weighted sum of the hypotheses' features. */
  function Mix(hyps: seq<Hyp>, k: nat, n: nat): (r: Vec)
    requires k <= |hyps|
    ensures |r| == n
  {
    if k == 0 then Zero(n) else Axpy(Mix(hyps, k - 1, n), hyps[k - 1].alpha, hyps[k - 1].mvector, n)
  }

  function AlphaViolation(inst: Instance, w: Vec, k: nat, n: nat): real
    requires k <= |inst.hyps|
  {
    if k == 0 then 0.0
    else AlphaViolation(inst, w, k - 1, n) + inst.hyps[k - 1].alpha * Violation(inst, w, inst.hyps[k - 1], n)
  }

  function MaxViolation(inst: Instance, w: Vec, k: nat, n: nat): real
    requires 0 < k <= |inst.hyps|
  {
    var v := Violation(inst, w, inst.hyps[k - 1], n);
    if k == 1 then v
    else
      var m := MaxViolation(inst, w, k - 1, n);
      if v > m then v else m
  }

  predicate NonNegative(hyps: seq<Hyp>) {
    forall h :: 0 <= h < |hyps| ==> hyps[h].alpha >= 0.0
  }

  /** The weights add up to one, or are not yet given out. */
  predicate Balanced(inst: Instance) {
    if inst.hope.None? then forall h :: 0 <= h < |inst.hyps| ==> inst.hyps[h].alpha == 0.0
    else inst.hope.value < |inst.hyps| && AlphaSum(inst.hyps, |inst.hyps|) == 1.0
  }

  /** Every hypothesis that has weight violates almost as much as any other. */
  predicate Kkt(inst: Instance, w: Vec, n: nat) {
    forall h, j :: 0 <= h < |inst.hyps| && 0 <= j < |inst.hyps| && inst.hyps[h].alpha > 0.0 ==>
      Violation(inst, w, inst.hyps[j], n) <= Violation(inst, w, inst.hyps[h], n) + EPSILON
  }

  // ----- one instance

  /** The hope's loss less its model cost. */
  function HopeScore(inst: Instance, w: Vec, n: nat): real {
    HopeOf(inst).loss - Dot(w, HopeOf(inst).mvector, n)
  }

  lemma ViolationIs(inst: Instance, w: Vec, hyp: Hyp, n: nat)
    ensures Violation(inst, w, hyp, n)
         == hyp.loss - Dot(w, hyp.mvector, n) - HopeScore(inst, w, n)
  {
    DotAxpy(w, HopeOf(inst).mvector, -1.0, hyp.mvector, n, n);
  }

  lemma {:induction false} AlphaViolationIs(inst: Instance, w: Vec, k: nat, n: nat)
    requires k <= |inst.hyps|
    ensures AlphaViolation(inst, w, k, n)
         == AlphaLoss(inst.hyps, k) - Dot(w, Mix(inst.hyps, k, n), n) - AlphaSum(inst.hyps, k) * HopeScore(inst, w, n)
  {
    hide Dot, Axpy, Violation, HopeScore;
    var c := HopeScore(inst, w, n);
    if k == 0 {
      DotZero(w, n, n);
    } else {
      AlphaViolationIs(inst, w, k - 1, n);
      var h := inst.hyps[k - 1];
      ViolationIs(inst, w, h, n);
      DotAxpy(w, Mix(inst.hyps, k - 1, n), h.alpha, h.mvector, n, n);
      SpreadShare(h.alpha, h.loss, Dot(w, h.mvector, n), c);
      Shares(AlphaSum(inst.hyps, k - 1), h.alpha, c);
    }
  }

  lemma SpreadShare(a: real, l: real, e: real, c: real)
    ensures a * (l - e - c) == a * l - a * e - a * c
  {
  }

  lemma {:induction false} MaxIsMost(inst: Instance, w: Vec, k: nat, n: nat, h: nat)
    requires h < k <= |inst.hyps|
    ensures Violation(inst, w, inst.hyps[h], n) <= MaxViolation(inst, w, k, n)
  {
    if h < k - 1 { MaxIsMost(inst, w, k - 1, n, h); }
  }

  lemma {:induction false} MaxIsReached(inst: Instance, w: Vec, k: nat, n: nat) returns (h: nat)
    requires 0 < k <= |inst.hyps|
    ensures h < k && Violation(inst, w, inst.hyps[h], n) == MaxViolation(inst, w, k, n)
  {
    h := k - 1;
    if k > 1 && Violation(inst, w, inst.hyps[k - 1], n) <= MaxViolation(inst, w, k - 1, n) {
      h := MaxIsReached(inst, w, k - 1, n);
    }
  }

  /** Weighted violations are at most the greatest. */
  lemma {:induction false} WeightedIsLess(inst: Instance, w: Vec, k: nat, n: nat, m: real)
    requires k <= |inst.hyps| && NonNegative(inst.hyps)
    requires forall h :: 0 <= h < |inst.hyps| ==> Violation(inst, w, inst.hyps[h], n) <= m
    ensures AlphaViolation(inst, w, k, n) <= AlphaSum(inst.hyps, k) * m
  {
    hide Violation;
    if k > 0 {
      WeightedIsLess(inst, w, k - 1, n, m);
      var a, v := inst.hyps[k - 1].alpha, Violation(inst, w, inst.hyps[k - 1], n);
      MoreShare(a, v, m);
      Shares(AlphaSum(inst.hyps, k - 1), a, m);
    }
  }

  /** Near KKT, weighted violations are almost the greatest. */
  lemma {:induction false} WeightedIsMore(inst: Instance, w: Vec, k: nat, n: nat, m: real)
    requires k <= |inst.hyps| && NonNegative(inst.hyps)
    requires forall h :: 0 <= h < |inst.hyps| && inst.hyps[h].alpha > 0.0 ==> m <= Violation(inst, w, inst.hyps[h], n)
    ensures AlphaSum(inst.hyps, k) * m <= AlphaViolation(inst, w, k, n)
  {
    hide Violation;
    if k > 0 {
      WeightedIsMore(inst, w, k - 1, n, m);
      var a, v := inst.hyps[k - 1].alpha, Violation(inst, w, inst.hyps[k - 1], n);
      MoreShare(a, m, v);
      Shares(AlphaSum(inst.hyps, k - 1), a, m);
    }
  }

  lemma Shares(s: real, a: real, m: real)
    ensures (s + a) * m == s * m + a * m
  {
  }

  lemma MoreShare(a: real, m: real, v: real)
    requires a >= 0.0 && (a > 0.0 ==> m <= v)
    ensures a * m <= a * v
  {
  }

  // ----- all instances

  /** What one instance adds to the direction the weights are pulled in. */
  function PullOf(inst: Instance, n: nat): (r: Vec)
    ensures |r| == n
  {
    if Hoped(inst) then Axpy(Mix(inst.hyps, |inst.hyps|, n), -1.0, HopeOf(inst).mvector, n) else Zero(n)
  }

  function Pull(insts: seq<Instance>, i: nat, n: nat): (r: Vec)
    requires i <= |insts|
    ensures |r| == n
  {
    if i == 0 then Zero(n) else Axpy(Pull(insts, i - 1, n), 1.0, PullOf(insts[i - 1], n), n)
  }

  /** Weighted losses relative to the hopes. */
  function GainOf(inst: Instance): real {
    AlphaLoss(inst.hyps, |inst.hyps|) - HopeOf(inst).loss
  }

  function Gain(insts: seq<Instance>, i: nat): real
    requires i <= |insts|
  {
    if i == 0 then 0.0 else Gain(insts, i - 1) + GainOf(insts[i - 1])
  }

  /** A training problem: instances, initial weights, learning rates and the
      number of features. */
  datatype Problem = Problem(insts: seq<Instance>, base: Vec, rate: Vec, n: nat)

  /** All instances have a hope and weights that are shares of one. */
  predicate Feasible(p: Problem) {
    && Positive(p.rate, p.n)
    && forall i :: 0 <= i < |p.insts| ==> Hoped(p.insts[i]) && Balanced(p.insts[i]) && NonNegative(p.insts[i].hyps)
  }

  /** The weights that go with the current dual weights. */
  function Solution(p: Problem): Vec {
    Weights(p.base, p.rate, Pull(p.insts, |p.insts|, p.n), p.n)
  }

  function MaxSum(p: Problem, w: Vec, i: nat): real
    requires i <= |p.insts|
  {
    if i == 0 then 0.0
    else MaxSum(p, w, i - 1)
         + (if p.insts[i - 1].hyps == [] then 0.0 else MaxViolation(p.insts[i - 1], w, |p.insts[i - 1].hyps|, p.n))
  }

  function Ratio(a: Vec, r: Vec, n: nat): (q: Vec)
    requires Positive(r, n)
    ensures |q| == n && forall k :: 0 <= k < n ==> q[k] == Co(a, k) / r[k]
  {
    seq(n, k requires 0 <= k < n => Co(a, k) / r[k])
  }

  /** The objective at any weights: distance from the initial weights, and each
      instance's greatest violation. */
  function Primal(p: Problem, w: Vec): real
    requires Positive(p.rate, p.n)
  {
    var d := Axpy(w, -1.0, p.base, p.n);
    0.5 * Dot(d, Ratio(d, p.rate, p.n), p.n) + MaxSum(p, w, |p.insts|)
  }

  /** The dual objective at the current dual weights. */
  function Dual(p: Problem): real {
    var z := Pull(p.insts, |p.insts|, p.n);
    Gain(p.insts, |p.insts|) - Dot(p.base, z, p.n) - 0.5 * Rated(p.rate, z, z, p.n)
  }

  /** One instance's weighted violations at any weights. */
  lemma WeightedOf(inst: Instance, w: Vec, n: nat)
    requires Hoped(inst) && Balanced(inst)
    ensures AlphaViolation(inst, w, |inst.hyps|, n) == GainOf(inst) - Dot(w, PullOf(inst, n), n)
  {
    AlphaViolationIs(inst, w, |inst.hyps|, n);
    DotAxpy(w, Mix(inst.hyps, |inst.hyps|, n), -1.0, HopeOf(inst).mvector, n, n);
  }

  lemma OneExceeds(inst: Instance, w: Vec, n: nat)
    requires Hoped(inst) && Balanced(inst) && NonNegative(inst.hyps)
    ensures GainOf(inst) - Dot(w, PullOf(inst, n), n) <= MaxViolation(inst, w, |inst.hyps|, n)
  {
    hide Dot, Violation, GainOf, PullOf, MaxViolation;
    WeightedOf(inst, w, n);
    var m := MaxViolation(inst, w, |inst.hyps|, n);
    forall h | 0 <= h < |inst.hyps| ensures Violation(inst, w, inst.hyps[h], n) <= m {
      MaxIsMost(inst, w, |inst.hyps|, n, h);
    }
    WeightedIsLess(inst, w, |inst.hyps|, n, m);
  }

  lemma OneExceedsLittle(inst: Instance, w: Vec, n: nat)
    requires Hoped(inst) && Balanced(inst) && NonNegative(inst.hyps) && Kkt(inst, w, n)
    ensures MaxViolation(inst, w, |inst.hyps|, n) <= GainOf(inst) - Dot(w, PullOf(inst, n), n) + EPSILON
  {
    hide Dot, Violation, GainOf, PullOf, MaxViolation;
    WeightedOf(inst, w, n);
    var m := MaxViolation(inst, w, |inst.hyps|, n);
    var top := MaxIsReached(inst, w, |inst.hyps|, n);
    WeightedIsMore(inst, w, |inst.hyps|, n, m - EPSILON);
  }

  /** The greatest violations exceed the weighted ones, at any weights. */
  lemma {:induction false} MaxExceeds(p: Problem, w: Vec, i: nat)
    requires Feasible(p) && i <= |p.insts|
    ensures Gain(p.insts, i) - Dot(w, Pull(p.insts, i, p.n), p.n) <= MaxSum(p, w, i)
  {
    hide Dot, GainOf, PullOf, MaxViolation, Axpy, Positive;
    if i == 0 {
      DotZero(w, p.n, p.n);
    } else {
      MaxExceeds(p, w, i - 1);
      OneExceeds(p.insts[i - 1], w, p.n);
      DotAxpy(w, Pull(p.insts, i - 1, p.n), 1.0, PullOf(p.insts[i - 1], p.n), p.n, p.n);
      assert p.insts[i - 1].hyps != [];
      assert MaxSum(p, w, i) == MaxSum(p, w, i - 1) + MaxViolation(p.insts[i - 1], w, |p.insts[i - 1].hyps|, p.n);
      assert Gain(p.insts, i) == Gain(p.insts, i - 1) + GainOf(p.insts[i - 1]);
      assert Dot(w, Pull(p.insts, i, p.n), p.n) == Dot(w, Pull(p.insts, i - 1, p.n), p.n) + Dot(w, PullOf(p.insts[i - 1], p.n), p.n);
    }
  }

  /** Near KKT they exceed them by little. */
  lemma {:induction false} MaxExceedsLittle(p: Problem, w: Vec, i: nat)
    requires Feasible(p) && i <= |p.insts|
    requires forall j :: 0 <= j < |p.insts| ==> Kkt(p.insts[j], w, p.n)
    ensures MaxSum(p, w, i) <= Gain(p.insts, i) - Dot(w, Pull(p.insts, i, p.n), p.n) + i as real * EPSILON
  {
    hide Dot, GainOf, PullOf, MaxViolation, Axpy, Positive, Kkt;
    if i == 0 {
      DotZero(w, p.n, p.n);
    } else {
      MaxExceedsLittle(p, w, i - 1);
      OneExceedsLittle(p.insts[i - 1], w, p.n);
      DotAxpy(w, Pull(p.insts, i - 1, p.n), 1.0, PullOf(p.insts[i - 1], p.n), p.n, p.n);
      assert p.insts[i - 1].hyps != [];
      assert MaxSum(p, w, i) == MaxSum(p, w, i - 1) + MaxViolation(p.insts[i - 1], w, |p.insts[i - 1].hyps|, p.n);
      assert Gain(p.insts, i) == Gain(p.insts, i - 1) + GainOf(p.insts[i - 1]);
      assert Dot(w, Pull(p.insts, i, p.n), p.n) == Dot(w, Pull(p.insts, i - 1, p.n), p.n) + Dot(w, PullOf(p.insts[i - 1], p.n), p.n);
      assert MaxSum(p, w, i - 1) <= Gain(p.insts, i - 1) - Dot(w, Pull(p.insts, i - 1, p.n), p.n) + (i - 1) as real * EPSILON;
      assert i as real * EPSILON == (i - 1) as real * EPSILON + EPSILON;
    }
  }

  /** Any weights are the initial ones pulled somewhere. */
  lemma AnyIsPulled(p: Problem, w: Vec) returns (y: Vec)
    requires Positive(p.rate, p.n) && |w| == p.n
    ensures w == Weights(p.base, p.rate, y, p.n)
    ensures Primal(p, w) == 0.5 * Rated(p.rate, y, y, p.n) + MaxSum(p, w, |p.insts|)
  {
    var d := Axpy(w, -1.0, p.base, p.n);
    y := Ratio(d, p.rate, p.n);
    forall k | 0 <= k < p.n ensures Weights(p.base, p.rate, y, p.n)[k] == w[k] {
      assert p.rate[k] * (Co(d, k) / p.rate[k]) == Co(d, k);
    }
    DistanceIs(p.rate, d, p.n, p.n);
  }

  lemma {:induction false} DistanceIs(rate: Vec, d: Vec, m: nat, n: nat)
    requires Positive(rate, m) && n <= m
    ensures Dot(d, Ratio(d, rate, m), n) == Rated(rate, Ratio(d, rate, m), Ratio(d, rate, m), n)
  {
    if n > 0 {
      DistanceIs(rate, d, m, n - 1);
      var r, a := rate[n - 1], Co(d, n - 1);
      var q := a / r;
      assert r * (q * q) == (r * q) * q;
      assert r * q == a;
    }
  }

  /** Weak duality: the dual objective is below the primal one everywhere. */
  lemma WeakDuality(p: Problem, w: Vec)
    requires Feasible(p) && |w| == p.n
    ensures Dual(p) <= Primal(p, w)
  {
    var y := AnyIsPulled(p, w);
    var z := Pull(p.insts, |p.insts|, p.n);
    MaxExceeds(p, w, |p.insts|);
    DotWeights(p.base, p.rate, y, z, p.n, p.n);
    RatedSquares(p.rate, y, z, p.n);
  }

  /** Where all instances nearly satisfy the KKT conditions, the duality gap is
      small. */
  lemma SmallGap(p: Problem)
    requires Feasible(p)
    requires forall i :: 0 <= i < |p.insts| ==> Kkt(p.insts[i], Solution(p), p.n)
    ensures Primal(p, Solution(p)) <= Dual(p) + |p.insts| as real * EPSILON
  {
    var z := Pull(p.insts, |p.insts|, p.n);
    var w := Solution(p);
    MaxExceedsLittle(p, w, |p.insts|);
    DotWeights(p.base, p.rate, z, z, p.n, p.n);
    SolutionDistance(p);
  }

  lemma SolutionDistance(p: Problem)
    requires Positive(p.rate, p.n)
    ensures var z := Pull(p.insts, |p.insts|, p.n);
            Primal(p, Solution(p)) == 0.5 * Rated(p.rate, z, z, p.n) + MaxSum(p, Solution(p), |p.insts|)
  {
    var z := Pull(p.insts, |p.insts|, p.n);
    var w := Solution(p);
    var d := Axpy(w, -1.0, p.base, p.n);
    forall k | 0 <= k < p.n ensures Ratio(d, p.rate, p.n)[k] == z[k] {
      assert d[k] == p.rate[k] * z[k];
      assert (p.rate[k] * z[k]) / p.rate[k] == z[k];
    }
    assert Ratio(d, p.rate, p.n) == z;
    DistanceIs(p.rate, d, p.n, p.n);
  }

  /** Near KKT, no weights at all have an objective lower by more than the
      tolerance for each instance. */
  lemma NearKktIsNearOptimal(p: Problem, w: Vec)
    requires Feasible(p) && |w| == p.n
    requires forall i :: 0 <= i < |p.insts| ==> Kkt(p.insts[i], Solution(p), p.n)
    ensures Primal(p, Solution(p)) <= Primal(p, w) + |p.insts| as real * EPSILON
  {
    WeakDuality(p, w);
    SmallGap(p);
  }
}
