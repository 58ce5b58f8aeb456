/** What moving dual weight, changing the hope and adding a hypothesis do to
    the pull on the weights and to the dual objective. */
module MarginSteps {
  import opened Wrappers
  import opened Vectors
  import opened MarginModel

  function AddAlpha(hyps: seq<Hyp>, a: nat, t: real): seq<Hyp>
    requires a < |hyps|
  {
    hyps[a := hyps[a].(alpha := hyps[a].alpha + t)]
  }

  /** Weight `t` moved from hypothesis `b` to hypothesis `a`. */
  function Shift(inst: Instance, a: nat, b: nat, t: real): Instance
    requires a < |inst.hyps| && b < |inst.hyps| && a != b
  {
    inst.(hyps := AddAlpha(AddAlpha(inst.hyps, a, t), b, -t))
  }

  /** The direction in which moving weight from `b` to `a` moves the weights. */
  function Direction(inst: Instance, a: nat, b: nat, n: nat): Vec
    requires a < |inst.hyps| && b < |inst.hyps|
  {
    Axpy(inst.hyps[a].mvector, -1.0, inst.hyps[b].mvector, n)
  }

  lemma AxpySwap(m: Vec, s: real, u: Vec, t: real, v: Vec, n: nat)
    ensures Axpy(Axpy(m, s, u, n), t, v, n) == Axpy(Axpy(m, t, v, n), s, u, n)
  {
  }

  lemma AxpyMerge(m: Vec, s: real, t: real, v: Vec, n: nat)
    ensures Axpy(Axpy(m, s, v, n), t, v, n) == Axpy(m, s + t, v, n)
  {
    forall k | 0 <= k < n ensures Axpy(Axpy(m, s, v, n), t, v, n)[k] == Axpy(m, s + t, v, n)[k] {
      Shares(s, t, Co(v, k));
    }
  }

  lemma {:induction false} AddedMix(hyps: seq<Hyp>, a: nat, t: real, k: nat, n: nat)
    requires a < |hyps| && k <= |hyps|
    ensures Mix(AddAlpha(hyps, a, t), k, n) == if a < k then Axpy(Mix(hyps, k, n), t, hyps[a].mvector, n) else Mix(hyps, k, n)
  {
    if k > 0 {
      AddedMix(hyps, a, t, k - 1, n);
      var h := hyps[k - 1];
      if a == k - 1 {
        AxpyMerge(Mix(hyps, k - 1, n), h.alpha, t, h.mvector, n);
      } else if a < k - 1 {
        AxpySwap(Mix(hyps, k - 1, n), t, hyps[a].mvector, h.alpha, h.mvector, n);
      }
    }
  }

  lemma {:induction false} AddedSums(hyps: seq<Hyp>, a: nat, t: real, k: nat)
    requires a < |hyps| && k <= |hyps|
    ensures AlphaSum(AddAlpha(hyps, a, t), k) == AlphaSum(hyps, k) + (if a < k then t else 0.0)
    ensures AlphaLoss(AddAlpha(hyps, a, t), k) == AlphaLoss(hyps, k) + (if a < k then t * hyps[a].loss else 0.0)
  {
    if k > 0 {
      AddedSums(hyps, a, t, k - 1);
      if a == k - 1 { Shares(hyps[a].alpha, t, hyps[a].loss); }
    }
  }

  lemma ShiftVec(m: Vec, t: real, x: Vec, y: Vec, h: Vec, n: nat)
    ensures Axpy(Axpy(Axpy(m, t, x, n), -t, y, n), -1.0, h, n)
         == Axpy(Axpy(m, -1.0, h, n), t, Axpy(x, -1.0, y, n), n)
  {
    forall c | 0 <= c < n
      ensures Axpy(Axpy(Axpy(m, t, x, n), -t, y, n), -1.0, h, n)[c] == Axpy(Axpy(m, -1.0, h, n), t, Axpy(x, -1.0, y, n), n)[c]
    {
      ShiftedGain(t, Co(x, c), Co(y, c));
      assert Axpy(x, -1.0, y, n)[c] == Co(x, c) - Co(y, c);
    }
  }

  /** Moving weight keeps the total and moves the pull along the direction. */
  lemma Shifted(inst: Instance, a: nat, b: nat, t: real, n: nat)
    requires a < |inst.hyps| && b < |inst.hyps| && a != b && Hoped(inst)
    ensures var inst' := Shift(inst, a, b, t);
            && AlphaSum(inst'.hyps, |inst'.hyps|) == AlphaSum(inst.hyps, |inst.hyps|)
            && GainOf(inst') == GainOf(inst) + t * (inst.hyps[a].loss - inst.hyps[b].loss)
            && PullOf(inst', n) == Axpy(PullOf(inst, n), t, Direction(inst, a, b, n), n)
  {
    hide Mix, AlphaLoss, AlphaSum, Axpy;
    var k := |inst.hyps|;
    var mid := AddAlpha(inst.hyps, a, t);
    AddedSums(inst.hyps, a, t, k);
    AddedSums(mid, b, -t, k);
    AddedMix(inst.hyps, a, t, k, n);
    AddedMix(mid, b, -t, k, n);
    var x, y := inst.hyps[a], inst.hyps[b];
    assert mid[b] == y;
    ShiftedGain(t, x.loss, y.loss);
    ShiftVec(Mix(inst.hyps, k, n), t, x.mvector, y.mvector, HopeOf(inst).mvector, n);
    assert HopeOf(Shift(inst, a, b, t)).mvector == HopeOf(inst).mvector;
  }

  lemma ShiftedGain(t: real, x: real, y: real)
    ensures t * (x - y) == t * x - t * y && (-t) * y == -(t * y)
  {
  }

  lemma AxpyInner(z: Vec, p: Vec, t: real, u: Vec, n: nat)
    ensures Axpy(z, 1.0, Axpy(p, t, u, n), n) == Axpy(Axpy(z, 1.0, p, n), t, u, n)
  {
  }

  lemma {:induction false} PullReplaced(insts: seq<Instance>, i: nat, inst: Instance, t: real, u: Vec, k: nat, n: nat)
    requires i < |insts| && k <= |insts| && PullOf(inst, n) == Axpy(PullOf(insts[i], n), t, u, n)
    ensures Pull(insts[i := inst], k, n) == if i < k then Axpy(Pull(insts, k, n), t, u, n) else Pull(insts, k, n)
  {
    hide PullOf, Axpy;
    if k > 0 {
      PullReplaced(insts, i, inst, t, u, k - 1, n);
      var z := Pull(insts, k - 1, n);
      if i == k - 1 {
        AxpyInner(z, PullOf(insts[i], n), t, u, n);
      } else if i < k - 1 {
        AxpySwap(z, t, u, 1.0, PullOf(insts[k - 1], n), n);
      }
    }
  }

  lemma {:induction false} GainReplaced(insts: seq<Instance>, i: nat, inst: Instance, k: nat)
    requires i < |insts| && k <= |insts|
    ensures Gain(insts[i := inst], k) == Gain(insts, k) + (if i < k then GainOf(inst) - GainOf(insts[i]) else 0.0)
  {
    if k > 0 { GainReplaced(insts, i, inst, k - 1); }
  }

  lemma {:induction false} SamePull(insts: seq<Instance>, i: nat, inst: Instance, k: nat, n: nat)
    requires i < |insts| && k <= |insts| && PullOf(inst, n) == PullOf(insts[i], n)
    ensures Pull(insts[i := inst], k, n) == Pull(insts, k, n)
  {
    hide PullOf, Axpy;
    if k > 0 { SamePull(insts, i, inst, k - 1, n); }
  }

  lemma WeightsMove(base: Vec, rate: Vec, z: Vec, t: real, u: Vec, n: nat)
    ensures Weights(base, rate, Axpy(z, t, u, n), n) == Axpy(Weights(base, rate, z, n), t, Times(rate, u, n), n)
  {
    forall k | 0 <= k < n
      ensures Weights(base, rate, Axpy(z, t, u, n), n)[k] == Axpy(Weights(base, rate, z, n), t, Times(rate, u, n), n)[k]
    {
      Spread(Co(rate, k), Co(z, k), t, Co(u, k), 0.0);
      assert Times(rate, Axpy(z, t, u, n), n)[k] == Co(rate, k) * (Co(z, k) + t * Co(u, k));
    }
  }

  lemma {:induction false} DotTimes(rate: Vec, u: Vec, m: nat, n: nat)
    requires n <= m
    ensures Dot(u, Times(rate, u, m), n) == Rated(rate, u, u, n)
  {
    if n > 0 {
      DotTimes(rate, u, m, n - 1);
      var r, c := Co(rate, n - 1), Co(u, n - 1);
      assert c * (r * c) == r * (c * c);
    }
  }

  // ----- the dual objective along a direction

  /** What moving weight `t` adds to the dual objective. */
  function StepGain(t: real, diff: real, denom: real): real {
    t * diff - 0.5 * (t * t) * denom
  }

  /** The problem with weight `t` moved within one instance. */
  function Moved(p: Problem, i: nat, a: nat, b: nat, t: real): Problem
    requires i < |p.insts| && a < |p.insts[i].hyps| && b < |p.insts[i].hyps| && a != b
  {
    p.(insts := p.insts[i := Shift(p.insts[i], a, b, t)])
  }

  lemma MovedPull(p: Problem, i: nat, a: nat, b: nat, t: real)
    requires i < |p.insts| && a < |p.insts[i].hyps| && b < |p.insts[i].hyps| && a != b && Hoped(p.insts[i])
    ensures var u := Direction(p.insts[i], a, b, p.n);
            var p' := Moved(p, i, a, b, t);
            && Pull(p'.insts, |p.insts|, p.n) == Axpy(Pull(p.insts, |p.insts|, p.n), t, u, p.n)
            && Solution(p') == Axpy(Solution(p), t, Times(p.rate, u, p.n), p.n)
            && Gain(p'.insts, |p.insts|) == Gain(p.insts, |p.insts|) + t * (p.insts[i].hyps[a].loss - p.insts[i].hyps[b].loss)
  {
    hide PullOf, GainOf, Axpy, Times, Pull, Gain, Weights, Hoped, Direction;
    var u := Direction(p.insts[i], a, b, p.n);
    var inst' := Shift(p.insts[i], a, b, t);
    Shifted(p.insts[i], a, b, t, p.n);
    PullReplaced(p.insts, i, inst', t, u, |p.insts|, p.n);
    GainReplaced(p.insts, i, inst', |p.insts|);
    WeightsMove(p.base, p.rate, Pull(p.insts, |p.insts|, p.n), t, u, p.n);
  }

  lemma SquareMoves(rate: Vec, z: Vec, t: real, u: Vec, n: nat)
    ensures Rated(rate, Axpy(z, t, u, n), Axpy(z, t, u, n), n)
         == Rated(rate, z, z, n) + 2.0 * (t * Rated(rate, z, u, n)) + (t * t) * Rated(rate, u, u, n)
  {
    var y := Axpy(z, t, u, n);
    RatedAxpy(rate, y, z, t, u, n, n);
    RatedSwap(rate, y, z, n);
    RatedSwap(rate, y, u, n);
    RatedAxpy(rate, z, z, t, u, n, n);
    RatedAxpy(rate, u, z, t, u, n, n);
    RatedSwap(rate, u, z, n);
    SquareOut(t, Rated(rate, z, u, n), Rated(rate, u, u, n));
  }

  lemma SquareOut(t: real, a: real, b: real)
    ensures t * (a + t * b) == t * a + (t * t) * b
  {
    assert t * (t * b) == (t * t) * b;
  }

  /** The difference of two violations, by losses and the direction. */
  lemma ViolationGap(inst: Instance, w: Vec, a: nat, b: nat, n: nat)
    requires a < |inst.hyps| && b < |inst.hyps|
    ensures Violation(inst, w, inst.hyps[a], n) - Violation(inst, w, inst.hyps[b], n)
         == inst.hyps[a].loss - inst.hyps[b].loss - Dot(w, Direction(inst, a, b, n), n)
  {
    ViolationIs(inst, w, inst.hyps[a], n);
    ViolationIs(inst, w, inst.hyps[b], n);
    DotAxpy(w, inst.hyps[a].mvector, -1.0, inst.hyps[b].mvector, n, n);
  }

  /** Moving weight changes the dual objective by the violations' difference,
      less a square. */
  lemma DualMoves(p: Problem, i: nat, a: nat, b: nat, t: real)
    requires i < |p.insts| && a < |p.insts[i].hyps| && b < |p.insts[i].hyps| && a != b && Hoped(p.insts[i])
    ensures var w := Solution(p);
            var diff := Violation(p.insts[i], w, p.insts[i].hyps[a], p.n) - Violation(p.insts[i], w, p.insts[i].hyps[b], p.n);
            var u := Direction(p.insts[i], a, b, p.n);
            Dual(Moved(p, i, a, b, t)) == Dual(p) + StepGain(t, diff, Rated(p.rate, u, u, p.n))
  {
    hide Violation, Rated, Dot, Pull, Gain, Direction, Axpy, Solution, Moved;
    var w, u, z := Solution(p), Direction(p.insts[i], a, b, p.n), Pull(p.insts, |p.insts|, p.n);
    MovedPull(p, i, a, b, t);
    MovedShape(p, i, a, b, t);
    SquareMoves(p.rate, z, t, u, p.n);
    DotAxpy(p.base, z, t, u, p.n, p.n);
    ViolationGap(p.insts[i], w, a, b, p.n);
    SolutionDot(p, u);
    GainSpread(t, p.insts[i].hyps[a].loss - p.insts[i].hyps[b].loss, Dot(p.base, u, p.n), Rated(p.rate, z, u, p.n));
  }

  lemma MovedShape(p: Problem, i: nat, a: nat, b: nat, t: real)
    requires i < |p.insts| && a < |p.insts[i].hyps| && b < |p.insts[i].hyps| && a != b
    ensures var p' := Moved(p, i, a, b, t);
            |p'.insts| == |p.insts| && p'.base == p.base && p'.rate == p.rate && p'.n == p.n
  {
  }

  lemma SolutionDot(p: Problem, u: Vec)
    ensures Dot(Solution(p), u, p.n) == Dot(p.base, u, p.n) + Rated(p.rate, Pull(p.insts, |p.insts|, p.n), u, p.n)
  {
    DotWeights(p.base, p.rate, Pull(p.insts, |p.insts|, p.n), u, p.n, p.n);
  }

  lemma GainSpread(t: real, l: real, d: real, r: real)
    ensures t * (l - (d + r)) == t * l - t * d - t * r
  {
  }

  /** The step taken: the unconstrained best, kept within the weights. */
  function Clip(diff: real, denom: real, alphaA: real, alphaB: real): real
    requires denom > 0.0
  {
    var delta := diff / denom;
    var least := if alphaB < delta then alphaB else delta;
    if -alphaA > least then -alphaA else least
  }

  /** No other step that keeps both weights nonnegative gains more. */
  lemma ClipIsBest(diff: real, denom: real, alphaA: real, alphaB: real, t: real)
    requires denom > 0.0 && -alphaA <= t <= alphaB
    ensures -alphaA <= Clip(diff, denom, alphaA, alphaB) <= alphaB
    ensures StepGain(t, diff, denom) <= StepGain(Clip(diff, denom, alphaA, alphaB), diff, denom)
  {
    var best := diff / denom;
    var c := Clip(diff, denom, alphaA, alphaB);
    assert best * denom == diff;
    // Both gains are the best gain less a square of the distance from `best`.
    GainAround(t, best, denom);
    GainAround(c, best, denom);
    Closer(t, c, best, denom);
  }

  lemma GainAround(t: real, best: real, denom: real)
    ensures StepGain(t, best * denom, denom) == 0.5 * (best * best) * denom - 0.5 * ((t - best) * (t - best)) * denom
  {
    assert (t - best) * (t - best) == t * t - 2.0 * (t * best) + best * best;
    assert t * (best * denom) == (t * best) * denom;
  }

  lemma Closer(t: real, c: real, best: real, denom: real)
    requires denom > 0.0 && (t <= c <= best || best <= c <= t || c == best)
    ensures ((c - best) * (c - best)) * denom <= ((t - best) * (t - best)) * denom
  {
    var x, y := c - best, t - best;
    if x >= 0.0 && y >= x {
      assert x * x <= y * y;
    } else if x <= 0.0 && y <= x {
      assert (-x) * (-x) <= (-y) * (-y);
    }
    assert x * x <= y * y;
  }

  /** From a pair whose violations differ, a step strictly gains. */
  lemma ClipGains(diff: real, denom: real, alphaA: real, alphaB: real)
    requires denom > 0.0 && alphaA >= 0.0 && alphaB > 0.0 && diff > 0.0
    ensures StepGain(Clip(diff, denom, alphaA, alphaB), diff, denom) > 0.0
  {
    var c := Clip(diff, denom, alphaA, alphaB);
    assert diff / denom > 0.0;
    assert (diff / denom) * denom == diff;
    assert 0.0 < c <= diff / denom;
    assert c * denom <= diff;
    assert c * (c * denom) <= c * diff;
    assert (c * c) * denom == c * (c * denom);
    assert c * diff > 0.0;
  }

  /** From nonnegative weights the step never loses, and gains when it can. */
  lemma ClipNeverLoses(diff: real, denom: real, alphaA: real, alphaB: real)
    requires denom > 0.0 && alphaA >= 0.0 && alphaB >= 0.0
    ensures StepGain(Clip(diff, denom, alphaA, alphaB), diff, denom) >= 0.0
    ensures alphaB > 0.0 && diff > 0.0 ==> StepGain(Clip(diff, denom, alphaA, alphaB), diff, denom) > 0.0
  {
    ClipIsBest(diff, denom, alphaA, alphaB, 0.0);
    assert StepGain(0.0, diff, denom) == 0.0;
    if alphaB > 0.0 && diff > 0.0 { ClipGains(diff, denom, alphaA, alphaB); }
  }

  // ----- changing the hope, adding a hypothesis

  /** The hope changed to `k`, before the weights are evened out. */
  function SwitchHope(inst: Instance, k: nat): Instance
    requires k < |inst.hyps| && (inst.hope.Some? ==> Hoped(inst))
  {
    match inst.hope
    case None => Instance(AddAlpha(inst.hyps, k, 1.0), Some(k))
    case Some(prev) => Instance(AddAlpha(AddAlpha(inst.hyps, k, 1.0), prev, -1.0), Some(k))
  }

  lemma {:induction false} ZeroMix(hyps: seq<Hyp>, k: nat, n: nat)
    requires k <= |hyps| && forall h :: 0 <= h < |hyps| ==> hyps[h].alpha == 0.0
    ensures Mix(hyps, k, n) == Zero(n) && AlphaSum(hyps, k) == 0.0
  {
    if k > 0 { ZeroMix(hyps, k - 1, n); }
  }

  lemma SwitchVec(m: Vec, x: Vec, y: Vec, n: nat)
    ensures Axpy(Axpy(Axpy(m, 1.0, x, n), -1.0, y, n), -1.0, x, n) == Axpy(m, -1.0, y, n)
    ensures Axpy(Axpy(Zero(n), 1.0, x, n), -1.0, x, n) == Zero(n)
  {
  }

  /** Changing the hope neither moves the weights nor unbalances the instance. */
  lemma Switched(inst: Instance, k: nat, n: nat)
    requires k < |inst.hyps| && Balanced(inst)
    ensures var inst' := SwitchHope(inst, k);
            PullOf(inst', n) == PullOf(inst, n) && Balanced(inst') && Hoped(inst')
  {
    hide Axpy, Mix, AlphaSum;
    var inst' := SwitchHope(inst, k);
    var m := |inst.hyps|;
    var x := inst.hyps[k].mvector;
    var mid := AddAlpha(inst.hyps, k, 1.0);
    AddedMix(inst.hyps, k, 1.0, m, n);
    AddedSums(inst.hyps, k, 1.0, m);
    assert HopeOf(inst').mvector == x;
    match inst.hope {
      case None =>
        ZeroMix(inst.hyps, m, n);
        SwitchVec(Mix(inst.hyps, m, n), x, x, n);
      case Some(prev) =>
        AddedMix(mid, prev, -1.0, m, n);
        AddedSums(mid, prev, -1.0, m);
        assert mid[prev].mvector == inst.hyps[prev].mvector;
        SwitchVec(Mix(inst.hyps, m, n), x, inst.hyps[prev].mvector, n);
    }
  }

  /** Without hopes nothing is pulled. */
  lemma {:induction false} NoHopeNoPull(insts: seq<Instance>, k: nat, n: nat)
    requires k <= |insts| && forall i :: 0 <= i < |insts| ==> insts[i].hope.None?
    ensures Pull(insts, k, n) == Zero(n)
  {
    if k > 0 { NoHopeNoPull(insts, k - 1, n); }
  }

  lemma {:induction false} AppendedSums(hyps: seq<Hyp>, h: Hyp, k: nat, n: nat)
    requires k <= |hyps|
    ensures Mix(hyps + [h], k, n) == Mix(hyps, k, n)
    ensures AlphaSum(hyps + [h], k) == AlphaSum(hyps, k)
    ensures AlphaLoss(hyps + [h], k) == AlphaLoss(hyps, k)
  {
    if k > 0 { AppendedSums(hyps, h, k - 1, n); }
  }

  /** A hypothesis without weight changes nothing else. */
  lemma Appended(inst: Instance, h: Hyp, n: nat)
    requires h.alpha == 0.0 && Balanced(inst)
    ensures var inst' := inst.(hyps := inst.hyps + [h]);
            PullOf(inst', n) == PullOf(inst, n) && Balanced(inst') && GainOf(inst') == GainOf(inst)
  {
    var k := |inst.hyps|;
    AppendedSums(inst.hyps, h, k, n);
    var m := Mix(inst.hyps, k, n);
    assert Axpy(m, 0.0, h.mvector, n) == m;
    assert (inst.hyps + [h])[k] == h;
  }
}
