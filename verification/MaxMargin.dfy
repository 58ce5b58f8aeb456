/** Sequential minimal optimisation over a working set of hypotheses. */
module MaxMargin {
  import opened Wrappers
  import opened Vectors
  import opened MarginModel
  import opened MarginSteps
  import opened MarginSpace

  /** The weights are the initial ones moved by the instances' pull, and every
      instance's weights are shares of one. */
  predicate Consistent(p: Problem, w: Vec) {
    && Positive(p.rate, p.n) && w == Solution(p)
    && forall i :: 0 <= i < |p.insts| ==> Balanced(p.insts[i])
  }

  /** The pair's weights could be moved: distinct, weights that may be shared. */
  predicate IsPair(p: Problem, i: nat, a: nat, b: nat) {
    && i < |p.insts| && Hoped(p.insts[i])
    && a < |p.insts[i].hyps| && b < |p.insts[i].hyps| && a != b
    && -p.insts[i].hyps[a].alpha <= p.insts[i].hyps[b].alpha
  }

  function Denom(p: Problem, i: nat, a: nat, b: nat): real
    requires IsPair(p, i, a, b)
  {
    var u := Direction(p.insts[i], a, b, p.n);
    Dot(u, Times(p.rate, u, p.n), p.n)
  }

  function Gap(p: Problem, i: nat, a: nat, b: nat): real
    requires IsPair(p, i, a, b)
  {
    Violation(p.insts[i], Solution(p), p.insts[i].hyps[a], p.n) - Violation(p.insts[i], Solution(p), p.insts[i].hyps[b], p.n)
  }

  /** The problem after the pair has been optimised. */
  function AfterPair(p: Problem, i: nat, a: nat, b: nat): Problem
    requires IsPair(p, i, a, b)
  {
    if Denom(p, i, a, b) > 0.0 then
      Moved(p, i, a, b, Clip(Gap(p, i, a, b), Denom(p, i, a, b), p.insts[i].hyps[a].alpha, p.insts[i].hyps[b].alpha))
    else p
  }

  lemma PairKeepsConsistent(p: Problem, i: nat, a: nat, b: nat, t: real)
    requires Consistent(p, Solution(p)) && IsPair(p, i, a, b)
    ensures Consistent(Moved(p, i, a, b, t), Solution(Moved(p, i, a, b, t)))
  {
    hide PullOf, GainOf, Direction, Solution;
    Shifted(p.insts[i], a, b, t, p.n);
  }

  /** The step on the weights themselves. */
  lemma PairMoves(p: Problem, w: Vec, i: nat, a: nat, b: nat, t: real)
    requires Consistent(p, w) && IsPair(p, i, a, b)
    ensures Consistent(Moved(p, i, a, b, t), Axpy(w, t, Times(p.rate, Direction(p.insts[i], a, b, p.n), p.n), p.n))
  {
    PairKeepsConsistent(p, i, a, b, t);
    MovedPull(p, i, a, b, t);
    hide Solution, Pull, Moved, Direction, Axpy, Times, Gain;
  }

  /** Among all ways to share the pair's weight without going negative, the
      step taken has the greatest dual objective. */
  lemma PairIsBest(p: Problem, i: nat, a: nat, b: nat, t: real)
    requires IsPair(p, i, a, b) && Denom(p, i, a, b) > 0.0
    requires -p.insts[i].hyps[a].alpha <= t <= p.insts[i].hyps[b].alpha
    ensures Dual(Moved(p, i, a, b, t)) <= Dual(AfterPair(p, i, a, b))
  {
    hide Dual, Violation, Direction, Dot, Rated, Solution, Moved, Times;
    var u := Direction(p.insts[i], a, b, p.n);
    DotTimes(p.rate, u, p.n, p.n);
    var c := Clip(Gap(p, i, a, b), Denom(p, i, a, b), p.insts[i].hyps[a].alpha, p.insts[i].hyps[b].alpha);
    DualMoves(p, i, a, b, t);
    DualMoves(p, i, a, b, c);
    ClipIsBest(Gap(p, i, a, b), Denom(p, i, a, b), p.insts[i].hyps[a].alpha, p.insts[i].hyps[b].alpha, t);
  }

  /** After the step both weights are nonnegative, the others are unchanged. */
  lemma PairWeights(p: Problem, i: nat, a: nat, b: nat)
    requires IsPair(p, i, a, b) && Denom(p, i, a, b) > 0.0
    ensures var p' := AfterPair(p, i, a, b);
            && |p'.insts| == |p.insts| && |p'.insts[i].hyps| == |p.insts[i].hyps|
            && p'.insts[i].hyps[a].alpha >= 0.0 && p'.insts[i].hyps[b].alpha >= 0.0
            && (forall h :: 0 <= h < |p.insts[i].hyps| && h != a && h != b ==> p'.insts[i].hyps[h] == p.insts[i].hyps[h])
  {
    hide Violation, Direction, Dot, Solution;
    ClipIsBest(Gap(p, i, a, b), Denom(p, i, a, b), p.insts[i].hyps[a].alpha, p.insts[i].hyps[b].alpha, p.insts[i].hyps[b].alpha);
  }

  /** The dual objective never decreases when weights are nonnegative, and
      increases when the violations differ the right way. */
  lemma PairGains(p: Problem, i: nat, a: nat, b: nat)
    requires IsPair(p, i, a, b) && NonNegative(p.insts[i].hyps)
    ensures Dual(p) <= Dual(AfterPair(p, i, a, b))
    ensures Denom(p, i, a, b) > 0.0 && p.insts[i].hyps[b].alpha > 0.0 && Gap(p, i, a, b) > 0.0 ==>
              Dual(p) < Dual(AfterPair(p, i, a, b))
  {
    if Denom(p, i, a, b) > 0.0 {
      hide Dual, Violation, Direction, Dot, Rated, Solution, Moved, Times;
      var u := Direction(p.insts[i], a, b, p.n);
      DotTimes(p.rate, u, p.n, p.n);
      var x, y := p.insts[i].hyps[a].alpha, p.insts[i].hyps[b].alpha;
      var c := Clip(Gap(p, i, a, b), Denom(p, i, a, b), x, y);
      DualMoves(p, i, a, b, c);
      ClipNeverLoses(Gap(p, i, a, b), Denom(p, i, a, b), x, y);
      hide StepGain, Clip, Gap, Denom;
    }
  }

  lemma ConsistentIs(p: Problem, w: Vec)
    requires Consistent(p, w)
    ensures w == Solution(p) && Positive(p.rate, p.n)
    ensures forall i :: 0 <= i < |p.insts| ==> Balanced(p.insts[i])
  {
  }

  lemma MovedIs(p: Problem, i: nat, a: nat, b: nat, t: real)
    requires IsPair(p, i, a, b)
    ensures Moved(p, i, a, b, t) == Problem(p.insts[i := Shift(p.insts[i], a, b, t)], p.base, p.rate, p.n)
  {
  }

  /** The violations of one instance's hypotheses, as cached before a pair is
      selected. */
  predicate Cached(p: Problem, i: nat, viol: seq<real>) {
    && i < |p.insts| && |viol| == |p.insts[i].hyps|
    && forall h :: 0 <= h < |viol| ==> viol[h] == Violation(p.insts[i], Solution(p), p.insts[i].hyps[h], p.n)
  }

  /** A pair worth optimising: weight to take, and violation to gain. */
  predicate Improves(inst: Instance, viol: seq<real>, a: nat, b: nat) {
    && a < |inst.hyps| == |viol| && b < |inst.hyps| && a != b
    && inst.hyps[b].alpha > 0.0 && viol[a] > viol[b] + EPSILON
  }

  /** The pair that is picked on account of hypothesis `h`: it has no weight and
      violates more than all others, and takes weight from the first that has
      any; or it has weight, which goes to the first that violates more. */
  predicate PickedFor(hyps: seq<Hyp>, viol: seq<real>, h: nat, a: nat, b: nat) {
    && h < |hyps| == |viol| && a < |hyps| && b < |hyps| && a != b
    && if a == h
       then hyps[h].alpha == 0.0 && hyps[b].alpha > 0.0 && (forall j :: 0 <= j < |hyps| && j != h ==> viol[j] + 0.01 < viol[h])
            && forall j :: 0 <= j < b && j != h ==> hyps[j].alpha <= 0.0
       else b == h && hyps[h].alpha > 0.0 && viol[h] + 0.01 < viol[a]
            && forall j :: 0 <= j < a && j != h ==> viol[j] <= viol[h] + 0.01
  }

  /** There is no pair for any hypothesis before `h`. */
  ghost predicate PickedFirst(hyps: seq<Hyp>, viol: seq<real>, h: nat, a: nat, b: nat) {
    PickedFor(hyps, viol, h, a, b) && forall k: nat, c, d :: k < h ==> !PickedFor(hyps, viol, k, c, d)
  }

  /** The KKT conditions on cached violations. */
  predicate KktBy(hyps: seq<Hyp>, viol: seq<real>)
    requires |hyps| == |viol|
  {
    forall h, j :: 0 <= h < |hyps| && 0 <= j < |hyps| && hyps[h].alpha > 0.0 ==> viol[j] <= viol[h] + EPSILON
  }

  lemma KktIs(p: Problem, i: nat, viol: seq<real>)
    requires Cached(p, i, viol)
    ensures KktBy(p.insts[i].hyps, viol) <==> Kkt(p.insts[i], Solution(p), p.n)
  {
  }

  lemma ImprovesBreaksKkt(inst: Instance, viol: seq<real>, a: nat, b: nat)
    requires Improves(inst, viol, a, b)
    ensures !KktBy(inst.hyps, viol)
  {
  }

  lemma {:induction false} SomeWeight(hyps: seq<Hyp>, k: nat)
    requires k <= |hyps| && AlphaSum(hyps, k) > 0.0
    ensures exists h :: 0 <= h < k && hyps[h].alpha > 0.0
  {
    if hyps[k - 1].alpha <= 0.0 { SomeWeight(hyps, k - 1); }
  }

  /** The problem with a hypothesis without weight appended. */
  function Grown(p: Problem, i: nat, hyp: Hyp): Problem
    requires i < |p.insts|
  {
    p.(insts := p.insts[i := p.insts[i].(hyps := p.insts[i].hyps + [hyp.(alpha := 0.0)])])
  }

  lemma GrowKeeps(p: Problem, w: Vec, i: nat, hyp: Hyp)
    requires Consistent(p, w) && i < |p.insts|
    ensures Consistent(Grown(p, i, hyp), w) && Dual(Grown(p, i, hyp)) == Dual(p)
    ensures NonNegative(p.insts[i].hyps) ==> NonNegative(Grown(p, i, hyp).insts[i].hyps)
  {
    hide PullOf, GainOf, Pull, Gain, Weights;
    var inst' := p.insts[i].(hyps := p.insts[i].hyps + [hyp.(alpha := 0.0)]);
    Appended(p.insts[i], hyp.(alpha := 0.0), p.n);
    SamePull(p.insts, i, inst', |p.insts|, p.n);
    GainReplaced(p.insts, i, inst', |p.insts|);
  }

  // ----- changing the hope

  function Switching(p: Problem, i: nat, k: nat): Problem
    requires i < |p.insts| && k < |p.insts[i].hyps| && Balanced(p.insts[i])
  {
    p.(insts := p.insts[i := SwitchHope(p.insts[i], k)])
  }

  lemma SwitchKeeps(p: Problem, w: Vec, i: nat, k: nat)
    requires Consistent(p, w) && i < |p.insts| && k < |p.insts[i].hyps|
    ensures Consistent(Switching(p, i, k), w) && Hoped(Switching(p, i, k).insts[i])
  {
    hide PullOf, Pull, Weights;
    Switched(p.insts[i], k, p.n);
    SamePull(p.insts, i, SwitchHope(p.insts[i], k), |p.insts|, p.n);
  }

  /** The problem after the hope has changed and the two hopes' weights have
      been evened out. */
  function AfterHope(p: Problem, i: nat, k: nat): Problem
    requires i < |p.insts| && k < |p.insts[i].hyps| && Balanced(p.insts[i])
  {
    var q := Switching(p, i, k);
    var prev := p.insts[i].hope;
    if prev.Some? && prev.value != k && IsPair(q, i, prev.value, k) then AfterPair(q, i, prev.value, k) else q
  }

  /** Two hypotheses agree on all features. */
  predicate SameFeatures(a: Hyp, b: Hyp, n: nat) {
    forall k :: 0 <= k < n ==> Co(a.mvector, k) == Co(b.mvector, k)
  }

  /** The new hope has the old one's features and the old one lacks the weight
      that it has to give up. */
  predicate Overdrawn(inst: Instance, k: nat, n: nat)
    requires k < |inst.hyps|
  {
    inst.hope.Some? && Hoped(inst) && inst.hope.value != k
    && SameFeatures(inst.hyps[inst.hope.value], inst.hyps[k], n) && inst.hyps[inst.hope.value].alpha < 1.0
  }

  lemma {:induction false} SquareIsPositive(rate: Vec, u: Vec, n: nat)
    requires Positive(rate, |rate|) && n <= |rate|
    ensures Rated(rate, u, u, n) >= 0.0
    ensures Rated(rate, u, u, n) == 0.0 <==> forall k :: 0 <= k < n ==> Co(u, k) == 0.0
  {
    if n > 0 {
      var m: nat := n - 1;
      SquareIsPositive(rate, u, m);
      OneSquare(Rated(rate, u, u, m), Co(rate, m), Co(u, m));
      assert (forall k :: 0 <= k < n ==> Co(u, k) == 0.0) <==> Co(u, m) == 0.0 && forall k :: 0 <= k < m ==> Co(u, k) == 0.0;
    }
  }

  lemma OneSquare(before: real, r: real, c: real)
    requires before >= 0.0 && r > 0.0
    ensures before + r * (c * c) >= 0.0
    ensures before + r * (c * c) == 0.0 <==> before == 0.0 && c == 0.0
  {
    var q := c * c;
    ScaledSquare(r, c, q, r * q);
  }

  lemma ScaledSquare(r: real, c: real, q: real, t: real)
    requires r > 0.0 && q == c * c && t == r * q
    ensures t >= 0.0 && (t == 0.0 <==> c == 0.0)
  {
    if c < 0.0 {
      ProductSign(-c, -c, q);
      ProductSign(r, q, t);
    } else if c > 0.0 {
      ProductSign(c, c, q);
      ProductSign(r, q, t);
    } else {
      assert q == 0.0;
    }
  }

  lemma ProductSign(a: real, b: real, q: real)
    requires q == a * b && a > 0.0 && b > 0.0
    ensures q > 0.0
  {
  }

  /** A step is refused exactly when the two have the same features. */
  lemma RefusedWhenSame(p: Problem, i: nat, a: nat, b: nat)
    requires IsPair(p, i, a, b) && Positive(p.rate, p.n)
    ensures Denom(p, i, a, b) > 0.0 <==> !SameFeatures(p.insts[i].hyps[a], p.insts[i].hyps[b], p.n)
  {
    var u := Direction(p.insts[i], a, b, p.n);
    DotTimes(p.rate, u, p.n, p.n);
    SquareIsPositive(p.rate, u, p.n);
    assert forall k :: 0 <= k < p.n ==> Co(u, k) == Co(p.insts[i].hyps[a].mvector, k) - Co(p.insts[i].hyps[b].mvector, k);
  }

  /** Changing the hope leaves a negative weight exactly when it is overdrawn. */
  lemma HopeWeights(p: Problem, i: nat, k: nat)
    requires i < |p.insts| && k < |p.insts[i].hyps| && Balanced(p.insts[i]) && NonNegative(p.insts[i].hyps) && Positive(p.rate, p.n)
    ensures p.insts[i].hope.Some? && p.insts[i].hope.value != k && Hoped(Switching(p, i, k).insts[i]) ==>
              IsPair(Switching(p, i, k), i, p.insts[i].hope.value, k)
    ensures |AfterHope(p, i, k).insts| == |p.insts|
    ensures NonNegative(AfterHope(p, i, k).insts[i].hyps) <==> !Overdrawn(p.insts[i], k, p.n)
  {
    hide AlphaSum, Violation;
    var q := Switching(p, i, k);
    var prev := p.insts[i].hope;
    if prev.Some? && prev.value != k {
      assert IsPair(q, i, prev.value, k);
      RefusedWhenSame(q, i, prev.value, k);
      if Denom(q, i, prev.value, k) > 0.0 {
        PairWeights(q, i, prev.value, k);
      } else {
        assert AfterHope(p, i, k) == q;
        assert q.insts[i].hyps[prev.value].alpha == p.insts[i].hyps[prev.value].alpha - 1.0;
      }
    }
  }

  /** Every instance has a hope and no negative weight. */
  predicate Shared(insts: seq<Instance>) {
    forall i :: 0 <= i < |insts| ==> Hoped(insts[i]) && NonNegative(insts[i].hyps)
  }

  /** Same hypotheses and hopes, perhaps other weights. */
  predicate SameProblem(insts: seq<Instance>, insts': seq<Instance>) {
    |insts| == |insts'| && forall i :: 0 <= i < |insts| ==> SameInstance(insts[i], insts'[i])
  }

  predicate SameInstance(inst: Instance, inst': Instance) {
    && inst'.hope == inst.hope && |inst'.hyps| == |inst.hyps|
    && forall h :: 0 <= h < |inst.hyps| ==> inst'.hyps[h].mvector == inst.hyps[h].mvector && inst'.hyps[h].loss == inst.hyps[h].loss
  }

  lemma SameItself(a: seq<Instance>)
    ensures SameProblem(a, a)
  {
  }

  lemma SameSize(a: seq<Instance>, b: seq<Instance>)
    requires SameProblem(a, b)
    ensures |a| == |b|
  {
  }

  /** The distance the weights have moved is the weights' difference. */
  lemma DeltaIs(p: Problem, w: Vec, dm: Vec)
    requires Consistent(p, w) && dm == Times(p.rate, Pull(p.insts, |p.insts|, p.n), p.n)
    ensures dm == Axpy(w, -1.0, p.base, p.n)
  {
  }

  lemma NothingPulled(rate: Vec, n: nat)
    ensures Zero(n) == Axpy(Zero(n), -1.0, Times(rate, Zero(n), n), n)
  {
  }

  lemma HopeAlone(s: Vec, rate: Vec, hope: Vec, n: nat)
    ensures Axpy(s, 1.0, Times(rate, hope, n), n) == Axpy(s, 1.0, Times(rate, Axpy(hope, -1.0, Zero(n), n), n), n)
  {
    forall k | 0 <= k < n ensures Times(rate, hope, n)[k] == Times(rate, Axpy(hope, -1.0, Zero(n), n), n)[k] {
      assert Axpy(hope, -1.0, Zero(n), n)[k] == Co(hope, k);
    }
  }

  lemma LessOne(s: Vec, rate: Vec, hope: Vec, mix: Vec, alpha: real, x: Vec, n: nat)
    ensures Axpy(Axpy(s, 1.0, Times(rate, Axpy(hope, -1.0, mix, n), n), n), -alpha, Times(rate, x, n), n)
         == Axpy(s, 1.0, Times(rate, Axpy(hope, -1.0, Axpy(mix, alpha, x, n), n), n), n)
  {
    hide Axpy, Times;
    var left := Axpy(Axpy(s, 1.0, Times(rate, Axpy(hope, -1.0, mix, n), n), n), -alpha, Times(rate, x, n), n);
    var right := Axpy(s, 1.0, Times(rate, Axpy(hope, -1.0, Axpy(mix, alpha, x, n), n), n), n);
    forall k | 0 <= k < n ensures left[k] == right[k] {
      LessOneAt(s, rate, hope, mix, alpha, x, n, k);
    }
    assert left == right;
  }

  lemma LessOneAt(s: Vec, rate: Vec, hope: Vec, mix: Vec, alpha: real, x: Vec, n: nat, k: nat)
    requires k < n
    ensures Axpy(Axpy(s, 1.0, Times(rate, Axpy(hope, -1.0, mix, n), n), n), -alpha, Times(rate, x, n), n)[k]
         == Axpy(s, 1.0, Times(rate, Axpy(hope, -1.0, Axpy(mix, alpha, x, n), n), n), n)[k]
  {
    hide Axpy, Times;
    var r, h, m, c := Co(rate, k), Co(hope, k), Co(mix, k), Co(x, k);
    LessShare(r, h, m, alpha, c);
    assert Times(rate, Axpy(hope, -1.0, mix, n), n)[k] == r * (h - m);
    assert Axpy(mix, alpha, x, n)[k] == m + alpha * c;
    assert Times(rate, Axpy(hope, -1.0, Axpy(mix, alpha, x, n), n), n)[k] == r * (h - (m + alpha * c));
    assert Times(rate, x, n)[k] == r * c;
  }

  lemma LessShare(r: real, h: real, m: real, alpha: real, c: real)
    ensures r * (h - m) + (-alpha) * (r * c) == r * (h - (m + alpha * c))
  {
    assert (-alpha) * (r * c) == -(alpha * (r * c));
    assert alpha * (r * c) == r * (alpha * c);
    assert r * (h - (m + alpha * c)) == r * (h - m) - r * (alpha * c);
  }

  lemma PulledOnce(rate: Vec, pull: Vec, mix: Vec, hope: Vec, n: nat)
    ensures Axpy(Axpy(Zero(n), -1.0, Times(rate, pull, n), n), 1.0, Times(rate, Axpy(hope, -1.0, mix, n), n), n)
         == Axpy(Zero(n), -1.0, Times(rate, Axpy(pull, 1.0, Axpy(mix, -1.0, hope, n), n), n), n)
  {
    forall k | 0 <= k < n
      ensures -Times(rate, pull, n)[k] + Times(rate, Axpy(hope, -1.0, mix, n), n)[k]
           == -Times(rate, Axpy(pull, 1.0, Axpy(mix, -1.0, hope, n), n), n)[k]
    {
      var r, p, h, m := Co(rate, k), Co(pull, k), Co(hope, k), Co(mix, k);
      assert -(r * p) + r * (h - m) == -(r * (p + (m - h)));
    }
  }

  lemma Negated(v: Vec, n: nat)
    requires |v| == n
    ensures Axpy(Zero(n), -1.0, Axpy(Zero(n), -1.0, v, n), n) == v
  {
  }

  lemma SameOn(a: seq<Instance>, b: seq<Instance>, c: seq<Instance>)
    requires SameProblem(a, b) && SameProblem(b, c)
    ensures SameProblem(a, c)
  {
  }

  /** One selected step keeps everything and does not lower the dual. */
  lemma StepKeepsAll(p: Problem, i: nat, a: nat, b: nat)
    requires Shared(p.insts) && IsPair(p, i, a, b)
    ensures var q := AfterPair(p, i, a, b);
            Shared(q.insts) && SameProblem(p.insts, q.insts) && Dual(p) <= Dual(q)
  {
    hide Dual, Violation, Denom, Gap, Clip;
    PairGains(p, i, a, b);
    if Denom(p, i, a, b) > 0.0 {
      PairWeights(p, i, a, b);
    }
  }

  lemma ImprovesIsPair(p: Problem, i: nat, viol: seq<real>, a: nat, b: nat)
    requires i < |p.insts| && Shared(p.insts) && Improves(p.insts[i], viol, a, b)
    ensures IsPair(p, i, a, b)
  {
  }

  /** All instances nearly satisfy the KKT conditions. */
  predicate AllKkt(insts: seq<Instance>, w: Vec, n: nat) {
    forall i {:trigger Kkt(insts[i], w, n)} :: 0 <= i < |insts| ==> Kkt(insts[i], w, n)
  }

  /** Two hypotheses with the same features, one of them worse. */
  predicate Twins(inst: Instance, n: nat) {
    exists a, b {:trigger SameFeatures(inst.hyps[a], inst.hyps[b], n)} :: 0 <= a < |inst.hyps| && 0 <= b < |inst.hyps|
      && SameFeatures(inst.hyps[a], inst.hyps[b], n) && inst.hyps[a].loss > inst.hyps[b].loss + EPSILON
  }

  predicate SomeTwins(insts: seq<Instance>, n: nat) {
    exists i :: 0 <= i < |insts| && Twins(insts[i], n)
  }

  lemma {:induction false} SameDot(w: Vec, x: Vec, y: Vec, n: nat)
    requires forall k :: 0 <= k < n ==> Co(x, k) == Co(y, k)
    ensures Dot(w, x, n) == Dot(w, y, n)
  {
    if n > 0 { SameDot(w, x, y, n - 1); }
  }

  /** A pair worth optimising that is refused differs in loss only. */
  lemma RefusedAreTwins(p: Problem, i: nat, viol: seq<real>, a: nat, b: nat)
    requires Cached(p, i, viol) && IsPair(p, i, a, b) && Improves(p.insts[i], viol, a, b)
    requires Positive(p.rate, p.n) && !(Denom(p, i, a, b) > 0.0)
    ensures Twins(p.insts[i], p.n)
  {
    hide Denom, Violation, Solution, Dot;
    RefusedWhenSame(p, i, a, b);
    var inst, w := p.insts[i], Solution(p);
    ViolationIs(inst, w, inst.hyps[a], p.n);
    ViolationIs(inst, w, inst.hyps[b], p.n);
    SameDot(w, inst.hyps[a].mvector, inst.hyps[b].mvector, p.n);
  }

  lemma OneHypIsKkt(inst: Instance, w: Vec, n: nat)
    requires |inst.hyps| < 2
    ensures Kkt(inst, w, n)
  {
    hide Violation;
  }

  lemma SolvedIsNearOptimal(p: Problem, w: Vec)
    requires Consistent(p, w) && Shared(p.insts) && AllKkt(p.insts, w, p.n)
    ensures forall v :: |v| == p.n ==> Primal(p, w) <= Primal(p, v) + |p.insts| as real * EPSILON
  {
    hide Kkt, Primal, Solution;
    forall v | |v| == p.n ensures Primal(p, w) <= Primal(p, v) + |p.insts| as real * EPSILON {
      NearKktIsNearOptimal(p, v);
    }
  }

  // ----- the hopes to start with

  /** A hope is one of the working set or a new hypothesis. */
  datatype Choice = Present(k: nat) | New(hyp: Hyp)

  predicate ChoiceOk(inst: Instance, c: Choice) {
    c.Present? ==> c.k < |inst.hyps|
  }

  /** The instance with the choice in its working set, and its place there. */
  function With(inst: Instance, c: Choice): Instance {
    if c.New? then inst.(hyps := inst.hyps + [c.hyp.(alpha := 0.0)]) else inst
  }

  function Place(inst: Instance, c: Choice): nat {
    match c
    case Present(k) => k
    case New(_) => |inst.hyps|
  }

  /** The hypotheses are those of the one instance in order, followed by the
      chosen one if it is new, each with its features and its loss. */
  predicate Chosen(inst: Instance, c: Choice, inst': Instance) {
    && |inst'.hyps| == |inst.hyps| + (if c.New? then 1 else 0)
    && (forall h :: 0 <= h < |inst.hyps| ==> inst'.hyps[h].mvector == inst.hyps[h].mvector && inst'.hyps[h].loss == inst.hyps[h].loss)
    && (c.New? ==> inst'.hyps[|inst.hyps|].mvector == c.hyp.mvector && inst'.hyps[|inst.hyps|].loss == c.hyp.loss)
    && inst'.hope == Some(if c.New? then |inst.hyps| else c.k)
  }

  /** The chosen hope may be taken without leaving a negative weight. */
  predicate Affordable(inst: Instance, c: Choice, n: nat)
    requires ChoiceOk(inst, c)
  {
    !Overdrawn(With(inst, c), Place(inst, c), n)
  }

  lemma AfterHopeElsewhere(p: Problem, i: nat, k: nat)
    requires i < |p.insts| && k < |p.insts[i].hyps| && Balanced(p.insts[i])
    ensures var q := AfterHope(p, i, k);
            && |q.insts| == |p.insts| && |q.insts[i].hyps| == |p.insts[i].hyps|
            && q.base == p.base && q.rate == p.rate && q.n == p.n
            && (forall h :: 0 <= h < |p.insts[i].hyps| ==>
                  q.insts[i].hyps[h].mvector == p.insts[i].hyps[h].mvector && q.insts[i].hyps[h].loss == p.insts[i].hyps[h].loss)
            && forall j :: 0 <= j < |p.insts| && j != i ==> q.insts[j] == p.insts[j]
  {
    hide Violation, AlphaSum, Denom, Gap, Clip;
  }

  /** Instances that start empty have one hypothesis each after their hopes. */
  lemma StartIsKkt(insts: seq<Instance>, w: Vec, n: nat)
    requires forall i :: 0 <= i < |insts| ==> |insts[i].hyps| < 2
    ensures AllKkt(insts, w, n)
  {
    forall i | 0 <= i < |insts| ensures Kkt(insts[i], w, n) { OneHypIsKkt(insts[i], w, n); }
  }

  // ----- the outer loop

  /** Same hypotheses and hope, perhaps with other weights, and then offered
      hypotheses appended. */
  predicate Grows(a: Instance, b: Instance, offers: seq<Hyp>) {
    && b.hope == a.hope && |a.hyps| <= |b.hyps|
    && (forall h :: 0 <= h < |a.hyps| ==> b.hyps[h].mvector == a.hyps[h].mvector && b.hyps[h].loss == a.hyps[h].loss)
    && (forall h :: |a.hyps| <= h < |b.hyps| ==> Known(offers, b.hyps[h]))
  }

  predicate AllGrow(a: seq<Instance>, b: seq<Instance>, space: Space) {
    |a| == |b| == |space| && forall i {:trigger Grows(a[i], b[i], space[i])} :: 0 <= i < |a| ==> Grows(a[i], b[i], space[i])
  }

  lemma GrowsOn(a: Instance, b: Instance, c: Instance, offers: seq<Hyp>)
    requires Grows(a, b, offers) && Grows(b, c, offers)
    ensures Grows(a, c, offers)
  {
    forall h | |a.hyps| <= h < |b.hyps| ensures Known(offers, c.hyps[h]) {
      assert Known(offers, b.hyps[h]);
    }
  }

  lemma AllGrowOn(a: seq<Instance>, b: seq<Instance>, c: seq<Instance>, space: Space)
    requires AllGrow(a, b, space) && AllGrow(b, c, space)
    ensures AllGrow(a, c, space)
  {
    hide Grows;
    forall i | 0 <= i < |a| ensures Grows(a[i], c[i], space[i]) {
      assert Grows(a[i], b[i], space[i]) && Grows(b[i], c[i], space[i]);
      GrowsOn(a[i], b[i], c[i], space[i]);
    }
  }

  lemma GrowsKnows(a: Instance, b: Instance, offers: seq<Hyp>)
    requires Grows(a, b, offers)
    ensures KnowsMore(a.hyps, b.hyps)
  {
    forall o | Known(a.hyps, o) ensures Known(b.hyps, o) {
      var h :| 0 <= h < |a.hyps| && a.hyps[h].mvector == o.mvector && a.hyps[h].loss == o.loss;
      assert b.hyps[h].mvector == o.mvector;
    }
  }

  lemma AllGrowKnows(a: seq<Instance>, b: seq<Instance>, space: Space)
    requires AllGrow(a, b, space)
    ensures AllKnowMore(a, b)
  {
    hide Grows, KnowsMore;
    forall i | 0 <= i < |a| ensures KnowsMore(a[i].hyps, b[i].hyps) {
      assert Grows(a[i], b[i], space[i]);
      GrowsKnows(a[i], b[i], space[i]);
    }
  }

  lemma SameGrows(a: seq<Instance>, b: seq<Instance>, space: Space)
    requires SameProblem(a, b) && |space| == |a|
    ensures AllGrow(a, b, space)
  {
    forall i | 0 <= i < |a| ensures Grows(a[i], b[i], space[i]) { assert SameInstance(a[i], b[i]); }
  }

  /** One fear taken up. */
  lemma FearGrows(p: Problem, i: nat, o: Hyp, space: Space)
    requires i < |p.insts| == |space| && o in space[i] && Shared(p.insts)
    requires !Known(p.insts[i].hyps, o)
    ensures Shared(Grown(p, i, o).insts) && AllGrow(p.insts, Grown(p, i, o).insts, space)
    ensures UnknownAll(Grown(p, i, o).insts, space, |space|) < UnknownAll(p.insts, space, |space|)
  {
    var q := Grown(p, i, o).insts;
    var k :| 0 <= k < |space[i]| && space[i][k] == o;
    forall j | 0 <= j < |q| ensures Grows(p.insts[j], q[j], space[j]) {
      if j == i { assert q[i].hyps[|p.insts[i].hyps|].mvector == space[i][k].mvector; }
    }
    AppendedKnows(p.insts[i].hyps, o);
    AllGrowKnows(p.insts, q, space);
    hide Grows, KnowsMore, Known;
    UnknownAllLess(p.insts, q, space, |space|);
  }

  lemma FewerUnknown(a: seq<Instance>, b: seq<Instance>, space: Space)
    requires AllGrow(a, b, space)
    ensures UnknownAll(b, space, |space|) <= UnknownAll(a, space, |space|)
  {
    hide Grows, KnowsMore, Known;
    AllGrowKnows(a, b, space);
    UnknownAllLess(a, b, space, |space|);
  }

  lemma GrowSize(a: seq<Instance>, b: seq<Instance>, space: Space)
    requires AllGrow(a, b, space)
    ensures |a| == |b| == |space|
  {
  }

  /** No offer exceeds any working set. */
  predicate NoFears(insts: seq<Instance>, space: Space, w: Vec, n: nat) {
    |insts| == |space| && forall i {:trigger NoneExceeds(insts[i], space[i], w, n)} :: 0 <= i < |insts| ==> NoneExceeds(insts[i], space[i], w, n)
  }

  /** A greatest offer that does not exceed the working set leaves none that does. */
  lemma GreatestFear(inst: Instance, offers: seq<Hyp>, fear: Hyp, w: Vec, n: nat)
    requires forall o :: o in offers ==> Violation(inst, w, o, n) <= Violation(inst, w, fear, n)
    requires exists h :: 0 <= h < |inst.hyps| && !(Violation(inst, w, inst.hyps[h], n) + EPSILON < Violation(inst, w, fear, n))
    ensures NoneExceeds(inst, offers, w, n)
  {
    hide Violation;
    forall o | o in offers ensures Matched(inst, o, w, n) {
      var h :| 0 <= h < |inst.hyps| && !(Violation(inst, w, inst.hyps[h], n) + EPSILON < Violation(inst, w, fear, n));
      assert Violation(inst, w, o, n) <= Violation(inst, w, inst.hyps[h], n) + EPSILON;
    }
  }

  lemma NoOffers(inst: Instance, w: Vec, n: nat)
    ensures NoneExceeds(inst, [], w, n)
  {
  }

  lemma CheckedIsNearOptimal(p: Problem, space: Space)
    requires Consistent(p, Solution(p)) && Shared(p.insts) && AllKkt(p.insts, Solution(p), p.n)
    requires NoFears(p.insts, space, Solution(p), p.n)
    ensures forall v :: |v| == p.n ==>
              Primal(Wide(p, space), Solution(p)) <= Primal(Wide(p, space), v) + 2.0 * (|p.insts| as real * EPSILON)
  {
    hide Kkt, Primal, Solution, NoneExceeds;
    forall v | |v| == p.n
      ensures Primal(Wide(p, space), Solution(p)) <= Primal(Wide(p, space), v) + 2.0 * (|p.insts| as real * EPSILON)
    {
      NearOptimalOverall(p, space, v);
    }
  }

  class QuadraticProgram {
    const n: nat
    const rate: Vec
    ghost const base: Vec
    var instances: seq<Instance>
    var mweights: Vec

    ghost function Now(): Problem
      reads this
    {
      Problem(instances, base, rate, n)
    }

    ghost predicate Valid()
      reads this
    {
      Consistent(Now(), mweights)
    }

    /** A problem none of whose instances has a hope or weights yet. */
    constructor (instances: seq<Instance>, mweights: Vec, rate: Vec)
      requires Positive(rate, |mweights|)
      requires forall i :: 0 <= i < |instances| ==> instances[i].hope.None? && Balanced(instances[i])
      ensures Valid() && Now() == Problem(instances, mweights, rate, |mweights|)
    {
      this.n, this.rate, this.base := |mweights|, rate, mweights;
      this.instances, this.mweights := instances, mweights;
      NoHopeNoPull(instances, |instances|, |mweights|);
      assert mweights == Weights(mweights, rate, Zero(|mweights|), |mweights|);
    }

    method OptimizePair(i: nat, a: nat, b: nat, va: real, vb: real) returns (moved: bool)
      requires Valid() && IsPair(Now(), i, a, b)
      requires va == Violation(instances[i], mweights, instances[i].hyps[a], n)
      requires vb == Violation(instances[i], mweights, instances[i].hyps[b], n)
      modifies this
      ensures Valid() && Now() == AfterPair(old(Now()), i, a, b)
      ensures moved <==> Denom(old(Now()), i, a, b) > 0.0
      ensures !moved ==> mweights == old(mweights)
    {
      hide Violation, Solution, Direction, Dot, Times, Axpy, Consistent, Moved;
      ghost var before := Now();
      ConsistentIs(before, mweights);
      var inst := instances[i];
      var update := Direction(inst, a, b, n);
      var denom := Dot(update, Times(rate, update, n), n);
      if denom > 0.0 {
        var delta := (va - vb) / denom;
        var least := if inst.hyps[b].alpha < delta then inst.hyps[b].alpha else delta;
        delta := if -inst.hyps[a].alpha > least then -inst.hyps[a].alpha else least;
        assert delta == Clip(Gap(before, i, a, b), Denom(before, i, a, b), inst.hyps[a].alpha, inst.hyps[b].alpha);
        PairMoves(before, mweights, i, a, b, delta);
        MovedIs(before, i, a, b, delta);
        hide Clip, Gap, Denom, Shift, IsPair;
        instances := instances[i := Shift(inst, a, b, delta)];
        mweights := Axpy(mweights, delta, Times(rate, update, n), n);
        moved := true;
      } else {
        moved := false;
      }
    }

    /** The pair picked for the first hypothesis for which there is one; it
        violates a KKT condition, and there is none only if none is violated. */
    static method SelectPair(inst: Instance, viol: seq<real>) returns (pair: Option<(nat, nat)>)
      requires Hoped(inst) && Balanced(inst) && |viol| == |inst.hyps| >= 2
      requires NonNegative(inst.hyps)
      ensures pair.Some? ==> Improves(inst, viol, pair.value.0, pair.value.1)
      ensures pair.None? <==> KktBy(inst.hyps, viol)
      ensures pair.Some? ==> exists h :: PickedFirst(inst.hyps, viol, h, pair.value.0, pair.value.1)
    {
      var hyps := inst.hyps;
      for h := 0 to |hyps|
        invariant forall g, j :: 0 <= g < h && 0 <= j < |hyps| && hyps[g].alpha > 0.0 ==> viol[j] <= viol[g] + EPSILON
        invariant forall k: nat, c, d :: k < h ==> !PickedFor(hyps, viol, k, c, d)
      {
        var worst := MaxOther(viol, h);
        if hyps[h].alpha == 0.0 && viol[h] > worst + EPSILON {
          SomeWeight(hyps, |hyps|);
          var g := OtherWithWeight(hyps, h);
          if g.Some? {
            ImprovesBreaksKkt(inst, viol, h, g.value);
            assert PickedFirst(hyps, viol, h, h, g.value);
            return Some((h, g.value));
          }
        }
        if hyps[h].alpha > 0.0 && viol[h] < worst - EPSILON {
          var g := WorseViolator(viol, h);
          if g.Some? {
            ImprovesBreaksKkt(inst, viol, g.value, h);
            assert PickedFirst(hyps, viol, h, g.value, h);
            return Some((g.value, h));
          }
        }
      }
      pair := None;
    }

    static method OtherWithWeight(hyps: seq<Hyp>, h: nat) returns (g: Option<nat>)
      ensures g.Some? ==> g.value < |hyps| && g.value != h && hyps[g.value].alpha > 0.0
      ensures g.Some? ==> forall j :: 0 <= j < g.value && j != h ==> hyps[j].alpha <= 0.0
      ensures g.None? ==> forall j :: 0 <= j < |hyps| && j != h ==> hyps[j].alpha <= 0.0
    {
      for j := 0 to |hyps|
        invariant forall i :: 0 <= i < j && i != h ==> hyps[i].alpha <= 0.0
      {
        if j != h && hyps[j].alpha > 0.0 {
          return Some(j);
        }
      }
      g := None;
    }

    static method WorseViolator(viol: seq<real>, h: nat) returns (g: Option<nat>)
      requires h < |viol|
      ensures g.Some? ==> g.value < |viol| && g.value != h && viol[g.value] > viol[h] + EPSILON
      ensures g.Some? ==> forall j :: 0 <= j < g.value && j != h ==> viol[j] <= viol[h] + EPSILON
      ensures g.None? ==> forall j :: 0 <= j < |viol| && j != h ==> viol[j] <= viol[h] + EPSILON
    {
      for j := 0 to |viol|
        invariant forall i :: 0 <= i < j && i != h ==> viol[i] <= viol[h] + EPSILON
      {
        if j != h && viol[j] > viol[h] + EPSILON {
          return Some(j);
        }
      }
      g := None;
    }

    /** The greatest violation but one. */
    static method MaxOther(viol: seq<real>, h: nat) returns (m: real)
      requires h < |viol| && |viol| >= 2
      ensures exists j :: 0 <= j < |viol| && j != h && viol[j] == m
      ensures forall j :: 0 <= j < |viol| && j != h ==> viol[j] <= m
    {
      var best := if h == 0 then 1 else 0;
      for j := 0 to |viol|
        invariant 0 <= best < |viol| && best != h
        invariant forall g :: 0 <= g < j && g != h ==> viol[g] <= viol[best]
      {
        if j != h && viol[j] > viol[best] {
          best := j;
        }
      }
      m := viol[best];
    }

    /** Appends a hypothesis without weight. */
    method AddHyp(i: nat, hyp: Hyp)
      requires Valid() && i < |instances|
      modifies this
      ensures Valid() && Now() == Grown(old(Now()), i, hyp) && mweights == old(mweights)
    {
      hide Solution;
      GrowKeeps(Now(), mweights, i, hyp);
      instances := instances[i := instances[i].(hyps := instances[i].hyps + [hyp.(alpha := 0.0)])];
    }

    /** Adds the hypothesis if it violates more than all others. */
    method NewFear(i: nat, fear: Hyp) returns (added: bool)
      requires Valid() && i < |instances|
      modifies this
      ensures Valid()
      ensures added <==> forall h :: 0 <= h < |old(instances)[i].hyps| ==>
                Violation(old(instances)[i], mweights, old(instances)[i].hyps[h], n) + 0.01
                < Violation(old(instances)[i], mweights, fear, n)
      ensures Now() == (if added then Grown(old(Now()), i, fear) else old(Now())) && mweights == old(mweights)
    {
      hide Violation, Solution, Consistent;
      var violation := Violation(instances[i], mweights, fear, n);
      for h := 0 to |instances[i].hyps|
        invariant forall g :: 0 <= g < h ==> Violation(instances[i], mweights, instances[i].hyps[g], n) + EPSILON < violation
      {
        if violation <= Violation(instances[i], mweights, instances[i].hyps[h], n) + EPSILON {
          return false;
        }
      }
      GrowKeeps(Now(), mweights, i, fear);
      AddHyp(i, fear);
      added := true;
    }

    /** The separation oracle: an offer that violates most, if there is any. */
    static method GetFear(inst: Instance, offers: seq<Hyp>, w: Vec, n: nat) returns (fear: Option<Hyp>)
      ensures fear.None? <==> offers == []
      ensures fear.Some? ==> fear.value in offers
      ensures fear.Some? ==> forall o :: o in offers ==> Violation(inst, w, o, n) <= Violation(inst, w, fear.value, n)
    {
      hide Violation;
      fear := None;
      for k := 0 to |offers|
        invariant fear.None? <==> k == 0
        invariant fear.Some? ==> fear.value in offers
        invariant forall j :: 0 <= j < k ==> Violation(inst, w, offers[j], n) <= Violation(inst, w, fear.value, n)
      {
        if fear.None? || Violation(inst, w, offers[k], n) > Violation(inst, w, fear.value, n) {
          fear := Some(offers[k]);
        }
      }
    }

    /** Takes up, for each instance, its greatest offer if that exceeds the
        working set. */
    method NewFears(space: Space) returns (again: bool)
      requires Valid() && Shared(instances) && |space| == |instances|
      modifies this
      ensures Valid() && Shared(instances) && mweights == old(mweights) && AllGrow(old(instances), instances, space)
      ensures again ==> UnknownAll(instances, space, |space|) < UnknownAll(old(instances), space, |space|)
      ensures !again ==> Now() == old(Now()) && NoFears(instances, space, mweights, n)
    {
      hide Violation, Consistent, Shared, AllGrow, NoneExceeds, Known, Grown;
      ghost var start := Now();
      SameItself(instances);
      SameGrows(instances, instances, space);
      again := false;
      for i := 0 to |instances|
        invariant |instances| == |space|
        invariant Valid() && Shared(instances) && mweights == old(mweights) && AllGrow(start.insts, instances, space)
        invariant again ==> UnknownAll(instances, space, |space|) < UnknownAll(start.insts, space, |space|)
        invariant !again ==> Now() == start
        invariant !again ==> forall j {:trigger NoneExceeds(instances[j], space[j], mweights, n)} :: 0 <= j < i ==>
                    NoneExceeds(instances[j], space[j], mweights, n)
      {
        ghost var before := Now();
        var fear := GetFear(instances[i], space[i], mweights, n);
        if fear.None? {
          NoOffers(instances[i], mweights, n);
        } else {
          var added := NewFear(i, fear.value);
          if added {
            ExceedsIsUnknown(before.insts[i], fear.value, mweights, n);
            FearGrows(before, i, fear.value, space);
            AllGrowOn(start.insts, before.insts, instances, space);
            GrowSize(before.insts, instances, space);
            FewerUnknown(start.insts, before.insts, space);
            again := true;
          } else {
            GreatestFear(instances[i], space[i], fear.value, mweights, n);
          }
        }
      }
    }

    /** Takes up fears and optimises the working sets until no fear is new.
        `checked` is the problem when the oracle was asked last. */
    method Train(space: Space, maxIterations: nat) returns (gaveUp: bool, ghost checked: Problem)
      requires Valid() && Shared(instances) && |space| == |instances|
      modifies this
      ensures Valid() && Shared(instances) && AllGrow(old(instances), instances, space)
      ensures Consistent(checked, Solution(checked)) && NoFears(checked.insts, space, Solution(checked), checked.n)
      ensures AllKkt(checked.insts, Solution(checked), n) ==> Now() == checked && forall v :: |v| == n ==>
                Primal(Wide(Now(), space), mweights) <= Primal(Wide(Now(), space), v) + 2.0 * (|instances| as real * 0.01)
      ensures !AllKkt(checked.insts, Solution(checked), n) ==>
                checked == old(Now()) || gaveUp || SomeTwins(checked.insts, n)
      ensures !SomeTwins(checked.insts, n) ==> (Now() == checked <==> AllKkt(checked.insts, Solution(checked), n))
    {
      hide AllKkt, SomeTwins, Violation, Consistent, Shared, SameProblem, AllGrow, Known, Dual, Primal, Solution, NoFears, Wide;
      ghost var start := Now();
      SameItself(instances);
      SameGrows(instances, instances, space);
      ConsistentIs(start, mweights);
      gaveUp, checked := false, start;
      var again := true;
      while again
        invariant |instances| == |space|
        invariant Valid() && Shared(instances) && AllGrow(start.insts, instances, space)
        invariant again ==> AllKkt(instances, mweights, n) || Now() == start || gaveUp || SomeTwins(instances, n)
        invariant !again ==> Consistent(checked, Solution(checked)) && NoFears(checked.insts, space, Solution(checked), checked.n)
        invariant !again ==> (AllKkt(checked.insts, Solution(checked), n) ==> Now() == checked && Shared(checked.insts))
        invariant !again ==> AllKkt(checked.insts, Solution(checked), n) || SomeTwins(checked.insts, n) || Dual(checked) < Dual(Now())
        invariant !again ==> AllKkt(checked.insts, Solution(checked), n) || checked == start || gaveUp || SomeTwins(checked.insts, n)
        decreases if again then 1 else 0, UnknownAll(instances, space, |space|)
      {
        ghost var before := instances;
        again := NewFears(space);
        checked := Now();
        ConsistentIs(checked, mweights);
        GrowSize(before, checked.insts, space);
        var solved, cut, _ := OptimizeWorkingSet(maxIterations);
        ConsistentIs(Now(), mweights);
        SameGrows(checked.insts, instances, space);
        FewerUnknown(checked.insts, instances, space);
        AllGrowOn(start.insts, before, checked.insts, space);
        AllGrowOn(start.insts, checked.insts, instances, space);
        GrowSize(start.insts, instances, space);
        gaveUp := gaveUp || cut;
      }
      ConsistentIs(Now(), mweights);
      if AllKkt(checked.insts, Solution(checked), n) { CheckedIsNearOptimal(Now(), space); }
    }

    /** Makes hypothesis `k` the hope. */
    method NewHope(i: nat, k: nat)
      requires Valid() && i < |instances| && k < |instances[i].hyps| && NonNegative(instances[i].hyps)
      modifies this
      ensures Valid() && Now() == AfterHope(old(Now()), i, k)
      ensures Hoped(instances[i]) && instances[i].hope == Some(k)
      ensures NonNegative(instances[i].hyps) <==> !Overdrawn(old(instances)[i], k, n)
    {
      hide Violation, Solution, Consistent, PullOf, Direction;
      ghost var before := Now();
      ConsistentIs(before, mweights);
      SwitchKeeps(before, mweights, i, k);
      HopeWeights(before, i, k);
      var prev := instances[i].hope;
      instances := instances[i := SwitchHope(instances[i], k)];
      if prev.Some? && prev.value != k {
        var va := Violation(instances[i], mweights, instances[i].hyps[prev.value], n);
        var vb := Violation(instances[i], mweights, instances[i].hyps[k], n);
        var moved := OptimizePair(i, prev.value, k, va, vb);
      }
    }

    /** Gives every instance the hope chosen for it. */
    method NewHopes(choices: seq<Choice>)
      requires Valid() && |choices| == |instances|
      requires forall i :: 0 <= i < |instances| ==> ChoiceOk(instances[i], choices[i]) && NonNegative(instances[i].hyps)
      modifies this
      ensures Valid() && |instances| == |old(instances)|
      ensures forall i :: 0 <= i < |instances| ==> Chosen(old(instances)[i], choices[i], instances[i])
      ensures Shared(instances) <==> forall i :: 0 <= i < |instances| ==> Affordable(old(instances)[i], choices[i], n)
    {
      hide Violation, Solution, Consistent, Overdrawn, NonNegative, AfterHope;
      ghost var was := instances;
      for i := 0 to |instances|
        invariant |instances| == |was|
        invariant Valid() && forall j :: i <= j < |was| ==> instances[j] == was[j]
        invariant forall j :: 0 <= j < i ==> Chosen(was[j], choices[j], instances[j]) && Hoped(instances[j])
        invariant forall j :: 0 <= j < i ==> (NonNegative(instances[j].hyps) <==> Affordable(was[j], choices[j], n))
      {
        var k := Place(instances[i], choices[i]);
        if choices[i].New? {
          NonNegativeMore(instances[i].hyps, choices[i].hyp);
          AddHyp(i, choices[i].hyp);
        }
        assert instances[i] == With(was[i], choices[i]);
        ghost var before := Now();
        ConsistentIs(before, mweights);
        AfterHopeElsewhere(before, i, k);
        NewHope(i, k);
      }
    }

    /** The whole optimisation: hopes, then fears. `hoped` is the problem once
        the hopes are chosen. */
    method Optimize(choices: seq<Choice>, space: Space, maxIterations: nat)
      returns (gaveUp: bool, ghost hoped: Problem, ghost checked: Problem)
      requires Valid() && |choices| == |space| == |instances|
      requires forall i :: 0 <= i < |instances| ==> ChoiceOk(instances[i], choices[i]) && NonNegative(instances[i].hyps)
      requires forall i :: 0 <= i < |instances| ==> Affordable(instances[i], choices[i], n)
      modifies this
      ensures Valid() && Shared(instances) && AllGrow(hoped.insts, instances, space)
      ensures hoped.base == base && hoped.rate == rate && hoped.n == n && |hoped.insts| == |old(instances)| == |instances|
      ensures forall i :: 0 <= i < |instances| ==> Chosen(old(instances)[i], choices[i], hoped.insts[i])
      ensures forall i :: 0 <= i < |instances| ==> instances[i].hope == hoped.insts[i].hope
      ensures NoFears(checked.insts, space, Solution(checked), checked.n)
      ensures AllKkt(checked.insts, Solution(checked), n) ==> Now() == checked && forall v :: |v| == n ==>
                Primal(Wide(Now(), space), mweights) <= Primal(Wide(Now(), space), v) + 2.0 * (|instances| as real * 0.01)
      ensures !AllKkt(checked.insts, Solution(checked), n) ==> checked == hoped || gaveUp || SomeTwins(checked.insts, n)
      ensures !SomeTwins(checked.insts, n) ==> (Now() == checked <==> AllKkt(checked.insts, Solution(checked), n))
      ensures (forall i :: 0 <= i < |instances| ==> old(instances)[i].hyps == []) && checked == hoped ==>
                AllKkt(checked.insts, Solution(checked), n)
    {
      hide AllKkt, SomeTwins, Violation, Consistent, Known, Dual, Primal, Solution, NoFears, Wide, NonNegative, Affordable;
      ghost var was := instances;
      NewHopes(choices);
      hoped := Now();
      gaveUp, checked := Train(space, maxIterations);
      forall i | 0 <= i < |instances| ensures instances[i].hope == hoped.insts[i].hope {
        assert Grows(hoped.insts[i], instances[i], space[i]);
      }
      if forall i :: 0 <= i < |instances| ==> was[i].hyps == [] { StartIsKkt(hoped.insts, Solution(hoped), n); }
    }

    /** Moves weight between hypotheses until the KKT conditions nearly hold, or
        the passes run out. Tells whether they do, and whether it gave up; with
        neither, the only steps left are between twins, which are refused.
        `duals` has the dual before the first pass and after each; giving up
        takes all passes allowed, each of which has raised it. */
    method OptimizeWorkingSet(maxIterations: nat) returns (solved: bool, gaveUp: bool, ghost duals: seq<real>)
      requires Valid() && Shared(instances)
      modifies this
      ensures Valid() && Shared(instances) && SameProblem(old(instances), instances)
      ensures Dual(old(Now())) <= Dual(Now())
      ensures solved ==> AllKkt(instances, mweights, n)
      ensures AllKkt(old(instances), old(mweights), n) ==> solved && Now() == old(Now())
      ensures !solved ==> gaveUp || SomeTwins(instances, n)
      ensures AllKkt(old(instances), old(mweights), n) || SomeTwins(old(instances), n) || Dual(old(Now())) < Dual(Now())
      ensures 2 <= |duals| && duals[0] == Dual(old(Now())) && duals[|duals| - 1] == Dual(Now())
      ensures |duals| - 1 <= if maxIterations == 0 then 1 else maxIterations
      ensures gaveUp ==> |duals| - 1 == (if maxIterations == 0 then 1 else maxIterations)
                         && forall k :: 0 < k < |duals| ==> duals[k - 1] < duals[k]
      ensures solved ==> forall w :: |w| == n ==> Primal(Now(), mweights) <= Primal(Now(), w) + |instances| as real * 0.01
    {
      hide AllKkt, SomeTwins, Violation, Consistent, Shared, SameProblem, Dual, Primal;
      SameItself(instances);
      ghost var start, w0 := Now(), mweights;
      var iterations := 0;
      var again := true;
      solved, duals := false, [Dual(Now())];
      while again
        invariant Valid() && Shared(instances) && SameProblem(old(instances), instances)
        invariant Dual(old(Now())) <= Dual(Now())
        invariant again ==> iterations == 0 || iterations < maxIterations
        invariant solved ==> !again && AllKkt(instances, mweights, n)
        invariant AllKkt(start.insts, w0, n) ==> Now() == start && mweights == w0 && (iterations > 0 ==> solved)
        invariant iterations == 0 ==> Now() == start && mweights == w0
        invariant |duals| == iterations + 1 && duals[0] == Dual(start) && duals[iterations] == Dual(Now())
        invariant iterations <= (if maxIterations == 0 then 1 else maxIterations)
        invariant again ==> forall k :: 0 < k < |duals| ==> duals[k - 1] < duals[k]
        invariant iterations > 0 ==> AllKkt(start.insts, w0, n) || SomeTwins(start.insts, n) || Dual(start) < Dual(Now())
        invariant !again ==> iterations > 0 && (solved || SomeTwins(instances, n))
        decreases if again then 1 else 0, maxIterations - iterations
      {
        ghost var before := instances;
        again, solved := Pass();
        duals := duals + [Dual(Now())];
        SameOn(old(instances), before, instances);
        iterations := iterations + 1;
        if iterations >= maxIterations {
          break;
        }
      }
      gaveUp := again;
      if solved { SolvedIsNearOptimal(Now(), mweights); }
    }

    /** One round over all instances: whether a step was taken, and whether
        there was none to take. A round without steps that had one to take met
        twins. */
    method Pass() returns (again: bool, quiet: bool)
      requires Valid() && Shared(instances)
      modifies this
      ensures Valid() && Shared(instances) && SameProblem(old(instances), instances)
      ensures Dual(old(Now())) <= Dual(Now())
      ensures quiet ==> !again && AllKkt(instances, mweights, n)
      ensures AllKkt(old(instances), old(mweights), n) ==> quiet
      ensures if again then Dual(old(Now())) < Dual(Now())
              else Now() == old(Now()) && mweights == old(mweights) && (quiet || SomeTwins(instances, n))
    {
      hide Kkt, Violation, Consistent, Shared, SameProblem, Dual, Twins;
      again, quiet := false, true;
      ghost var start, w0 := Now(), mweights;
      SameItself(instances);
      for i := 0 to |instances|
        invariant |instances| == |start.insts|
        invariant Valid() && Shared(instances) && SameProblem(start.insts, instances)
        invariant Dual(start) <= Dual(Now()) && (again ==> Dual(start) < Dual(Now()))
        invariant quiet ==> !again && forall j {:trigger Kkt(instances[j], mweights, n)} :: 0 <= j < i ==> Kkt(instances[j], mweights, n)
        invariant AllKkt(start.insts, w0, n) ==> quiet
        invariant !again ==> Now() == start && mweights == w0 && (quiet || exists j :: 0 <= j < i && Twins(instances[j], n))
      {
        if |instances[i].hyps| < 2 {
          OneHypIsKkt(instances[i], mweights, n);
          continue;
        }
        ghost var before := Now();
        var moved, none := Improve(i);
        SameOn(start.insts, before.insts, instances);
        SameSize(before.insts, instances);
        again := again || moved;
        quiet := quiet && none;
      }
    }

    /** Takes one step in one instance, if any is worth taking. */
    method Improve(i: nat) returns (moved: bool, none: bool)
      requires Valid() && Shared(instances) && i < |instances| && |instances[i].hyps| >= 2
      modifies this
      ensures Valid() && Shared(instances) && SameProblem(old(instances), instances)
      ensures Dual(old(Now())) <= Dual(Now())
      ensures none ==> !moved && Kkt(instances[i], mweights, n)
      ensures Kkt(old(instances)[i], old(mweights), n) ==> none
      ensures !moved ==> Now() == old(Now()) && mweights == old(mweights) && (none || Twins(instances[i], n))
      ensures moved ==> Dual(old(Now())) < Dual(Now())
    {
      hide Kkt, Violation, Consistent, Dual, Solution, Denom, KktBy, Balanced, Twins;
      ghost var before := Now();
      ConsistentIs(before, mweights);
      SameItself(instances);
      var inst := instances[i];
      var viol: seq<real> := [];
      for h := 0 to |inst.hyps|
        invariant |viol| == h && forall g :: 0 <= g < h ==> viol[g] == Violation(inst, mweights, inst.hyps[g], n)
      {
        viol := viol + [Violation(inst, mweights, inst.hyps[h], n)];
      }
      KktIs(before, i, viol);
      var pair := SelectPair(inst, viol);
      match pair {
        case None =>
          moved, none := false, true;
        case Some((a, b)) =>
          ImprovesIsPair(before, i, viol, a, b);
          StepKeepsAll(before, i, a, b);
          PairGains(before, i, a, b);
          moved := OptimizePair(i, a, b, viol[a], viol[b]);
          if !moved { RefusedAreTwins(before, i, viol, a, b); }
          none := false;
      }
    }

    /** The objective at the current weights. */
    method Objective() returns (obj: real)
      requires Valid() && Shared(instances)
      ensures obj == Primal(Now(), mweights)
    {
      hide Violation, Solution;
      var dm := DeltaMweights();
      DeltaIs(Now(), mweights, dm);
      obj := 0.5 * Dot(dm, Ratio(dm, rate, n), n);
      for i := 0 to |instances|
        invariant obj == 0.5 * Dot(dm, Ratio(dm, rate, n), n) + MaxSum(Now(), mweights, i)
      {
        var inst := instances[i];
        var most := Violation(inst, mweights, inst.hyps[0], n);
        for h := 1 to |inst.hyps|
          invariant most == MaxViolation(inst, mweights, h, n)
        {
          var v := Violation(inst, mweights, inst.hyps[h], n);
          if v > most { most := v; }
        }
        obj := obj + most;
      }
    }

    /** Takes the hypotheses' shares of the weights off a sum. */
    static method LessHyps(sum0: Vec, ghost before: Vec, inst: Instance, rate: Vec, n: nat) returns (sum: Vec)
      requires sum0 == Axpy(before, 1.0, Times(rate, Axpy(HopeOf(inst).mvector, -1.0, Zero(n), n), n), n)
      ensures sum == Axpy(before, 1.0, Times(rate, Axpy(HopeOf(inst).mvector, -1.0, Mix(inst.hyps, |inst.hyps|, n), n), n), n)
    {
      hide Axpy, Times, HopeOf;
      sum := sum0;
      for h := 0 to |inst.hyps|
        invariant sum == Axpy(before, 1.0, Times(rate, Axpy(HopeOf(inst).mvector, -1.0, Mix(inst.hyps, h, n), n), n), n)
      {
        LessOne(before, rate, HopeOf(inst).mvector, Mix(inst.hyps, h, n), inst.hyps[h].alpha, inst.hyps[h].mvector, n);
        sum := Axpy(sum, -inst.hyps[h].alpha, Times(rate, inst.hyps[h].mvector, n), n);
      }
    }

    /** How far the weights have moved, from the instances alone. */
    method DeltaMweights() returns (dm: Vec)
      requires Valid() && Shared(instances)
      ensures dm == Times(rate, Pull(instances, |instances|, n), n)
    {
      hide Axpy, Times, Consistent;
      var sum := Zero(n);
      NothingPulled(rate, n);
      for i := 0 to |instances|
        invariant sum == Axpy(Zero(n), -1.0, Times(rate, Pull(instances, i, n), n), n)
      {
        var inst := instances[i];
        var hope := HopeOf(inst).mvector;
        ghost var before := sum;
        sum := Axpy(sum, 1.0, Times(rate, hope, n), n);
        HopeAlone(before, rate, hope, n);
        sum := LessHyps(sum, before, inst, rate, n);
        PulledOnce(rate, Pull(instances, i, n), Mix(inst.hyps, |inst.hyps|, n), hope, n);
      }
      dm := Axpy(Zero(n), -1.0, sum, n);
      Negated(Times(rate, Pull(instances, |instances|, n), n), n);
    }
  }

  lemma NonNegativeMore(hyps: seq<Hyp>, o: Hyp)
    requires NonNegative(hyps)
    ensures NonNegative(hyps + [o.(alpha := 0.0)])
  {
  }

  /** Two hypotheses alike in features, sharing the weight evenly: making the
      second the hope leaves the first with a negative weight. */
  lemma TwinHopes()
    ensures var inst := Instance([Hyp([1.0], 1.0, 0.5), Hyp([1.0], 0.0, 0.5)], Some(0));
            var p := Problem([inst], [0.0], [1.0], 1);
            Consistent(p, Solution(p)) && NonNegative(inst.hyps) && Overdrawn(inst, 1, 1)
            && !NonNegative(AfterHope(p, 0, 1).insts[0].hyps)
  {
    var inst := Instance([Hyp([1.0], 1.0, 0.5), Hyp([1.0], 0.0, 0.5)], Some(0));
    var p := Problem([inst], [0.0], [1.0], 1);
    assert AlphaSum(inst.hyps, 2) == AlphaSum(inst.hyps, 1) + 0.5 == AlphaSum(inst.hyps, 0) + 0.5 + 0.5;
    HopeWeights(p, 0, 1);
  }
}
