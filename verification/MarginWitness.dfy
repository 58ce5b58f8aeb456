/** A run of the optimiser that ends at weights at which the separation oracle
    has not been asked, far from the optimum. */
module MarginWitness {
  import opened Wrappers
  import opened Vectors
  import opened MarginModel
  import opened MarginSteps
  import opened MarginSpace
  import opened MaxMargin

  /** A hope and another hypothesis, with weights. */
  function Side(x: real, y: real): Instance {
    Instance([Hyp([0.0], 0.0, x), Hyp([1.0], 1.0, y)], Some(0))
  }

  function Sided(x: real, y: real): Problem {
    Problem([Side(x, y)], [0.0], [1.0], 1)
  }

  /** An offer that pulls the other way. */
  const OTHER: Hyp := Hyp([-1.0], 1.0, 0.0)
  const OTHER_SIDE: Space := [[OTHER]]

  lemma DotOne(a: real, b: real)
    ensures Dot([a], [b], 1) == a * b
  {
    assert Dot([a], [b], 0) == 0.0;
  }

  /** Violations in an instance whose hope has neither features nor loss. */
  lemma OneViolation(inst: Instance, w: real, x: real, loss: real, alpha: real)
    requires Hoped(inst) && HopeOf(inst).mvector == [0.0] && HopeOf(inst).loss == 0.0
    ensures Violation(inst, [w], Hyp([x], loss, alpha), 1) == loss - w * x
  {
    ViolationIs(inst, [w], Hyp([x], loss, alpha), 1);
    DotOne(w, x);
    DotOne(w, 0.0);
  }

  lemma SideViolations(x: real, y: real, w: real)
    ensures Violation(Side(x, y), [w], Side(x, y).hyps[0], 1) == 0.0
    ensures Violation(Side(x, y), [w], Side(x, y).hyps[1], 1) == 1.0 - w
    ensures Violation(Side(x, y), [w], OTHER, 1) == 1.0 + w
  {
    OneViolation(Side(x, y), w, 0.0, 0.0, x);
    OneViolation(Side(x, y), w, 1.0, 1.0, y);
    OneViolation(Side(x, y), w, -1.0, 1.0, 0.0);
  }

  lemma SidePull(x: real, y: real)
    ensures Solution(Sided(x, y)) == [y] && AlphaSum(Side(x, y).hyps, 2) == x + y
  {
    var p, hyps := Sided(x, y), Side(x, y).hyps;
    assert Mix(hyps, 1, 1)[0] == Mix(hyps, 0, 1)[0] + x * 0.0;
    assert Mix(hyps, 2, 1)[0] == Mix(hyps, 1, 1)[0] + y * 1.0;
    assert PullOf(p.insts[0], 1)[0] == y;
    assert Pull(p.insts, 1, 1)[0] == Pull(p.insts, 0, 1)[0] + 1.0 * y;
    assert Solution(p)[0] == y;
    assert AlphaSum(hyps, 2) == AlphaSum(hyps, 1) + y == AlphaSum(hyps, 0) + x + y;
  }

  /** The objective over everything offered. */
  lemma SidePrimal(x: real, y: real, w: real)
    requires w == 0.0 || w == 1.0
    ensures Primal(Wide(Sided(x, y), OTHER_SIDE), [w]) == 1.0 + 1.5 * w
  {
    var wide := Wide(Sided(x, y), OTHER_SIDE);
    var inst := wide.insts[0];
    assert inst.hyps == [Hyp([0.0], 0.0, x), Hyp([1.0], 1.0, y), OTHER];
    OneViolation(inst, w, 0.0, 0.0, x);
    OneViolation(inst, w, 1.0, 1.0, y);
    OneViolation(inst, w, -1.0, 1.0, 0.0);
    hide Violation;
    assert MaxViolation(inst, [w], 1, 1) == 0.0;
    assert MaxViolation(inst, [w], 2, 1) == 1.0 - w;
    assert MaxViolation(inst, [w], 3, 1) == 1.0 + w;
    assert MaxSum(wide, [w], 1) == MaxSum(wide, [w], 0) + MaxViolation(inst, [w], 3, 1);
    var d := Axpy([w], -1.0, [0.0], 1);
    assert d == [w];
    assert Ratio(d, [1.0], 1) == [w];
    DotOne(w, w);
  }

  /** The one step there is to take gives the other hypothesis all weight. */
  lemma SideStep()
    ensures IsPair(Sided(1.0, 0.0), 0, 1, 0) && AfterPair(Sided(1.0, 0.0), 0, 1, 0) == Sided(0.0, 1.0)
  {
    hide Violation, Solution, Denom, Gap, Dot;
    SideDenom();
    SideGap();
    assert Clip(1.0, 1.0, 0.0, 1.0) == 1.0;
    assert Shift(Side(1.0, 0.0), 1, 0, 1.0) == Side(0.0, 1.0);
  }

  lemma SideDenom()
    ensures Denom(Sided(1.0, 0.0), 0, 1, 0) == 1.0
  {
    assert Direction(Side(1.0, 0.0), 1, 0, 1) == [1.0];
    assert Times([1.0], [1.0], 1) == [1.0];
    DotOne(1.0, 1.0);
  }

  lemma SideGap()
    ensures Gap(Sided(1.0, 0.0), 0, 1, 0) == 1.0
  {
    hide Violation, Solution;
    SidePull(1.0, 0.0);
    SideViolations(1.0, 0.0, 0.0);
  }

  lemma SideConsistent()
    ensures Consistent(Sided(1.0, 0.0), [0.0]) && Shared(Sided(1.0, 0.0).insts)
  {
    SidePull(1.0, 0.0);
  }

  lemma SideChecks(x: real, y: real, w: real)
    ensures w == 0.0 ==> NoFears(Sided(x, y).insts, OTHER_SIDE, [w], 1)
    ensures w == 1.0 ==> !NoFears(Sided(x, y).insts, OTHER_SIDE, [w], 1)
    ensures w == 0.0 && x > 0.0 ==> !AllKkt(Sided(x, y).insts, [w], 1)
    ensures w == 1.0 ==> AllKkt(Sided(x, y).insts, [w], 1)
  {
    hide Violation;
    SideViolations(x, y, w);
    assert Matched(Side(x, y), OTHER, [w], 1) <==> 1.0 + w <= EPSILON || 1.0 + w <= 1.0 - w + EPSILON;
    assert NoneExceeds(Side(x, y), [OTHER], [w], 1) <==> Matched(Side(x, y), OTHER, [w], 1);
    var insts := Sided(x, y).insts;
    assert insts[0] == Side(x, y) && OTHER_SIDE[0] == [OTHER];
    if w == 0.0 && x > 0.0 { assert !Kkt(insts[0], [w], 1); }
    if w == 1.0 { assert Kkt(insts[0], [w], 1) && !NoneExceeds(insts[0], OTHER_SIDE[0], [w], 1); }
  }

  /** With a working set that is not solved to start with, no offer may exceed
      it, and yet the only step there is leads to weights far from the optimum
      over everything offered. There is nothing left to do for the working set,
      and the oracle is not asked again. */
  lemma AskedTooEarly()
    ensures var p := Sided(1.0, 0.0);
            && Consistent(p, [0.0]) && Shared(p.insts) && NoFears(p.insts, OTHER_SIDE, [0.0], 1) && !AllKkt(p.insts, [0.0], 1)
            && IsPair(p, 0, 1, 0) && AfterPair(p, 0, 1, 0) == Sided(0.0, 1.0)
    ensures var q := Sided(0.0, 1.0);
            && Solution(q) == [1.0] && AllKkt(q.insts, [1.0], 1) && !NoFears(q.insts, OTHER_SIDE, [1.0], 1)
            && Primal(Wide(q, OTHER_SIDE), [1.0]) == 2.5 && Primal(Wide(q, OTHER_SIDE), [0.0]) == 1.0
  {
    hide Violation, Solution, Primal, AfterPair, Consistent, Shared, AllKkt, NoFears, Wide;
    SideConsistent();
    SideStep();
    SidePull(0.0, 1.0);
    SideChecks(1.0, 0.0, 0.0);
    SideChecks(0.0, 1.0, 1.0);
    SidePrimal(0.0, 1.0, 0.0);
    SidePrimal(0.0, 1.0, 1.0);
  }
}
