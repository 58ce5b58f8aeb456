/** The training problem over everything that may be offered as a fear, and how
    a solved working set that no offer exceeds comes near its optimum. */
module MarginSpace {
  import opened Vectors
  import opened MarginModel

  /** For each instance, all that its separation oracle chooses from; nothing if
      it has none. */
  type Space = seq<seq<Hyp>>

  /** The instance with everything offered in its working set. */
  function WideInst(inst: Instance, offers: seq<Hyp>): Instance {
    inst.(hyps := inst.hyps + offers)
  }

  function Wide(p: Problem, space: Space): Problem
    requires |space| == |p.insts|
  {
    p.(insts := seq(|p.insts|, i requires 0 <= i < |p.insts| => WideInst(p.insts[i], space[i])))
  }

  /** No offer violates more than all of the working set by the tolerance. */
  predicate NoneExceeds(inst: Instance, offers: seq<Hyp>, w: Vec, n: nat) {
    forall o {:trigger Matched(inst, o, w, n)} :: o in offers ==> Matched(inst, o, w, n)
  }

  predicate Matched(inst: Instance, o: Hyp, w: Vec, n: nat) {
    exists h :: 0 <= h < |inst.hyps| && Violation(inst, w, o, n) <= Violation(inst, w, inst.hyps[h], n) + EPSILON
  }

  lemma WideViolation(inst: Instance, offers: seq<Hyp>, w: Vec, o: Hyp, n: nat)
    requires Hoped(inst)
    ensures Violation(WideInst(inst, offers), w, o, n) == Violation(inst, w, o, n)
  {
    assert HopeOf(WideInst(inst, offers)) == HopeOf(inst);
  }

  lemma WideMax(inst: Instance, offers: seq<Hyp>, w: Vec, n: nat)
    requires Hoped(inst)
    ensures MaxViolation(inst, w, |inst.hyps|, n) <= MaxViolation(WideInst(inst, offers), w, |inst.hyps + offers|, n)
    ensures NoneExceeds(inst, offers, w, n) ==>
              MaxViolation(WideInst(inst, offers), w, |inst.hyps + offers|, n) <= MaxViolation(inst, w, |inst.hyps|, n) + EPSILON
  {
    hide MaxViolation, Violation;
    var wide := WideInst(inst, offers);
    var a := MaxIsReached(inst, w, |inst.hyps|, n);
    assert wide.hyps[a] == inst.hyps[a];
    WideViolation(inst, offers, w, inst.hyps[a], n);
    MaxIsMost(wide, w, |wide.hyps|, n, a);
    var b := MaxIsReached(wide, w, |wide.hyps|, n);
    WideViolation(inst, offers, w, wide.hyps[b], n);
    if b < |inst.hyps| {
      MaxIsMost(inst, w, |inst.hyps|, n, b);
    } else if NoneExceeds(inst, offers, w, n) {
      assert wide.hyps[b] in offers;
      assert Matched(inst, wide.hyps[b], w, n);
      var h :| 0 <= h < |inst.hyps| && Violation(inst, w, wide.hyps[b], n) <= Violation(inst, w, inst.hyps[h], n) + EPSILON;
      MaxIsMost(inst, w, |inst.hyps|, n, h);
    }
  }

  /** All instances have a hope. */
  predicate AllHoped(insts: seq<Instance>) {
    forall i :: 0 <= i < |insts| ==> Hoped(insts[i])
  }

  /** More hypotheses can only raise the objective. */
  lemma {:induction false} WideSumMore(p: Problem, space: Space, w: Vec, i: nat)
    requires i <= |p.insts| == |space| && AllHoped(p.insts)
    ensures MaxSum(p, w, i) <= MaxSum(Wide(p, space), w, i)
  {
    hide MaxViolation;
    if i > 0 {
      WideSumMore(p, space, w, i - 1);
      WideMax(p.insts[i - 1], space[i - 1], w, p.n);
    }
  }

  /** Offers that exceed nothing raise it by little. */
  lemma {:induction false} WideSumLittle(p: Problem, space: Space, w: Vec, i: nat)
    requires i <= |p.insts| == |space| && AllHoped(p.insts)
    requires forall k :: 0 <= k < |p.insts| ==> NoneExceeds(p.insts[k], space[k], w, p.n)
    ensures MaxSum(Wide(p, space), w, i) <= MaxSum(p, w, i) + i as real * EPSILON
  {
    hide MaxViolation, NoneExceeds;
    if i > 0 {
      WideSumLittle(p, space, w, i - 1);
      WideMax(p.insts[i - 1], space[i - 1], w, p.n);
      assert i as real * EPSILON == (i - 1) as real * EPSILON + EPSILON;
    }
  }

  /** A solved working set that no offer exceeds: no weights at all have an
      objective, over everything offered, lower by more than twice the
      tolerance for each instance. */
  lemma NearOptimalOverall(p: Problem, space: Space, v: Vec)
    requires Feasible(p) && |space| == |p.insts| && |v| == p.n
    requires forall i :: 0 <= i < |p.insts| ==> Kkt(p.insts[i], Solution(p), p.n)
    requires forall i :: 0 <= i < |p.insts| ==> NoneExceeds(p.insts[i], space[i], Solution(p), p.n)
    ensures Primal(Wide(p, space), Solution(p)) <= Primal(Wide(p, space), v) + 2.0 * (|p.insts| as real * EPSILON)
  {
    hide Kkt, NoneExceeds, Solution, Dot, Ratio, MaxSum;
    assert AllHoped(p.insts);
    NearKktIsNearOptimal(p, v);
    WideSumLittle(p, space, Solution(p), |p.insts|);
    WideSumMore(p, space, v, |p.insts|);
  }

  // ----- offers not yet known

  /** A hypothesis of the working set has the offer's features and loss. */
  predicate Known(hyps: seq<Hyp>, o: Hyp) {
    exists h :: 0 <= h < |hyps| && hyps[h].mvector == o.mvector && hyps[h].loss == o.loss
  }

  /** How many of the first `k` offers are not known. */
  function Unknown(hyps: seq<Hyp>, offers: seq<Hyp>, k: nat): nat
    requires k <= |offers|
  {
    if k == 0 then 0 else Unknown(hyps, offers, k - 1) + (if Known(hyps, offers[k - 1]) then 0 else 1)
  }

  function UnknownAll(insts: seq<Instance>, space: Space, i: nat): nat
    requires i <= |insts| == |space|
  {
    if i == 0 then 0 else UnknownAll(insts, space, i - 1) + Unknown(insts[i - 1].hyps, space[i - 1], |space[i - 1]|)
  }

  /** Whatever is known in one working set is known in the other. */
  ghost predicate KnowsMore(a: seq<Hyp>, b: seq<Hyp>) {
    forall o :: Known(a, o) ==> Known(b, o)
  }

  lemma {:induction false} UnknownLess(a: seq<Hyp>, b: seq<Hyp>, offers: seq<Hyp>, k: nat)
    requires k <= |offers| && KnowsMore(a, b)
    ensures Unknown(b, offers, k) <= Unknown(a, offers, k)
    ensures (exists j :: 0 <= j < k && Known(b, offers[j]) && !Known(a, offers[j])) ==> Unknown(b, offers, k) < Unknown(a, offers, k)
  {
    hide Known;
    if k > 0 { UnknownLess(a, b, offers, k - 1); }
  }

  /** Every instance's working set knows no less. */
  ghost predicate AllKnowMore(a: seq<Instance>, b: seq<Instance>) {
    |a| == |b| && forall i :: 0 <= i < |a| ==> KnowsMore(a[i].hyps, b[i].hyps)
  }

  lemma {:induction false} UnknownAllLess(a: seq<Instance>, b: seq<Instance>, space: Space, i: nat)
    requires AllKnowMore(a, b) && i <= |a| == |space|
    ensures UnknownAll(b, space, i) <= UnknownAll(a, space, i)
    ensures forall j, o :: 0 <= j < i && o in space[j] && Known(b[j].hyps, o) && !Known(a[j].hyps, o) ==>
              UnknownAll(b, space, i) < UnknownAll(a, space, i)
  {
    hide Known, KnowsMore;
    if i > 0 {
      UnknownAllLess(a, b, space, i - 1);
      UnknownLess(a[i - 1].hyps, b[i - 1].hyps, space[i - 1], |space[i - 1]|);
    }
  }

  lemma AppendedKnows(hyps: seq<Hyp>, o: Hyp)
    ensures KnowsMore(hyps, hyps + [o.(alpha := 0.0)]) && Known(hyps + [o.(alpha := 0.0)], o)
  {
    var more := hyps + [o.(alpha := 0.0)];
    assert more[|hyps|].mvector == o.mvector;
    forall q | Known(hyps, q) ensures Known(more, q) {
      var h :| 0 <= h < |hyps| && hyps[h].mvector == q.mvector && hyps[h].loss == q.loss;
      assert more[h] == hyps[h];
    }
  }

  /** An offer that violates more than the whole working set is not in it. */
  lemma ExceedsIsUnknown(inst: Instance, o: Hyp, w: Vec, n: nat)
    requires forall h :: 0 <= h < |inst.hyps| ==> Violation(inst, w, inst.hyps[h], n) + EPSILON < Violation(inst, w, o, n)
    ensures !Known(inst.hyps, o)
  {
    hide Dot;
  }
}
