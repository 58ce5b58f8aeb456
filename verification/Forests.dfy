/** And/or forests with costs, their derivations, and best costs. */
module Forests {

  /** An and-node: the items it needs, its own cost, and the cost of its best
      derivation. */
  datatype Deduction = Deduction(ants: seq<nat>, dcost: real, viterbi: real)

  /** An or-node, with the cost of its best derivation. */
  datatype Item = Item(deds: seq<Deduction>, viterbi: real)

  /** Items are named by their place in the sequence. */
  type Forest = seq<Item>

  /** The item's antecedents are items of strictly lower rank. */
  predicate Descends(f: Forest, rank: seq<nat>, i: nat)
    requires i < |f| && |rank| == |f|
  {
    forall e, a :: 0 <= e < |f[i].deds| && 0 <= a < |f[i].deds[e].ants| ==>
      f[i].deds[e].ants[a] < |f| && rank[f[i].deds[e].ants[a]] < rank[i]
  }

  /** `rank` witnesses that the forest has no cycle. */
  predicate Acyclic(f: Forest, rank: seq<nat>) {
    |rank| == |f| && forall i :: 0 <= i < |f| ==> Descends(f, rank, i)
  }

  /** The items the members' deductions need are members. */
  predicate ClosedSet(f: Forest, s: set<nat>) {
    forall i :: i in s ==> i < |f| && forall e, a :: 0 <= e < |f[i].deds| && 0 <= a < |f[i].deds[e].ants| ==>
      f[i].deds[e].ants[a] in s
  }

  /** Sum of the antecedents' best costs, over the first `k` of them. */
  function AntSum(f: Forest, ants: seq<nat>, k: nat): real
    requires k <= |ants|
  {
    if k == 0 then 0.0
    else AntSum(f, ants, k - 1) + (if ants[k - 1] < |f| then f[ants[k - 1]].viterbi else 0.0)
  }

  /** The recorded best costs of one item agree with those of its antecedents. */
  predicate ViterbiAt(f: Forest, i: nat)
    requires i < |f|
  {
    && (forall e :: 0 <= e < |f[i].deds| ==>
          && f[i].deds[e].viterbi == f[i].deds[e].dcost + AntSum(f, f[i].deds[e].ants, |f[i].deds[e].ants|)
          && f[i].viterbi <= f[i].deds[e].viterbi)
    && (exists e :: 0 <= e < |f[i].deds| && f[i].deds[e].viterbi == f[i].viterbi)
  }

  /** A closed part of the forest whose recorded best costs are consistent. */
  predicate Weighted(f: Forest, s: set<nat>) {
    ClosedSet(f, s) && forall i :: i in s ==> ViterbiAt(f, i)
  }

  // ----- derivations

  /** A derivation of an item: one of its deductions and a derivation of each
      of the deduction's antecedents. */
  datatype Deriv = Deriv(ded: nat, subs: seq<Deriv>)

  predicate IsDeriv(f: Forest, i: nat, d: Deriv)
    decreases d
  {
    && i < |f| && d.ded < |f[i].deds| && |d.subs| == |f[i].deds[d.ded].ants|
    && forall a :: 0 <= a < |d.subs| ==> IsDeriv(f, f[i].deds[d.ded].ants[a], d.subs[a])
  }

  /** Cost of a deduction and its first `k` antecedents' derivations. */
  function CostUpTo(f: Forest, i: nat, d: Deriv, k: nat): real
    requires IsDeriv(f, i, d) && k <= |d.subs|
    decreases d, k
  {
    if k == 0 then f[i].deds[d.ded].dcost
    else CostUpTo(f, i, d, k - 1) + Cost(f, f[i].deds[d.ded].ants[k - 1], d.subs[k - 1])
  }

  function Cost(f: Forest, i: nat, d: Deriv): real
    requires IsDeriv(f, i, d)
    decreases d, |d.subs| + 1
  {
    CostUpTo(f, i, d, |d.subs|)
  }

  // ----- recorded best costs are best

  lemma {:induction false} ViterbiIsLeast(f: Forest, s: set<nat>, i: nat, d: Deriv)
    requires Weighted(f, s) && i in s && IsDeriv(f, i, d)
    ensures f[i].viterbi <= Cost(f, i, d)
    decreases d, |d.subs| + 1
  {
    ViterbiIsLeastUpTo(f, s, i, d, |d.subs|);
  }

  lemma {:induction false} ViterbiIsLeastUpTo(f: Forest, s: set<nat>, i: nat, d: Deriv, k: nat)
    requires Weighted(f, s) && i in s && IsDeriv(f, i, d) && k <= |d.subs|
    ensures f[i].deds[d.ded].dcost + AntSum(f, f[i].deds[d.ded].ants, k) <= CostUpTo(f, i, d, k)
    decreases d, k
  {
    if k > 0 {
      ViterbiIsLeastUpTo(f, s, i, d, k - 1);
      ViterbiIsLeast(f, s, f[i].deds[d.ded].ants[k - 1], d.subs[k - 1]);
    }
  }

  /** The derivation that follows a cheapest deduction everywhere. */
  ghost function BestDeriv(f: Forest, s: set<nat>, rank: seq<nat>, i: nat): (d: Deriv)
    requires Weighted(f, s) && Acyclic(f, rank) && i in s
    ensures IsDeriv(f, i, d)
    decreases rank[i]
  {
    assert ViterbiAt(f, i) && Descends(f, rank, i);
    var e :| 0 <= e < |f[i].deds| && f[i].deds[e].viterbi == f[i].viterbi;
    Deriv(e, seq(|f[i].deds[e].ants|, a requires 0 <= a < |f[i].deds[e].ants| =>
      BestDeriv(f, s, rank, f[i].deds[e].ants[a])))
  }

  /** Some derivation has the recorded cost. */
  lemma {:induction false} ViterbiIsReached(f: Forest, s: set<nat>, rank: seq<nat>, i: nat)
    requires Weighted(f, s) && Acyclic(f, rank) && i in s
    ensures Cost(f, i, BestDeriv(f, s, rank, i)) == f[i].viterbi
    decreases rank[i]
  {
    var d := BestDeriv(f, s, rank, i);
    assert ViterbiAt(f, i) && Descends(f, rank, i);
    forall a | 0 <= a < |d.subs| ensures Cost(f, f[i].deds[d.ded].ants[a], d.subs[a]) == f[f[i].deds[d.ded].ants[a]].viterbi {
      ViterbiIsReached(f, s, rank, f[i].deds[d.ded].ants[a]);
    }
    CostsAdd(f, i, d, |d.subs|);
  }

  lemma {:induction false} CostsAdd(f: Forest, i: nat, d: Deriv, k: nat)
    requires IsDeriv(f, i, d) && k <= |d.subs|
    requires forall a :: 0 <= a < |d.subs| ==>
               Cost(f, f[i].deds[d.ded].ants[a], d.subs[a]) == f[f[i].deds[d.ded].ants[a]].viterbi
    ensures CostUpTo(f, i, d, k) == f[i].deds[d.ded].dcost + AntSum(f, f[i].deds[d.ded].ants, k)
  {
    if k > 0 { CostsAdd(f, i, d, k - 1); }
  }
}
