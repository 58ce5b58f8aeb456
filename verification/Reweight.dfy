/** Recomputing the best costs of a forest bottom-up with a memo. */
module Reweight {
  import opened Forests

  /** The forests differ at most in their recorded best costs. */
  predicate SameShape(f: Forest, g: Forest) {
    |f| == |g| && forall i :: 0 <= i < |f| ==>
      && |f[i].deds| == |g[i].deds|
      && forall e :: 0 <= e < |f[i].deds| ==> f[i].deds[e].ants == g[i].deds[e].ants && f[i].deds[e].dcost == g[i].deds[e].dcost
  }

  /** The memo holds the best costs of a closed part of the forest. */
  predicate Memoised(f: Forest, memo: map<nat, real>) {
    Weighted(f, memo.Keys) && forall i :: i in memo ==> memo[i] == f[i].viterbi
  }

  /** Nothing changed but the item and what is below it, unless memoised. */
  predicate Kept(f: Forest, g: Forest, rank: seq<nat>, memo: map<nat, real>, i: nat)
    requires i < |f| == |g| == |rank|
  {
    forall j :: 0 <= j < |f| && (j in memo || (j != i && rank[i] <= rank[j])) ==> g[j] == f[j]
  }

  predicate Longer(memo: map<nat, real>, memo': map<nat, real>) {
    forall i :: i in memo ==> i in memo' && memo'[i] == memo[i]
  }

  /** What is memoised anew is the item or below it. */
  predicate OnlyBelow(rank: seq<nat>, memo: map<nat, real>, memo': map<nat, real>, i: nat)
    requires i < |rank|
  {
    forall j :: j in memo' && j !in memo && j != i ==> j < |rank| && rank[j] < rank[i]
  }

  /** What one call of the recomputation does to a forest and its memo. */
  predicate Changed(f: Forest, g: Forest, rank: seq<nat>, memo: map<nat, real>, memo': map<nat, real>, i: nat) {
    && SameShape(f, g) && i < |f| == |rank|
    && Kept(f, g, rank, memo, i) && Longer(memo, memo') && OnlyBelow(rank, memo, memo', i)
  }

  lemma ChangedBelow(f: Forest, g: Forest, h: Forest, rank: seq<nat>, m: map<nat, real>, m': map<nat, real>, m'': map<nat, real>, i: nat, b: nat)
    requires Changed(f, g, rank, m, m', i) && b < |rank| && Changed(g, h, rank, m', m'', b) && rank[b] < rank[i]
    requires g[i] == f[i] && i !in m'
    ensures Changed(f, h, rank, m, m'', i) && h[i] == f[i] && i !in m''
  {
  }

  lemma ChangedHere(f: Forest, g: Forest, h: Forest, rank: seq<nat>, m: map<nat, real>, m': map<nat, real>, m'': map<nat, real>, i: nat)
    requires Changed(f, g, rank, m, m', i) && Changed(g, h, rank, m', m'', i)
    ensures Changed(f, h, rank, m, m'', i)
  {
  }

  lemma NotChanged(f: Forest, rank: seq<nat>, memo: map<nat, real>, i: nat)
    requires i < |f| && Acyclic(f, rank)
    ensures Changed(f, f, rank, memo, memo, i)
  {
  }

  lemma MemoiseChanged(f: Forest, g: Forest, rank: seq<nat>, memo: map<nat, real>, memo': map<nat, real>, i: nat, v: real)
    requires Changed(f, g, rank, memo, memo', i) && i !in memo'
    ensures Changed(f, g, rank, memo, memo'[i := v], i)
  {
  }

  /** Whatever the item rests on includes an item that has no deduction. */
  ghost predicate Groundless(f: Forest, i: nat) {
    forall s :: ClosedSet(f, s) && i in s ==> exists j :: j in s && j < |f| && f[j].deds == []
  }

  lemma NoDeductions(f: Forest, i: nat)
    requires i < |f| && f[i].deds == []
    ensures Groundless(f, i)
  {
  }

  /** An item whose one deduction rests on an item without deductions. */
  const ON_NOTHING: Forest := [Item([], 0.0), Item([Deduction([0], 1.0, 1.0)], 1.0)]

  lemma OnNothingIsGroundless()
    ensures Acyclic(ON_NOTHING, [0, 1]) && Groundless(ON_NOTHING, 0) && Groundless(ON_NOTHING, 1)
  {
    NoDeductions(ON_NOTHING, 0);
    assert ON_NOTHING[1].deds[0].ants[0] == 0;
    GroundlessBelow(ON_NOTHING, 1, 0, 0);
  }

  lemma GroundlessBelow(f: Forest, i: nat, e: nat, a: nat)
    requires i < |f| && e < |f[i].deds| && a < |f[i].deds[e].ants| && Groundless(f, f[i].deds[e].ants[a])
    ensures Groundless(f, i)
  {
  }

  lemma ShapeAcyclic(f: Forest, g: Forest, rank: seq<nat>)
    requires SameShape(f, g) && Acyclic(f, rank)
    ensures Acyclic(g, rank)
  {
    forall i | 0 <= i < |g| ensures Descends(g, rank, i) { assert Descends(f, rank, i); }
  }

  lemma {:induction false} AntSumSame(f: Forest, g: Forest, ants: seq<nat>, k: nat)
    requires k <= |ants|
    requires forall a :: 0 <= a < k ==> ants[a] < |f| && ants[a] < |g| && f[ants[a]].viterbi == g[ants[a]].viterbi
    ensures AntSum(f, ants, k) == AntSum(g, ants, k)
  {
    if k > 0 { AntSumSame(f, g, ants, k - 1); }
  }

  /** A memoised item keeps its best cost while other items change. */
  lemma ViterbiAtSame(f: Forest, g: Forest, memo: map<nat, real>, i: nat)
    requires Memoised(f, memo) && SameShape(f, g) && i in memo
    requires forall j :: j in memo ==> j < |f| && g[j] == f[j]
    ensures ViterbiAt(g, i)
  {
    assert ViterbiAt(f, i);
    forall e | 0 <= e < |f[i].deds|
      ensures AntSum(f, f[i].deds[e].ants, |f[i].deds[e].ants|) == AntSum(g, f[i].deds[e].ants, |f[i].deds[e].ants|)
    {
      AntSumSame(f, g, f[i].deds[e].ants, |f[i].deds[e].ants|);
    }
  }

  lemma MemoisedSame(f: Forest, g: Forest, memo: map<nat, real>)
    requires Memoised(f, memo) && SameShape(f, g)
    requires forall j :: j in memo ==> j < |f| && g[j] == f[j]
    ensures Memoised(g, memo)
  {
    hide ViterbiAt, AntSum;
    forall i | i in memo ensures ViterbiAt(g, i) { ViterbiAtSame(f, g, memo, i); }
  }

  /** The item's first `n` deductions have been priced from memoised
      antecedents and its own cost is the least of them. */
  predicate Priced(f: Forest, memo: map<nat, real>, i: nat, n: nat)
    requires i < |f|
  {
    && n <= |f[i].deds|
    && (forall e :: 0 <= e < n ==>
          && (forall a :: 0 <= a < |f[i].deds[e].ants| ==> f[i].deds[e].ants[a] in memo)
          && f[i].deds[e].viterbi == f[i].deds[e].dcost + AntSum(f, f[i].deds[e].ants, |f[i].deds[e].ants|)
          && f[i].viterbi <= f[i].deds[e].viterbi)
    && (n > 0 ==> exists e :: 0 <= e < n && f[i].deds[e].viterbi == f[i].viterbi)
  }

  lemma NothingPriced(f: Forest, memo: map<nat, real>, i: nat)
    requires i < |f|
    ensures Priced(f, memo, i, 0)
  {
  }

  lemma PricedSame(f: Forest, g: Forest, memo: map<nat, real>, memo': map<nat, real>, i: nat, n: nat)
    requires i < |f| == |g| && Priced(f, memo, i, n) && Longer(memo, memo') && g[i] == f[i]
    requires forall j :: j in memo ==> j < |f| && g[j] == f[j]
    ensures Priced(g, memo', i, n)
  {
    forall e | 0 <= e < n
      ensures AntSum(f, f[i].deds[e].ants, |f[i].deds[e].ants|) == AntSum(g, f[i].deds[e].ants, |f[i].deds[e].ants|)
    {
      AntSumSame(f, g, f[i].deds[e].ants, |f[i].deds[e].ants|);
    }
  }

  /** The item with its `e`th deduction's best cost set, and its own lowered
      if that is the first or the least so far. */
  function PricedItem(it: Item, e: nat, v: real): Item
    requires e < |it.deds|
  {
    Item(it.deds[e := it.deds[e].(viterbi := v)], if e == 0 || v < it.viterbi then v else it.viterbi)
  }

  lemma PriceNext(f: Forest, memo: map<nat, real>, i: nat, n: nat, v: real)
    requires Memoised(f, memo) && i < |f| && i !in memo && Priced(f, memo, i, n) && n < |f[i].deds|
    requires forall a :: 0 <= a < |f[i].deds[n].ants| ==> f[i].deds[n].ants[a] in memo
    requires v == f[i].deds[n].dcost + AntSum(f, f[i].deds[n].ants, |f[i].deds[n].ants|)
    ensures Priced(f[i := PricedItem(f[i], n, v)], memo, i, n + 1)
  {
    hide AntSum, ViterbiAt;
    var g := f[i := PricedItem(f[i], n, v)];
    forall e | 0 <= e < n + 1
      ensures AntSum(g, f[i].deds[e].ants, |f[i].deds[e].ants|) == AntSum(f, f[i].deds[e].ants, |f[i].deds[e].ants|)
    {
      AntSumSame(f, g, f[i].deds[e].ants, |f[i].deds[e].ants|);
    }
    if n == 0 || v < f[i].viterbi {
      assert g[i].deds[n].viterbi == g[i].viterbi;
    } else {
      var e :| 0 <= e < n && f[i].deds[e].viterbi == f[i].viterbi;
      assert g[i].deds[e].viterbi == g[i].viterbi;
    }
  }

  lemma PricedIsViterbi(f: Forest, memo: map<nat, real>, i: nat)
    requires i < |f| && f[i].deds != [] && Priced(f, memo, i, |f[i].deds|)
    ensures ViterbiAt(f, i)
  {
  }

  /** A fully priced item can be memoised. */
  lemma MemoiseNext(f: Forest, memo: map<nat, real>, i: nat)
    requires Memoised(f, memo) && i < |f| && f[i].deds != [] && Priced(f, memo, i, |f[i].deds|)
    ensures Memoised(f, memo[i := f[i].viterbi])
  {
    hide AntSum;
    PricedIsViterbi(f, memo, i);
    hide ViterbiAt;
    var memo' := memo[i := f[i].viterbi];
    assert memo'.Keys == memo.Keys + {i};
    assert ClosedSet(f, memo'.Keys);
  }

  /** The first `k` antecedents are memoised and their best costs add up. */
  predicate AntsSummed(f: Forest, memo: map<nat, real>, ants: seq<nat>, k: nat, sum: real) {
    k <= |ants| && (forall a :: 0 <= a < k ==> ants[a] in memo) && sum == AntSum(f, ants, k)
  }

  lemma SummedOn(f: Forest, g: Forest, rank: seq<nat>, memo: map<nat, real>, memo': map<nat, real>, ants: seq<nat>, k: nat, sum: real, b: nat)
    requires Memoised(f, memo) && AntsSummed(f, memo, ants, k, sum) && Changed(f, g, rank, memo, memo', b)
    requires Memoised(g, memo')
    ensures AntsSummed(g, memo', ants, k, sum)
  {
    forall a | 0 <= a < k ensures ants[a] < |f| && f[ants[a]].viterbi == g[ants[a]].viterbi {
      assert ants[a] in memo && ants[a] in memo';
    }
    AntSumSame(f, g, ants, k);
  }

  lemma NothingSummed(f: Forest, memo: map<nat, real>, ants: seq<nat>)
    ensures AntsSummed(f, memo, ants, 0, 0.0)
  {
  }

  lemma SummedNext(f: Forest, memo: map<nat, real>, ants: seq<nat>, k: nat, sum: real)
    requires Memoised(f, memo) && AntsSummed(f, memo, ants, k, sum) && k < |ants| && ants[k] in memo
    ensures AntsSummed(f, memo, ants, k + 1, sum + memo[ants[k]])
  {
  }

  lemma AntIsLower(f: Forest, rank: seq<nat>, i: nat, e: nat, a: nat)
    requires Acyclic(f, rank) && i < |f| && e < |f[i].deds| && a < |f[i].deds[e].ants|
    ensures f[i].deds[e].ants[a] < |f| == |rank| && rank[f[i].deds[e].ants[a]] < rank[i]
  {
    assert Descends(f, rank, i);
  }

  lemma ChangedShape(f: Forest, g: Forest, rank: seq<nat>, memo: map<nat, real>, memo': map<nat, real>, i: nat)
    requires Changed(f, g, rank, memo, memo', i)
    ensures SameShape(f, g) && |f| == |g|
  {
  }

  lemma ChangedPriced(f: Forest, g: Forest, rank: seq<nat>, memo: map<nat, real>, memo': map<nat, real>, i: nat, n: nat)
    requires Changed(f, g, rank, memo, memo', i) && g[i] == f[i] && Priced(f, memo, i, n) && Memoised(f, memo) && i !in memo
    ensures Priced(g, memo', i, n)
  {
    PricedSame(f, g, memo, memo', i, n);
  }

  lemma SetItemChanged(f: Forest, rank: seq<nat>, memo: map<nat, real>, i: nat, e: nat, v: real)
    requires i < |f| == |rank| && e < |f[i].deds| && i !in memo && Memoised(f, memo) && Acyclic(f, rank)
    ensures var g := f[i := PricedItem(f[i], e, v)];
            Changed(f, g, rank, memo, memo, i) && Memoised(g, memo) && Acyclic(g, rank)
  {
    var g := f[i := PricedItem(f[i], e, v)];
    MemoisedSame(f, g, memo);
    ShapeAcyclic(f, g, rank);
  }

  lemma MemoisedIsGrounded(f: Forest, memo: map<nat, real>, i: nat)
    requires Memoised(f, memo) && i in memo
    ensures !Groundless(f, i)
  {
    forall j | j in memo.Keys && j < |f| ensures f[j].deds != [] { assert ViterbiAt(f, j); }
  }

  class Packed {
    var items: Forest
    var memo: map<nat, real>

    constructor (items: Forest)
      ensures this.items == items && memo == map[]
    {
      this.items, memo := items, map[];
    }

    /** Recomputes the best costs of the item and all it rests on; fails when
        some item it rests on has no deduction. */
    method Reweight(i: nat, ghost rank: seq<nat>) returns (ok: bool, v: real)
      requires Acyclic(items, rank) && Memoised(items, memo) && i < |items|
      modifies this
      ensures Changed(old(items), items, rank, old(memo), memo, i)
      ensures ok ==> Memoised(items, memo) && i in memo && v == memo[i]
      ensures !ok <==> Groundless(items, i)
      decreases rank[i], 1
    {
      hide Acyclic, Memoised, Priced, Groundless, Changed, SameShape;
      ok, v := true, 0.0;
      ghost var f0, memo0 := items, memo;
      NotChanged(items, rank, memo, i);
      if i in memo {
        MemoisedIsGrounded(items, memo, i);
        return true, memo[i];
      }
      if items[i].deds == [] {
        NoDeductions(items, i);
        return false, v;
      }
      NothingPriced(items, memo, i);
      for e := 0 to |items[i].deds|
        invariant |items| == |f0| && |items[i].deds| == |f0[i].deds| && Acyclic(items, rank)
        invariant Changed(f0, items, rank, memo0, memo, i)
        invariant Memoised(items, memo) && i !in memo && Priced(items, memo, i, e)
      {
        ghost var f1, memo1 := items, memo;
        var sum;
        ok, sum := SumAnts(i, e, rank);
        ChangedShape(f1, items, rank, memo1, memo, i);
        ChangedHere(f0, f1, items, rank, memo0, memo1, memo, i);
        if !ok {
          return false, v;
        }
        ghost var f2 := items;
        ChangedPriced(f1, items, rank, memo1, memo, i, e);
        v := sum + items[i].deds[e].dcost;
        PriceNext(items, memo, i, e, v);
        SetItemChanged(items, rank, memo, i, e, v);
        items := items[i := PricedItem(items[i], e, v)];
        ChangedHere(f0, f2, items, rank, memo0, memo, memo, i);
      }
      v := items[i].viterbi;
      MemoiseNext(items, memo, i);
      MemoiseChanged(f0, items, rank, memo0, memo, i, v);
      memo := memo[i := v];
      MemoisedIsGrounded(items, memo, i);
      ok := true;
    }

    /** Sum of the recomputed best costs of one deduction's antecedents. */
    method SumAnts(i: nat, e: nat, ghost rank: seq<nat>) returns (ok: bool, sum: real)
      requires Acyclic(items, rank) && Memoised(items, memo) && i < |items| && i !in memo && e < |items[i].deds|
      modifies this
      ensures Changed(old(items), items, rank, old(memo), memo, i)
      ensures |items| == |old(items)| && items[i] == old(items)[i] && i !in memo && Acyclic(items, rank)
      ensures ok ==> Memoised(items, memo) && AntsSummed(items, memo, items[i].deds[e].ants, |items[i].deds[e].ants|, sum)
      ensures !ok ==> Groundless(items, i)
      decreases rank[i], 0
    {
      hide Acyclic, Memoised, Groundless, Changed, AntSum, SameShape;
      ok, sum := true, 0.0;
      ghost var f0, memo0 := items, memo;
      NotChanged(items, rank, memo, i);
      NothingSummed(items, memo, items[i].deds[e].ants);
      hide AntsSummed;
      var ants := items[i].deds[e].ants;
      for a := 0 to |ants|
        invariant |items| == |f0| && items[i] == f0[i] && Acyclic(items, rank) && i !in memo
        invariant Changed(f0, items, rank, memo0, memo, i)
        invariant Memoised(items, memo) && AntsSummed(items, memo, ants, a, sum)
      {
        AntIsLower(items, rank, i, e, a);
        ghost var f1, memo1 := items, memo;
        var w;
        ok, w := Reweight(ants[a], rank);
        ChangedShape(f1, items, rank, memo1, memo, ants[a]);
        ChangedBelow(f0, f1, items, rank, memo0, memo1, memo, i, ants[a]);
        ShapeAcyclic(f1, items, rank);
        if !ok {
          GroundlessBelow(items, i, e, a);
          return;
        }
        SummedOn(f1, items, rank, memo1, memo, ants, a, sum, ants[a]);
        SummedNext(items, memo, ants, a, sum);
        sum := sum + w;
      }
    }
  }
}
