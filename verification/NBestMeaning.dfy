/** What the lists of lazy n-best search mean: every listed entry is a
    different derivation at its exact cost, and every derivation that is not
    listed costs at least as much as everything listed. */
module NBestMeaning {
  import opened Forests
  import opened NBestLists

  /** A forest with a witness that it has no cycle, a closed part of it whose
      best costs are known, and the lists computed so far. */
  datatype Search = Search(f: Forest, rank: seq<nat>, s: set<nat>, infos: Infos)

  /** Every list started so far is sound. */
  predicate Sound(x: Search) {
    && Acyclic(x.f, x.rank) && Weighted(x.f, x.s) && x.infos.Keys <= x.s
    && forall j :: j in x.infos ==> Local(x.f, x.infos, j)
  }

  type SoundSearch = x: Search | Sound(x) witness Search([], [], {}, map[])

  predicate Has(x: Search, j: nat, p: nat) {
    Listed(x.infos, j, p)
  }

  function At(x: Search, j: nat, p: nat): Entry
    requires Has(x, j, p)
  {
    x.infos[j].nbest[p]
  }

  /** The item whose list the entry's `a`th rank points into. */
  function SubItem(x: Search, j: nat, c: Entry, a: nat): nat {
    if a < |Ants(x.f, j, c.ded)| then Ants(x.f, j, c.ded)[a] else 0
  }

  predicate Below(x: Search, b: nat, j: nat) {
    b < |x.rank| && j < |x.rank| && x.rank[b] < x.rank[j]
  }

  lemma ListedIsLocal(x: SoundSearch, j: nat, p: nat)
    requires Has(x, j, p)
    ensures j < |x.f| == |x.rank| && EntryOk(x.f, x.infos, j, At(x, j, p))
    ensures Ordered(x.infos[j], x.f[j].viterbi) && IndexOk(x.infos[j])
    ensures forall a :: 0 <= a < |At(x, j, p).ranks| ==> Stepped(x.f, x.infos, j, At(x, j, p), a)
  {
    assert Local(x.f, x.infos, j);
    hide EntryOk, Stepped, IndexOk, Ordered, Seeded, Weighted;
  }

  /** What a listed entry looks like, without its neighbours. */
  lemma ListedShape(x: SoundSearch, j: nat, p: nat)
    requires Has(x, j, p)
    ensures j < |x.f| && EntryOk(x.f, x.infos, j, At(x, j, p))
    ensures |At(x, j, p).ranks| == |Ants(x.f, j, At(x, j, p).ded)|
    ensures PosCost(x.f, x.infos, j, p) == At(x, j, p).cost
  {
    hide Sound;
    ListedIsLocal(x, j, p);
    hide IndexOk, Stepped;
  }

  lemma ListedKeysDiffer(x: SoundSearch, j: nat, p: nat, q: nat)
    requires Has(x, j, p) && Has(x, j, q) && p != q
    ensures KeyOf(At(x, j, p)) != KeyOf(At(x, j, q))
  {
    hide Sound;
    ListedIsLocal(x, j, p);
    hide Ordered, Stepped, EntryOk;
  }

  lemma ListedIsStepped(x: SoundSearch, j: nat, p: nat, a: nat)
    requires Has(x, j, p) && a < |At(x, j, p).ranks|
    ensures Stepped(x.f, x.infos, j, At(x, j, p), a)
  {
    hide Sound, Stepped;
    ListedIsLocal(x, j, p);
  }

  lemma AntecedentIsBelow(x: SoundSearch, j: nat, c: Entry, a: nat)
    requires j < |x.f| && a < |Ants(x.f, j, c.ded)|
    ensures Below(x, SubItem(x, j, c, a), j)
  {
    assert Descends(x.f, x.rank, j);
  }

  /** A listed entry's ranks point at listed entries of lower items. */
  lemma SubIsListed(x: SoundSearch, j: nat, p: nat, a: nat)
    requires Has(x, j, p) && a < |At(x, j, p).ranks|
    ensures Below(x, SubItem(x, j, At(x, j, p), a), j)
    ensures Has(x, SubItem(x, j, At(x, j, p), a), At(x, j, p).ranks[a])
  {
    hide Sound;
    ListedIsStepped(x, j, p, a);
    ListedShape(x, j, p);
    AntecedentIsBelow(x, j, At(x, j, p), a);
  }

  /** The derivation a listed entry stands for. */
  ghost function ToDeriv(x: SoundSearch, j: nat, p: nat): Deriv
    requires Has(x, j, p)
    decreases if j < |x.rank| then x.rank[j] else 0
  {
    Deriv(At(x, j, p).ded, seq(|At(x, j, p).ranks|, a requires 0 <= a < |At(x, j, p).ranks| =>
      SubIsListed(x, j, p, a);
      ToDeriv(x, SubItem(x, j, At(x, j, p), a), At(x, j, p).ranks[a])))
  }

  lemma {:induction false} ListedIsDeriv(x: SoundSearch, j: nat, p: nat)
    requires Has(x, j, p)
    ensures IsDeriv(x.f, j, ToDeriv(x, j, p))
    decreases if j < |x.rank| then x.rank[j] else 0
  {
    hide Sound;
    ListedShape(x, j, p);
    forall a | 0 <= a < |At(x, j, p).ranks|
      ensures IsDeriv(x.f, SubItem(x, j, At(x, j, p), a), ToDeriv(x, j, p).subs[a])
    {
      SubIsListed(x, j, p, a);
      ListedIsDeriv(x, SubItem(x, j, At(x, j, p), a), At(x, j, p).ranks[a]);
    }
  }

  // ----- exact costs

  lemma {:induction false} ListedCost(x: SoundSearch, j: nat, p: nat)
    requires Has(x, j, p)
    ensures IsDeriv(x.f, j, ToDeriv(x, j, p)) && Cost(x.f, j, ToDeriv(x, j, p)) == At(x, j, p).cost
    decreases if j < |x.rank| then x.rank[j] else 0
  {
    hide Sound, PosCost;
    ListedIsDeriv(x, j, p);
    ListedShape(x, j, p);
    var c, d := At(x, j, p), ToDeriv(x, j, p);
    forall a | 0 <= a < |c.ranks|
      ensures CostAgrees(x.f, x.infos, j, d, c.ranks, a)
    {
      var b := SubItem(x, j, c, a);
      SubIsListed(x, j, p, a);
      ListedShape(x, b, c.ranks[a]);
      ListedCost(x, b, c.ranks[a]);
      hide EntryOk;
      assert d.subs[a] == ToDeriv(x, b, c.ranks[a]);
    }
    hide ToDeriv;
    CostsAre(x.f, x.infos, j, d, c.ranks, |c.ranks|);
  }

  /** The `a`th part of a derivation costs what the `a`th rank says. */
  predicate CostAgrees(f: Forest, infos: Infos, j: nat, d: Deriv, ranks: seq<nat>, a: nat)
    requires IsDeriv(f, j, d)
  {
    a < |d.subs| && a < |ranks|
    && Cost(f, f[j].deds[d.ded].ants[a], d.subs[a]) == PosCost(f, infos, f[j].deds[d.ded].ants[a], ranks[a])
  }

  lemma {:induction false} CostsAre(f: Forest, infos: Infos, j: nat, d: Deriv, ranks: seq<nat>, k: nat)
    requires IsDeriv(f, j, d) && k <= |d.subs| == |ranks|
    requires forall a :: 0 <= a < |d.subs| ==> CostAgrees(f, infos, j, d, ranks, a)
    ensures CostUpTo(f, j, d, k) == f[j].deds[d.ded].dcost + RankSum(f, infos, f[j].deds[d.ded].ants, ranks, k)
  {
    if k > 0 {
      CostsAre(f, infos, j, d, ranks, k - 1);
      assert CostAgrees(f, infos, j, d, ranks, k - 1);
    }
  }

  // ----- no derivation twice

  lemma {:induction false} ListedDistinct(x: SoundSearch, j: nat, p: nat, q: nat)
    requires Has(x, j, p) && Has(x, j, q) && p != q
    ensures ToDeriv(x, j, p) != ToDeriv(x, j, q)
    decreases if j < |x.rank| then x.rank[j] else 0
  {
    hide Sound, EntryOk, Has;
    var c, c' := At(x, j, p), At(x, j, q);
    ListedKeysDiffer(x, j, p, q);
    if c.ded == c'.ded {
      ListedShape(x, j, p);
      ListedShape(x, j, q);
      assert |c.ranks| == |c'.ranks| && c.ranks != c'.ranks;
      var a :| 0 <= a < |c.ranks| && c.ranks[a] != c'.ranks[a];
      SubIsListed(x, j, p, a);
      SubIsListed(x, j, q, a);
      ListedDistinct(x, SubItem(x, j, c, a), c.ranks[a], c'.ranks[a]);
      assert ToDeriv(x, j, p).subs[a] == ToDeriv(x, SubItem(x, j, c, a), c.ranks[a]);
      assert ToDeriv(x, j, q).subs[a] == ToDeriv(x, SubItem(x, j, c, a), c'.ranks[a]);
    }
  }

  // ----- nothing cheaper is missing

  ghost predicate Lists(x: SoundSearch, j: nat, d: Deriv) {
    exists p :: Has(x, j, p) && ToDeriv(x, j, p) == d
  }

  /** None of the first `r` entries is the derivation. */
  ghost predicate Beyond(x: SoundSearch, j: nat, d: Deriv, r: nat) {
    forall p :: 0 <= p < r ==> Has(x, j, p) && ToDeriv(x, j, p) != d
  }

  /** The derivation is missing: everything listed costs no more than it, and if
      search has begun, neither does some candidate that it can go on with. */
  ghost predicate Behind(x: SoundSearch, j: nat, d: Deriv)
    requires IsDeriv(x.f, j, d)
  {
    && !Lists(x, j, d)
    && (j in x.infos ==> exists c :: c in x.infos[j].cands && c.cost <= Cost(x.f, j, d))
    && (forall p :: Has(x, j, p) ==> At(x, j, p).cost <= Cost(x.f, j, d))
  }

  lemma ListedLater(x: SoundSearch, j: nat, d: Deriv, r: nat, p: nat)
    requires Beyond(x, j, d, r) && Has(x, j, r) && Has(x, j, p) && ToDeriv(x, j, p) == d
    ensures At(x, j, r).cost <= At(x, j, p).cost
  {
    hide Sound;
    ListedIsLocal(x, j, r);
    hide Stepped, EntryOk, IndexOk, ToDeriv;
  }

  /** A place the derivation does not come before costs no more than it. */
  lemma BeyondIsCheaper(x: SoundSearch, j: nat, d: Deriv, r: nat)
    requires j in x.s && IsDeriv(x.f, j, d) && Beyond(x, j, d, r) && (Lists(x, j, d) || Behind(x, j, d))
    requires r == 0 || Has(x, j, r)
    ensures PosCost(x.f, x.infos, j, r) <= Cost(x.f, j, d)
  {
    if r == 0 {
      ViterbiIsLeast(x.f, x.s, j, d);
    } else {
      hide Sound, Cost, Beyond, PosCost;
      ListedShape(x, j, r);
      hide EntryOk;
      if Lists(x, j, d) {
        var p :| Has(x, j, p) && ToDeriv(x, j, p) == d;
        ListedCost(x, j, p);
        ListedLater(x, j, d, r, p);
      }
    }
  }

  // ----- walking from the first candidate towards a derivation

  /** The derivation is listed, or everything listed comes before it. */
  ghost predicate Placed(x: SoundSearch, j: nat, d: Deriv) {
    j in x.s && IsDeriv(x.f, j, d) && (Lists(x, j, d) || Behind(x, j, d))
  }

  ghost predicate PartsPlaced(x: SoundSearch, j: nat, d: Deriv)
    requires IsDeriv(x.f, j, d)
  {
    forall a :: 0 <= a < |d.subs| ==> Placed(x, x.f[j].deds[d.ded].ants[a], d.subs[a])
  }

  /** The `a`th rank is exactly where the derivation's `a`th part is listed. */
  ghost predicate Met(x: SoundSearch, j: nat, d: Deriv, r: seq<nat>, a: nat)
    requires IsDeriv(x.f, j, d)
  {
    && a < |r| && a < |d.subs| && Has(x, x.f[j].deds[d.ded].ants[a], r[a])
    && ToDeriv(x, x.f[j].deds[d.ded].ants[a], r[a]) == d.subs[a]
  }

  /** The `a`th rank has not passed the derivation's `a`th part. */
  ghost predicate NotPassed(x: SoundSearch, j: nat, d: Deriv, r: seq<nat>, a: nat)
    requires IsDeriv(x.f, j, d)
  {
    a < |r| && a < |d.subs| && Beyond(x, x.f[j].deds[d.ded].ants[a], d.subs[a], r[a])
  }

  /** The ranks have met the derivation's first `a` parts and passed none. */
  ghost predicate OnTheWay(x: SoundSearch, j: nat, d: Deriv, r: seq<nat>, a: nat)
    requires IsDeriv(x.f, j, d)
  {
    && |r| == |d.subs|
    && (forall b :: 0 <= b < a && b < |r| ==> Met(x, j, d, r, b))
    && (forall b :: a <= b < |r| ==> NotPassed(x, j, d, r, b))
  }

  lemma {:induction false} RanksAreCheaper(x: SoundSearch, j: nat, d: Deriv, r: seq<nat>, a: nat, k: nat)
    requires IsDeriv(x.f, j, d) && PartsPlaced(x, j, d) && OnTheWay(x, j, d, r, a) && k <= |r|
    requires forall b :: 0 <= b < |r| ==> r[b] == 0 || Has(x, x.f[j].deds[d.ded].ants[b], r[b])
    ensures x.f[j].deds[d.ded].dcost + RankSum(x.f, x.infos, x.f[j].deds[d.ded].ants, r, k) <= CostUpTo(x.f, j, d, k)
  {
    if k > 0 {
      RanksAreCheaper(x, j, d, r, a, k - 1);
      var b := x.f[j].deds[d.ded].ants[k - 1];
      hide Sound, PosCost, ToDeriv, Behind, Lists;
      assert Placed(x, b, d.subs[k - 1]);
      if k - 1 < a {
        assert Met(x, j, d, r, k - 1);
        ListedShape(x, b, r[k - 1]);
        ListedCost(x, b, r[k - 1]);
      } else {
        assert NotPassed(x, j, d, r, k - 1);
        BeyondIsCheaper(x, b, d.subs[k - 1], r[k - 1]);
      }
    }
  }

  /** A candidate on the way costs no more than the derivation. */
  lemma CandidateIsCheaper(x: SoundSearch, j: nat, d: Deriv, r: seq<nat>, a: nat, c: Entry)
    requires IsDeriv(x.f, j, d) && PartsPlaced(x, j, d) && OnTheWay(x, j, d, r, a)
    requires j in x.infos && c in x.infos[j].cands && KeyOf(c) == (d.ded, r)
    ensures c.cost <= Cost(x.f, j, d)
  {
    assert EntryOk(x.f, x.infos, j, c) by { assert Local(x.f, x.infos, j); hide EntryOk; }
    RanksAreCheaper(x, j, d, r, a, |r|);
  }

  /** An entry whose ranks have met every part is the derivation itself. */
  lemma MetIsListed(x: SoundSearch, j: nat, d: Deriv, r: seq<nat>, k: nat)
    requires IsDeriv(x.f, j, d) && OnTheWay(x, j, d, r, |d.subs|)
    requires Has(x, j, k) && KeyOf(At(x, j, k)) == (d.ded, r)
    ensures Lists(x, j, d)
  {
    hide Sound, Has;
    var t := ToDeriv(x, j, k);
    assert t.ded == d.ded && |t.subs| == |d.subs|;
    forall a | 0 <= a < |d.subs| ensures t.subs[a] == d.subs[a] {
      SubIsListed(x, j, k, a);
      var b := SubItem(x, j, At(x, j, k), a);
      assert t.subs[a] == ToDeriv(x, b, At(x, j, k).ranks[a]);
      hide ToDeriv;
      assert Met(x, j, d, r, a);
    }
    hide ToDeriv;
    assert t.subs == d.subs;
    assert t == d;
  }

  /** How far an item's list goes past a place. */
  function Room(x: Search, b: nat, r: nat): nat {
    if b in x.infos && r < |x.infos[b].nbest| then |x.infos[b].nbest| - r else 0
  }

  function Part(x: Search, j: nat, d: Deriv, a: nat): nat {
    if j < |x.f| && d.ded < |x.f[j].deds| && a < |x.f[j].deds[d.ded].ants| then x.f[j].deds[d.ded].ants[a] else 0
  }

  lemma ListedIsEntered(x: SoundSearch, j: nat, key: Key)
    requires j in x.infos && key in x.infos[j].index
    ensures Entered(x.infos[j], key)
  {
    assert Local(x.f, x.infos, j);
  }

  /** Where the list of a part ends, a part not met so far is nowhere. */
  lemma NotAtTheEnd(x: SoundSearch, b: nat, d: Deriv, r: nat)
    requires Placed(x, b, d) && Beyond(x, b, d, r + 1) && Exhausted(x.infos, b)
    ensures r + 1 < |x.infos[b].nbest|
  {
    hide Sound, ToDeriv;
  }

  lemma {:induction false} FindCandidate(x: SoundSearch, j: nat, d: Deriv, r: seq<nat>, a: nat) returns (c: Entry)
    requires j in x.infos && IsDeriv(x.f, j, d) && !Lists(x, j, d) && PartsPlaced(x, j, d)
    requires a <= |d.subs| && OnTheWay(x, j, d, r, a) && (d.ded, r) in x.infos[j].index
    ensures c in x.infos[j].cands && c.cost <= Cost(x.f, j, d)
    decreases |d.subs| - a, if a < |r| then Room(x, Part(x, j, d, a), r[a]) else 0
  {
    hide Sound, Cost, EntryOk, Behind;
    ListedIsEntered(x, j, (d.ded, r));
    if e :| e in x.infos[j].cands && KeyOf(e) == (d.ded, r) {
      c := e;
      CandidateIsCheaper(x, j, d, r, a, c);
    } else {
      var k: nat :| 0 <= k < |x.infos[j].nbest| && KeyOf(x.infos[j].nbest[k]) == (d.ded, r);
      c := FromListed(x, j, d, r, a, k);
    }
  }

  lemma {:induction false} FromListed(x: SoundSearch, j: nat, d: Deriv, r: seq<nat>, a: nat, k: nat) returns (c: Entry)
    requires j in x.infos && IsDeriv(x.f, j, d) && !Lists(x, j, d) && PartsPlaced(x, j, d)
    requires a <= |d.subs| && OnTheWay(x, j, d, r, a)
    requires Has(x, j, k) && KeyOf(At(x, j, k)) == (d.ded, r)
    ensures c in x.infos[j].cands && c.cost <= Cost(x.f, j, d)
    decreases |d.subs| - a, (if a < |r| then Room(x, Part(x, j, d, a), r[a]) else 0), 0
  {
    hide Sound, Cost, EntryOk, Behind, ToDeriv, Lists;
    if a == |d.subs| {
      MetIsListed(x, j, d, r, k);
      assert false;
    } else {
      var b := Part(x, j, d, a);
      SubIsListed(x, j, k, a);
      ListedIsStepped(x, j, k, a);
      assert NotPassed(x, j, d, r, a);
      if ToDeriv(x, b, r[a]) == d.subs[a] {
        assert Met(x, j, d, r, a);
        assert OnTheWay(x, j, d, r, a + 1);
        ListedStaysEntered(x, j, k);
        c := FindCandidate(x, j, d, r, a + 1);
      } else {
        var r' := r[a := r[a] + 1];
        assert Beyond(x, b, d.subs[a], r[a] + 1);
        if Exhausted(x.infos, b) { NotAtTheEnd(x, b, d.subs[a], r[a]); }
        RaisedOnTheWay(x, j, d, r, a);
        c := FindCandidate(x, j, d, r', a);
      }
    }
  }

  lemma ListedStaysEntered(x: SoundSearch, j: nat, k: nat)
    requires Has(x, j, k)
    ensures KeyOf(At(x, j, k)) in x.infos[j].index
  {
    ListedIsLocal(x, j, k);
  }

  lemma RaisedOnTheWay(x: SoundSearch, j: nat, d: Deriv, r: seq<nat>, a: nat)
    requires IsDeriv(x.f, j, d) && OnTheWay(x, j, d, r, a) && a < |r|
    requires Beyond(x, x.f[j].deds[d.ded].ants[a], d.subs[a], r[a] + 1)
    ensures OnTheWay(x, j, d, r[a := r[a] + 1], a)
  {
    hide Sound, ToDeriv, Beyond;
    var r' := r[a := r[a] + 1];
    forall b | 0 <= b < a ensures Met(x, j, d, r', b) { assert Met(x, j, d, r, b); }
    forall b | a <= b < |r'| ensures NotPassed(x, j, d, r', b) {
      if b != a { assert NotPassed(x, j, d, r, b); }
    }
  }

  lemma StartedIsSeeded(x: SoundSearch, j: nat)
    requires j in x.infos
    ensures j < |x.f| && Seeded(x.f, j, x.infos[j])
  {
    assert Local(x.f, x.infos, j);
    hide EntriesOk, IndexOk, Ordered, SteppedTo, Acyclic, Weighted, Seeded;
  }

  lemma ZerosAreOnTheWay(x: SoundSearch, j: nat, d: Deriv)
    requires j in x.infos && IsDeriv(x.f, j, d)
    ensures OnTheWay(x, j, d, Zeros(|d.subs|), 0) && (d.ded, Zeros(|d.subs|)) in x.infos[j].index
  {
    hide Sound, ToDeriv;
    StartedIsSeeded(x, j);
    forall b | 0 <= b < |d.subs| ensures NotPassed(x, j, d, Zeros(|d.subs|), b) {}
  }

  lemma ListedBeforeCandidates(x: SoundSearch, j: nat, p: nat, c: Entry)
    requires Has(x, j, p) && c in x.infos[j].cands
    ensures At(x, j, p).cost <= c.cost
  {
    hide Sound;
    ListedIsLocal(x, j, p);
    hide EntryOk, Stepped, IndexOk;
  }

  lemma PartInClosed(x: SoundSearch, j: nat, d: Deriv, a: nat)
    requires j in x.s && IsDeriv(x.f, j, d) && a < |d.subs|
    ensures x.f[j].deds[d.ded].ants[a] in x.s
  {
  }

  /** Every derivation is listed, or it costs no less than some candidate and
      than everything listed. */
  lemma {:induction false} UnlistedCostsMore(x: SoundSearch, j: nat, d: Deriv)
    requires j in x.s && IsDeriv(x.f, j, d)
    ensures Lists(x, j, d) || Behind(x, j, d)
    decreases d
  {
    hide Sound, OnTheWay, Lists, ToDeriv, Cost;
    if j in x.infos && !Lists(x, j, d) {
      forall a | 0 <= a < |d.subs| ensures Placed(x, x.f[j].deds[d.ded].ants[a], d.subs[a]) {
        PartInClosed(x, j, d, a);
        UnlistedCostsMore(x, x.f[j].deds[d.ded].ants[a], d.subs[a]);
        hide Behind;
      }
      hide Placed;
      assert PartsPlaced(x, j, d);
      ZerosAreOnTheWay(x, j, d);
      var c := FindCandidate(x, j, d, Zeros(|d.subs|), 0);
      forall p | Has(x, j, p) ensures At(x, j, p).cost <= Cost(x.f, j, d) {
        ListedBeforeCandidates(x, j, p, c);
      }
    }
  }

  /** The entry at place `p` is a cheapest derivation among those not listed
      before it. */
  lemma NextBest(x: SoundSearch, j: nat, p: nat, d: Deriv)
    requires Has(x, j, p) && j in x.s && IsDeriv(x.f, j, d) && Beyond(x, j, d, p)
    ensures IsDeriv(x.f, j, ToDeriv(x, j, p)) && Cost(x.f, j, ToDeriv(x, j, p)) <= Cost(x.f, j, d)
  {
    hide Sound, ToDeriv, Cost;
    UnlistedCostsMore(x, j, d);
    ListedCost(x, j, p);
    if Lists(x, j, d) {
      var q :| Has(x, j, q) && ToDeriv(x, j, q) == d;
      ListedCost(x, j, q);
      ListedLater(x, j, d, p, q);
    }
  }

  /** An empty pool means the list has every derivation. */
  lemma ExhaustedListsAll(x: SoundSearch, j: nat, d: Deriv)
    requires j in x.infos && x.infos[j].cands == {} && j in x.s && IsDeriv(x.f, j, d)
    ensures Lists(x, j, d)
  {
    hide Sound, ToDeriv, Cost;
    UnlistedCostsMore(x, j, d);
  }
}
