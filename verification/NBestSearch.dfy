/** The lazy n-best search itself. */
module NBestSearch {
  import opened Wrappers
  import opened Forests
  import opened NBestLists
  import opened NBestMeaning

  /** Every started item of rank below `r` is sound. */
  predicate LocalBelow(f: Forest, rank: seq<nat>, infos: Infos, r: nat) {
    forall j :: j in infos && j < |rank| && rank[j] < r ==> Local(f, infos, j)
  }

  /** Nothing of the item's rank or higher has changed but the item. */
  predicate Spared(rank: seq<nat>, infos: Infos, infos': Infos, i: nat)
    requires i < |rank|
  {
    forall j :: 0 <= j < |rank| && j != i && rank[i] <= rank[j] ==>
      (j in infos <==> j in infos') && (j in infos ==> infos'[j] == infos[j])
  }

  /** A search on a closed part of an acyclic forest with known best costs. */
  predicate Grounded(f: Forest, rank: seq<nat>, s: set<nat>, infos: Infos) {
    Acyclic(f, rank) && Weighted(f, s) && infos.Keys <= s
  }

  /** An item may be searched: everything below it is sound, and so is it. */
  predicate MayCompute(f: Forest, rank: seq<nat>, s: set<nat>, infos: Infos, i: nat) {
    && Grounded(f, rank, s, infos) && i in s && i < |rank|
    && LocalBelow(f, rank, infos, rank[i]) && (i in infos ==> Local(f, infos, i))
  }

  /** What one call of the search does to the lists. */
  predicate Computed(f: Forest, rank: seq<nat>, s: set<nat>, infos: Infos, infos': Infos, i: nat) {
    && Grounded(f, rank, s, infos') && i in s && i < |rank|
    && LocalBelow(f, rank, infos', rank[i]) && Local(f, infos', i)
    && Grows(infos, infos') && Spared(rank, infos, infos', i)
  }

  lemma GrowsReachesUnder(f: Forest, infos: Infos, infos': Infos, i: nat)
    requires Grows(infos, infos')
    ensures GrowsUnder(f, infos, infos', i)
  {
    forall e, a | 0 <= a < |Ants(f, i, e)| ensures GrowsAt(infos, infos', Ants(f, i, e)[a]) {}
  }

  /** A call on a lower item keeps the started items below `r` sound. */
  lemma CallKeeps(f: Forest, rank: seq<nat>, s: set<nat>, infos: Infos, infos': Infos, b: nat, r: nat)
    requires Grounded(f, rank, s, infos) && LocalBelow(f, rank, infos, r) && Computed(f, rank, s, infos, infos', b)
    requires |rank| == |f| && b < |f| && rank[b] < r
    ensures LocalBelow(f, rank, infos', r)
  {
    hide Local, Grows, Grounded;
    forall j | j in infos' && j < |rank| && rank[j] < r ensures Local(f, infos', j) {
      if j != b && rank[b] <= rank[j] {
        GrowsReachesUnder(f, infos, infos', j);
        LocalGrows(f, infos, infos', j);
      }
    }
  }

  /** Work on one item does not touch what is sound below it. */
  lemma OwnWorkKeeps(f: Forest, rank: seq<nat>, infos: Infos, i: nat, nb: NBInfo)
    requires Acyclic(f, rank) && i < |f| && LocalBelow(f, rank, infos, rank[i])
    ensures LocalBelow(f, rank, infos[i := nb], rank[i])
  {
    var infos' := infos[i := nb];
    forall j | j in infos' && j < |rank| && rank[j] < rank[i] ensures Local(f, infos', j) {
      assert Descends(f, rank, j);
      hide Acyclic, Local;
      forall e, a | 0 <= a < |Ants(f, j, e)| ensures GrowsAt(infos, infos', Ants(f, j, e)[a]) {}
      LocalGrows(f, infos, infos', j);
    }
  }

  lemma GrowsOn(a: Infos, b: Infos, c: Infos)
    requires Grows(a, b) && Grows(b, c)
    ensures Grows(a, c)
  {
    forall j | j in a ensures GrowsAt(a, c, j) {
      assert GrowsAt(a, b, j) && GrowsAt(b, c, j);
    }
  }

  /** A nonempty pool has a cheapest candidate. */
  lemma {:induction false} CheapestExists(cands: set<Entry>) returns (c: Entry)
    requires cands != {}
    ensures c in cands && forall c' :: c' in cands ==> c.cost <= c'.cost
    decreases |cands|
  {
    var d :| d in cands;
    var rest := cands - {d};
    if rest == {} {
      c := d;
      assert cands == {d};
    } else {
      var e := CheapestExists(rest);
      c := if d.cost <= e.cost then d else e;
      forall c' | c' in cands ensures c.cost <= c'.cost {
        if c' != d { assert c' in rest; }
      }
    }
  }

  /** The work on one item is under way: its last listed entry has been
      raised in its first `a` antecedents. */
  predicate Raising(f: Forest, rank: seq<nat>, s: set<nat>, infos: Infos, i: nat, a: nat) {
    && Grounded(f, rank, s, infos) && i in s && i < |rank| && LocalBelow(f, rank, infos, rank[i])
    && Partial(f, infos, i, a) && infos[i].nbest != []
  }

  lemma InClosed(f: Forest, rank: seq<nat>, s: set<nat>, infos: Infos, i: nat)
    requires Grounded(f, rank, s, infos) && i in s
    ensures i < |f| == |rank| && ViterbiAt(f, i)
    ensures forall e, a :: 0 <= a < |Ants(f, i, e)| ==> Ants(f, i, e)[a] in s && Ants(f, i, e)[a] < |f| && rank[Ants(f, i, e)[a]] < rank[i]
  {
    forall e, a | 0 <= a < |Ants(f, i, e)|
      ensures Ants(f, i, e)[a] in s && Ants(f, i, e)[a] < |f| && rank[Ants(f, i, e)[a]] < rank[i]
    {
      assert Descends(f, rank, i);
    }
  }

  lemma UpdateGrounded(f: Forest, rank: seq<nat>, s: set<nat>, infos: Infos, i: nat, nb: NBInfo)
    requires Grounded(f, rank, s, infos) && i in s
    ensures Grounded(f, rank, s, infos[i := nb])
  {
    hide Acyclic, Weighted;
  }

  lemma StartOk(f: Forest, rank: seq<nat>, s: set<nat>, infos: Infos, i: nat)
    requires MayCompute(f, rank, s, infos, i) && i !in infos
    ensures i < |f| && Computed(f, rank, s, infos, infos[i := Seed(f, i)], i)
  {
    hide Local, Partial, Acyclic, Weighted, LocalBelow, ViterbiAt;
    InClosed(f, rank, s, infos, i);
    var nb := Seed(f, i);
    hide Seed;
    SeedIsSound(f, infos[i := nb], i);
    OwnWorkKeeps(f, rank, infos, i, nb);
    UpdateGrounded(f, rank, s, infos, i, nb);
    hide Grounded;
  }

  lemma PopOk(f: Forest, rank: seq<nat>, s: set<nat>, infos: Infos, i: nat, c: Entry)
    requires MayCompute(f, rank, s, infos, i) && i in infos && Cheapest(infos[i], c)
    ensures i < |rank| && Raising(f, rank, s, infos[i := Popped(infos[i], c)], i, 0)
    ensures Grows(infos, infos[i := Popped(infos[i], c)]) && Spared(rank, infos, infos[i := Popped(infos[i], c)], i)
  {
    hide Local, Partial, Acyclic, Weighted, LocalBelow, ViterbiAt, Grows, Cheapest;
    InClosed(f, rank, s, infos, i);
    var nb := Popped(infos[i], c);
    PopKeeps(f, infos, infos[i := nb], i, c);
    OwnWorkKeeps(f, rank, infos, i, nb);
    UpdateGrounded(f, rank, s, infos, i, nb);
    hide Grounded;
  }

  /** Between two points of the work on one item its list stands still, what
      is above it is spared, and everything else only grows. */
  predicate Around(rank: seq<nat>, infos: Infos, infos': Infos, i: nat) {
    && i < |rank| && i in infos && i in infos' && infos'[i].nbest == infos[i].nbest
    && Spared(rank, infos, infos', i)
    && (forall j :: j in infos && j != i ==> GrowsAt(infos, infos', j))
  }

  lemma AroundOn(rank: seq<nat>, a: Infos, b: Infos, c: Infos, i: nat)
    requires Around(rank, a, b, i) && Around(rank, b, c, i)
    ensures Around(rank, a, c, i)
  {
    forall j | j in a && j != i ensures GrowsAt(a, c, j) {
      assert GrowsAt(a, b, j) && GrowsAt(b, c, j);
    }
  }

  /** A call on an antecedent while the item's last entry is being raised. */
  lemma CallOk(f: Forest, rank: seq<nat>, s: set<nat>, infos: Infos, infos': Infos, i: nat, a: nat, b: nat)
    requires Raising(f, rank, s, infos, i, a) && b < |rank| && rank[b] < rank[i]
    requires Computed(f, rank, s, infos, infos', b)
    ensures Raising(f, rank, s, infos', i, a) && infos'[i] == infos[i] && Around(rank, infos, infos', i)
  {
    hide Local, Partial, Acyclic, Weighted, LocalBelow, Grows, GrowsAt;
    InClosed(f, rank, s, infos, i);
    CallKeeps(f, rank, s, infos, infos', b, rank[i]);
    GrowsReachesUnder(f, infos, infos', i);
    assert i in infos by { ListedItself(f, infos, i, a); }
    PartialGrows(f, infos, infos', i, a);
    GrowsElsewhere(infos, infos');
  }

  lemma GrowsElsewhere(infos: Infos, infos': Infos)
    requires Grows(infos, infos')
    ensures forall j :: j in infos ==> GrowsAt(infos, infos', j)
  {
  }

  lemma ListedItself(f: Forest, infos: Infos, i: nat, a: nat)
    requires Partial(f, infos, i, a)
    ensures i in infos && i < |f|
  {
    hide EntriesOk, IndexOk, Ordered, Seeded, SteppedTo;
  }

  /** The test and push for one antecedent. */
  lemma EnterOk(f: Forest, rank: seq<nat>, s: set<nat>, infos: Infos, i: nat, a: nat, c: Entry, b: nat)
    requires Raising(f, rank, s, infos, i, a) && i in infos && c == infos[i].nbest[|infos[i].nbest| - 1]
    requires a < |c.ranks| && a < |Ants(f, i, c.ded)| && b == Ants(f, i, c.ded)[a] && b in s
    requires Local(f, infos, b) && (c.ranks[a] + 2 <= |infos[b].nbest| || infos[b].cands == {})
    ensures Raising(f, rank, s, AfterStep(f, infos, i, c, a), i, a + 1)
    ensures Around(rank, infos, AfterStep(f, infos, i, c, a), i)
  {
    hide Local, Partial, Acyclic, Weighted, LocalBelow, ViterbiAt;
    InClosed(f, rank, s, infos, b);
    InClosed(f, rank, s, infos, i);
    StepKeeps(f, rank, infos, i, a, c, b);
    if MayEnter(f, infos, i, c, a) {
      var nb := Entering(infos[i], Raised(f, infos, i, c, a));
      OwnWorkKeeps(f, rank, infos, i, nb);
      UpdateGrounded(f, rank, s, infos, i, nb);
    }
    hide Grounded;
  }

  /** One whole round: an entry taken and all its successors entered. */
  lemma RoundOk(f: Forest, rank: seq<nat>, s: set<nat>, infos: Infos, infos': Infos, i: nat, c: Entry)
    requires i in infos && c in infos[i].cands && Grows(infos, infos[i := Popped(infos[i], c)])
    requires i < |rank| && Spared(rank, infos, infos[i := Popped(infos[i], c)], i)
    requires Around(rank, infos[i := Popped(infos[i], c)], infos', i) && Raising(f, rank, s, infos', i, |c.ranks|)
    ensures Computed(f, rank, s, infos, infos', i)
    ensures infos'[i].nbest == infos[i].nbest + [c]
  {
    hide Partial, Grounded, LocalBelow;
    var mid := infos[i := Popped(infos[i], c)];
    assert infos'[i].nbest[|infos'[i].nbest| - 1] == c;
    forall j | j in infos ensures GrowsAt(infos, infos', j) {
      assert GrowsAt(infos, mid, j);
      if j != i { assert GrowsAt(mid, infos', j); }
    }
  }

  lemma ComputedOn(f: Forest, rank: seq<nat>, s: set<nat>, a: Infos, b: Infos, c: Infos, i: nat)
    requires Computed(f, rank, s, a, b, i) && Computed(f, rank, s, b, c, i)
    ensures Computed(f, rank, s, a, c, i)
  {
    hide Local, Grounded, LocalBelow, Grows;
    GrowsOn(a, b, c);
  }

  lemma NothingIsComputed(f: Forest, rank: seq<nat>, s: set<nat>, infos: Infos, i: nat)
    requires MayCompute(f, rank, s, infos, i) && i in infos
    ensures Computed(f, rank, s, infos, infos, i)
  {
    hide Local, Grounded, LocalBelow;
  }

  lemma RaisingShape(f: Forest, rank: seq<nat>, s: set<nat>, infos: Infos, i: nat, a: nat, c: Entry)
    requires Raising(f, rank, s, infos, i, a) && i in infos && c == infos[i].nbest[|infos[i].nbest| - 1]
    ensures i < |f| && c.ded < |f[i].deds| && |c.ranks| == |f[i].deds[c.ded].ants|
  {
    hide IndexOk, Ordered, Seeded, SteppedTo, Grounded, LocalBelow;
  }

  lemma AroundNothing(rank: seq<nat>, infos: Infos, i: nat)
    requires i < |rank| && i in infos
    ensures Around(rank, infos, infos, i)
  {
  }

  lemma AntOk(f: Forest, rank: seq<nat>, s: set<nat>, infos: Infos, i: nat, a: nat, c: Entry)
    requires Raising(f, rank, s, infos, i, a) && i < |f| && c.ded < |f[i].deds| && a < |f[i].deds[c.ded].ants|
    ensures var b := f[i].deds[c.ded].ants[a];
            b == Ants(f, i, c.ded)[a] && b in s && b < |rank| && i < |rank| && rank[b] < rank[i]
  {
    hide Partial, LocalBelow;
    InClosed(f, rank, s, infos, i);
    assert f[i].deds[c.ded].ants[a] == Ants(f, i, c.ded)[a];
    hide Grounded;
  }

  lemma AroundIs(rank: seq<nat>, infos: Infos, infos': Infos, i: nat)
    requires Around(rank, infos, infos', i)
    ensures i in infos && i in infos' && infos'[i].nbest == infos[i].nbest
  {
  }

  lemma ComputedIs(f: Forest, rank: seq<nat>, s: set<nat>, infos: Infos, infos': Infos, i: nat)
    requires Computed(f, rank, s, infos, infos', i)
    ensures Local(f, infos', i)
  {
    hide Local;
  }

  lemma MayCallBelow(f: Forest, rank: seq<nat>, s: set<nat>, infos: Infos, i: nat, a: nat, b: nat)
    requires Raising(f, rank, s, infos, i, a) && b in s && b < |rank| && rank[b] < rank[i]
    ensures MayCompute(f, rank, s, infos, b)
  {
    hide Local, Partial, Grounded;
  }

  lemma SoundMayCompute(x: Search, i: nat)
    requires Sound(x) && i in x.s
    ensures MayCompute(x.f, x.rank, x.s, x.infos, i)
  {
    hide Local;
  }

  lemma ComputedIsSound(x: Search, infos': Infos, i: nat)
    requires Sound(x) && Computed(x.f, x.rank, x.s, x.infos, infos', i)
    ensures Sound(x.(infos := infos'))
  {
    hide Local, Grows;
    forall j | j in infos' ensures Local(x.f, infos', j) {
      if j != i && x.rank[i] <= x.rank[j] {
        GrowsReachesUnder(x.f, x.infos, infos', j);
        LocalGrows(x.f, x.infos, infos', j);
      }
    }
  }

  class NBest {
    const forest: Forest
    const goal: nat
    ghost const rank: seq<nat>
    ghost const known: set<nat>
    var nbinfos: Infos

    ghost function View(): Search
      reads this
    {
      Search(forest, rank, known, nbinfos)
    }

    ghost predicate Valid()
      reads this
    {
      Sound(View()) && goal in known
    }

    constructor (forest: Forest, goal: nat, ghost rank: seq<nat>, ghost known: set<nat>)
      requires Acyclic(forest, rank) && Weighted(forest, known) && goal in known
      ensures Valid() && nbinfos == map[]
      ensures this.forest == forest && this.goal == goal && this.rank == rank && this.known == known
    {
      this.forest, this.goal, this.rank, this.known := forest, goal, rank, known;
      nbinfos := map[];
    }

    /** Lengthens the item's list to `n` entries, or until nothing is left. */
    method ComputeNBest(item: nat, n: nat) returns (len: nat)
      requires MayCompute(forest, rank, known, nbinfos, item)
      modifies this`nbinfos
      ensures Computed(forest, rank, known, old(nbinfos), nbinfos, item)
      ensures item in nbinfos && len == |nbinfos[item].nbest|
      ensures n <= len || nbinfos[item].cands == {}
      ensures len <= n || (item in old(nbinfos) && len == |old(nbinfos)[item].nbest|)
      decreases rank[item], 1
    {
      hide Local, LocalBelow, Grows, Spared, Grounded, Raising;
      ghost var start := nbinfos;
      InClosed(forest, rank, known, nbinfos, item);
      if item !in nbinfos {
        StartOk(forest, rank, known, nbinfos, item);
        nbinfos := nbinfos[item := Seed(forest, item)];
      } else {
        NothingIsComputed(forest, rank, known, nbinfos, item);
      }
      while |nbinfos[item].nbest| < n && nbinfos[item].cands != {}
        invariant item in nbinfos && Computed(forest, rank, known, start, nbinfos, item)
        invariant |nbinfos[item].nbest| <= n || (item in start && |nbinfos[item].nbest| == |start[item].nbest|)
        decreases n - |nbinfos[item].nbest|
      {
        ghost var before := nbinfos;
        ghost var least := CheapestExists(nbinfos[item].cands);
        var c :| c in nbinfos[item].cands && forall c' :: c' in nbinfos[item].cands ==> c.cost <= c'.cost;
        PopOk(forest, rank, known, nbinfos, item, c);
        nbinfos := nbinfos[item := Popped(nbinfos[item], c)];
        Replenish(item, c);
        RoundOk(forest, rank, known, before, nbinfos, item, c);
        ComputedOn(forest, rank, known, start, before, nbinfos, item);
      }
      len := |nbinfos[item].nbest|;
    }

    /** Enters the successors of the entry taken last. */
    method Replenish(item: nat, c: Entry)
      requires item < |rank| && Raising(forest, rank, known, nbinfos, item, 0)
      requires item in nbinfos && c == nbinfos[item].nbest[|nbinfos[item].nbest| - 1]
      modifies this`nbinfos
      ensures Raising(forest, rank, known, nbinfos, item, |c.ranks|)
      ensures Around(rank, old(nbinfos), nbinfos, item)
      decreases rank[item], 0
    {
      hide Local, LocalBelow, Grounded, Raising, Around, Computed, MayCompute;
      ghost var start := nbinfos;
      RaisingShape(forest, rank, known, nbinfos, item, 0, c);
      AroundNothing(rank, nbinfos, item);
      for a := 0 to |c.ranks|
        invariant Raising(forest, rank, known, nbinfos, item, a) && Around(rank, start, nbinfos, item)
      {
        ghost var before := nbinfos;
        var b := forest[item].deds[c.ded].ants[a];
        AntOk(forest, rank, known, nbinfos, item, a, c);
        MayCallBelow(forest, rank, known, nbinfos, item, a, b);
        var n := ComputeNBest(b, c.ranks[a] + 2);
        CallOk(forest, rank, known, before, nbinfos, item, a, b);
        AroundOn(rank, start, before, nbinfos, item);
        ghost var called := nbinfos;
        AroundIs(rank, start, called, item);
        ComputedIs(forest, rank, known, before, called, b);
        EnterOk(forest, rank, known, nbinfos, item, a, c, b);
        if c.ranks[a] + 2 <= n {
          Enter(item, c, a, b);
        }
        AroundOn(rank, start, called, nbinfos, item);
      }
    }

    /** Enters one successor unless it has been entered before. */
    method Enter(item: nat, c: Entry, a: nat, b: nat)
      requires item in nbinfos && a < |c.ranks| && a < |Ants(forest, item, c.ded)| && b == Ants(forest, item, c.ded)[a]
      requires Listed(nbinfos, b, c.ranks[a] + 1)
      modifies this`nbinfos
      ensures nbinfos == AfterStep(forest, old(nbinfos), item, c, a)
    {
      var nextranks := c.ranks[a := c.ranks[a] + 1];
      if (c.ded, nextranks) !in nbinfos[item].index {
        var nextcost := c.cost - nbinfos[b].nbest[c.ranks[a]].cost + nbinfos[b].nbest[c.ranks[a] + 1].cost;
        var nb := nbinfos[item];
        nbinfos := nbinfos[item := NBInfo(nb.nbest, nb.cands + {Entry(nextcost, c.ded, nextranks)},
                                          nb.index + {(c.ded, nextranks)})];
      }
    }

    /** The `i`th best derivation of the goal, from the first (0); nothing if
        there are not that many. */
    method GetItem(i: nat) returns (d: Option<Deriv>)
      requires Valid()
      modifies this`nbinfos
      ensures Valid() && Grows(old(nbinfos), nbinfos)
      ensures d.Some? <==> Has(View(), goal, i)
      ensures d.Some? ==> d.value == ToDeriv(View(), goal, i)
      ensures d.None? ==> forall e :: IsDeriv(forest, goal, e) ==> Lists(View(), goal, e)
    {
      hide Sound, ToDeriv, Local, LocalBelow, Grows, Spared, Grounded;
      ghost var before := View();
      SoundMayCompute(before, goal);
      var len := ComputeNBest(goal, i + 1);
      ComputedIsSound(before, nbinfos, goal);
      if i < len {
        var got := GetItemHelper(goal, i);
        d := Some(got);
      } else {
        d := None;
        forall e | IsDeriv(forest, goal, e) ensures Lists(View(), goal, e) {
          ExhaustedListsAll(View(), goal, e);
        }
      }
    }

    method GetItemHelper(item: nat, i: nat) returns (d: Deriv)
      requires Valid() && Has(View(), item, i)
      ensures d == ToDeriv(View(), item, i)
      decreases if item < |rank| then rank[item] else 0
    {
      hide Sound, EntryOk;
      var c := nbinfos[item].nbest[i];
      ListedShape(View(), item, i);
      var subs: seq<Deriv> := [];
      for a := 0 to |c.ranks|
        invariant |subs| == a
        invariant forall b :: 0 <= b < a ==> subs[b] == ToDeriv(View(), item, i).subs[b]
      {
        SubIsListed(View(), item, i, a);
        var sub := GetItemHelper(forest[item].deds[c.ded].ants[a], c.ranks[a]);
        assert ToDeriv(View(), item, i).subs[a] == ToDeriv(View(), SubItem(View(), item, c, a), c.ranks[a]);
        subs := subs + [sub];
      }
      d := Deriv(c.ded, subs);
      assert subs == ToDeriv(View(), item, i).subs;
    }
  }
}
