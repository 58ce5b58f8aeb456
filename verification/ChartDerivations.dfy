/** What a finished chart holds: antecedents that are still there, and, without
    limits, the least-cost derivations of everything that can be derived. */
module ChartDerivations {
  import opened Beams
  import opened Cubes
  import opened CellExpansion
  import opened ChartCubes
  import opened ChartFinal
  import D = DotCharts

  // ----- where cubes and rules come from

  predicate HasRules(rules: Rules, d: D.DotItem) {
    d.f in rules
  }

  /** Every cube is that of a dot item. */
  lemma {:induction false} CubeIsFrom(s: Scoring, rules: Rules, shelves: Shelves, items: seq<D.DotItem>, n: nat, c: nat) returns (k: nat)
    requires n <= |items| && c < |CubesOf(s, rules, shelves, items, n)|
    ensures k < n && HasRules(rules, items[k]) && items[k].antbins != []
    ensures CubesOf(s, rules, shelves, items, n)[c] == CubeOf(s, rules, shelves, items[k])
  {
    hide CubeOf;
    var before := CubesOf(s, rules, shelves, items, n - 1);
    if c < |before| {
      k := CubeIsFrom(s, rules, shelves, items, n - 1, c);
    } else {
      k := n - 1;
    }
  }

  /** Every dot item with rules and antecedents has a cube. */
  lemma {:induction false} CubeIsThere(s: Scoring, rules: Rules, shelves: Shelves, items: seq<D.DotItem>, n: nat, k: nat) returns (c: nat)
    requires k < n <= |items| && HasRules(rules, items[k]) && items[k].antbins != []
    ensures c < |CubesOf(s, rules, shelves, items, n)|
    ensures CubesOf(s, rules, shelves, items, n)[c] == CubeOf(s, rules, shelves, items[k])
  {
    hide CubeOf;
    if k == n - 1 {
      c := |CubesOf(s, rules, shelves, items, n - 1)|;
    } else {
      c := CubeIsThere(s, rules, shelves, items, n - 1, k);
    }
  }

  lemma {:induction false} AloneIs(s: Scoring, rs: seq<nat>, v: real, i: nat, j: nat, n: nat)
    requires n <= |rs|
    ensures |Alone(s, rs, v, i, j, n)| == n
    ensures forall k :: 0 <= k < n ==> Alone(s, rs, v, i, j, n)[k] == Applied(s, rs[k], [], [], v, i, j)
  {
    if n > 0 { AloneIs(s, rs, v, i, j, n - 1); }
  }

  /** Every rule applied alone is one of a dot item without antecedents. */
  lemma {:induction false} AloneIsFrom(s: Scoring, rules: Rules, items: seq<D.DotItem>, i: nat, j: nat, n: nat, c: nat)
    returns (k: nat, r: nat)
    requires n <= |items| && c < |AloneOf(s, rules, items, i, j, n)|
    ensures k < n && HasRules(rules, items[k]) && items[k].antbins == [] && r in rules[items[k].f]
    ensures AloneOf(s, rules, items, i, j, n)[c] == Applied(s, r, [], [], items[k].v, i, j)
  {
    hide Applied, Alone;
    var before := AloneOf(s, rules, items, i, j, n - 1);
    if c < |before| {
      k, r := AloneIsFrom(s, rules, items, i, j, n - 1, c);
    } else {
      k := n - 1;
      var rs := rules[items[k].f];
      AloneIs(s, rs, items[k].v, i, j, |rs|);
      r := rs[c - |before|];
    }
  }

  lemma {:induction false} AloneIsThere(s: Scoring, rules: Rules, items: seq<D.DotItem>, i: nat, j: nat, n: nat, k: nat, r: nat)
    returns (c: nat)
    requires k < n <= |items| && HasRules(rules, items[k]) && items[k].antbins == [] && r in rules[items[k].f]
    ensures c < |AloneOf(s, rules, items, i, j, n)|
    ensures AloneOf(s, rules, items, i, j, n)[c] == Applied(s, r, [], [], items[k].v, i, j)
  {
    hide Applied, Alone;
    var before := AloneOf(s, rules, items, i, j, n - 1);
    if k == n - 1 {
      var rs := rules[items[k].f];
      AloneIs(s, rs, items[k].v, i, j, |rs|);
      var m :| 0 <= m < |rs| && rs[m] == r;
      c := |before| + m;
    } else {
      c := AloneIsThere(s, rules, items, i, j, n - 1, k, r);
    }
  }

  // ----- antecedents

  /** The item is held in the finished bin of the span. */
  predicate HeldAt(st: State, i: nat, j: nat, x: Signature) {
    (i, j) in st.finals && x in st.finals[(i, j)].index
  }

  /** An entry of a side is held, with its cost and the side's nonterminal. */
  lemma SideIsHeld(u: Setup, st: State, b: (nat, nat, nat), e: Entry)
    requires FinalOk(u, st, b.1, b.2) && e in Side(u.s, st.shelves, b)
    ensures HeldAt(st, b.1, b.2, e.item) && st.finals[(b.1, b.2)].index[e.item].cost == e.cost && u.s.lhs(e.item) == b.0
  {
    hide FilledFrom, OfVar;
    var shelf := st.shelves[(b.1, b.2)];
    OfVarHas(u.s, shelf, b.0, |shelf|, e);
    assert shelf[..|shelf|] == shelf;
    var k :| 0 <= k < |shelf| && shelf[k] == e;
  }

  /** What is held is in the side of its nonterminal. */
  lemma HeldIsInSide(u: Setup, st: State, i: nat, j: nat, x: Signature) returns (e: Entry)
    requires FinalOk(u, st, i, j) && HeldAt(st, i, j, x)
    ensures e == Entry(x, st.finals[(i, j)].index[x].cost) && e in Side(u.s, st.shelves, (u.s.lhs(x), i, j))
    ensures D.Stocked(st.g, (u.s.lhs(x), i, j))
  {
    hide FilledFrom, OfVar, VarsOf;
    var shelf := st.shelves[(i, j)];
    assert Shelved(shelf, x);
    var k :| 0 <= k < |shelf| && shelf[k].item == x;
    e := shelf[k];
    OfVarHas(u.s, shelf, u.s.lhs(x), |shelf|, e);
    assert shelf[..|shelf|] == shelf;
    VarsOfHas(u.s, shelf, |shelf|, u.s.lhs(x));
  }

  /** The antecedents at a cell of the cube of a match: held in finished bins of
      smaller spans. */
  lemma PickedAreHeld(u: Setup, st: State, i: nat, j: nat, t: D.Tiling, ranks: seq<nat>, m: nat)
    requires Complete(u, st) && j < st.g.n && t in D.Early(st.g, i, j) && m < |D.BinsUsed(t)|
    requires var c := CubeOf(u.s, u.rules, st.shelves, D.ItemOf(st.g, i, j, t));
             |ranks| == |Dim(c)| && forall k :: 0 <= k < |ranks| ==> ranks[k] < Dim(c)[k]
    ensures var c, b := CubeOf(u.s, u.rules, st.shelves, D.ItemOf(st.g, i, j, t)), D.BinsUsed(t)[m];
            var e := Picked(c, ranks)[m];
            && |c.sides| == |c.spans| == |D.BinsUsed(t)| && c.spans[m] == (b.1, b.2)
            && i <= b.1 < b.2 <= j && (b.1, b.2) != (i, j)
            && HeldAt(st, b.1, b.2, e.item) && st.finals[(b.1, b.2)].index[e.item].cost == e.cost && u.s.lhs(e.item) == b.0
  {
    hide FinalOk, D.Early, Side;
    var c, b := CubeOf(u.s, u.rules, st.shelves, D.ItemOf(st.g, i, j, t)), D.BinsUsed(t)[m];
    D.EarlyBins(st.g, i, j, t, b);
    assert FinalOk(u, st, b.1, b.2);
    assert Dim(c)[m + 1] == |c.sides[m]| && c.sides[m] == Side(u.s, st.shelves, b);
    assert Picked(c, ranks)[m] == c.sides[m][ranks[m + 1]];
    SideIsHeld(u, st, b, Picked(c, ranks)[m]);
  }

  /** The match that a cell's cube comes from, and what the cell stands for. */
  lemma CellIsFrom(u: Setup, st: State, i: nat, j: nat, q: Cell) returns (t: D.Tiling)
    requires InBox(Dims(CubesAt(u, st, i, j)), q)
    ensures t in D.Early(st.g, i, j) && D.BinsUsed(t) != [] && D.Path(st.g, t) in u.rules
    ensures var cubes, c := CubesAt(u, st, i, j), CubeOf(u.s, u.rules, st.shelves, D.ItemOf(st.g, i, j, t));
            && cubes[q.cube] == c && 0 < |q.ranks| == |Dim(c)| && (forall k :: 0 <= k < |q.ranks| ==> q.ranks[k] < Dim(c)[k])
            && |c.sides| == |c.spans| == |D.BinsUsed(t)| && c.rules == u.rules[D.Path(st.g, t)] && q.ranks[0] < |c.rules|
            && Info(u.s, cubes, i, j)(q)
               == Applied(u.s, c.rules[q.ranks[0]], c.spans, Picked(c, q.ranks), if IsCorner(q.ranks) then c.v else 0.0, i, j)
  {
    hide D.Early, CubesOf, Side, Applied, IsCorner;
    var items := DotItems(st.g, i, j);
    var k := CubeIsFrom(u.s, u.rules, st.shelves, items, |items|, q.cube);
    t := D.Early(st.g, i, j)[k];
    assert items[k] == D.ItemOf(st.g, i, j, t);
    var c := CubeOf(u.s, u.rules, st.shelves, items[k]);
    assert q.ranks[0] < Dim(c)[0];
  }

  lemma TriedIsIn(dims: seq<seq<nat>>, info: Cell -> Way, tried: seq<Cell>, k: nat)
    requires BestFirst(dims, info, tried) && k < |tried|
    ensures InBox(dims, tried[k])
  {
    assert Chosen(dims, info, SetOf(tried[..k]), tried[k]);
  }

  /** The seeds are not derived from anything. */
  predicate SeedsAreAxioms(u: Setup) {
    forall p, k {:trigger u.seeds[p][k]} :: p in u.seeds && 0 <= k < |u.seeds[p]| ==> u.seeds[p][k].ded.Axiom?
  }

  /** An antecedent of a derivation over i..j: held, in its finished form, in the
      bin of a smaller span. */
  predicate AntIsHeld(st: State, i: nat, j: nat, a: Ant) {
    i <= a.i < a.j <= j && (a.i, a.j) != (i, j) && HeldAt(st, a.i, a.j, a.item)
  }

  // ----- what a derivation stands for

  /** The items of some antecedents, in order. */
  function ItemsIn(ants: seq<Ant>): (r: seq<Signature>)
    ensures |r| == |ants| && forall m :: 0 <= m < |r| ==> r[m] == ants[m].item
  {
    seq(|ants|, m requires 0 <= m < |ants| => ants[m].item)
  }

  /** What an antecedent costs where it is held. */
  function HeldCost(st: State, a: Ant): real {
    if HeldAt(st, a.i, a.j, a.item) then st.finals[(a.i, a.j)].index[a.item].cost else 0.0
  }

  function HeldCosts(st: State, ants: seq<Ant>, n: nat): real
    requires n <= |ants|
  {
    if n == 0 then 0.0 else HeldCosts(st, ants, n - 1) + HeldCost(st, ants[n - 1])
  }

  /** A trie path that tiles the span by smaller spans. */
  predicate Matches(g: D.Grammar, i: nat, j: nat, t: D.Tiling) {
    D.Tiles(g, i, j, t) && t.Then? && !(t.last.Reduce? && t.last.k == i)
  }

  /** The antecedent is held in the finished bin of the span of the `m`th
      nonterminal matched, and is of that nonterminal. */
  predicate AntMatches(u: Setup, st: State, t: D.Tiling, ants: seq<Ant>, m: nat)
    requires m < |ants| == |D.BinsUsed(t)|
  {
    var b := D.BinsUsed(t)[m];
    (ants[m].i, ants[m].j) == (b.1, b.2) && HeldAt(st, b.1, b.2, ants[m].item) && u.s.lhs(ants[m].item) == b.0
  }

  predicate AntsMatch(u: Setup, st: State, t: D.Tiling, ants: seq<Ant>) {
    && |ants| == |D.BinsUsed(t)|
    && forall m {:trigger AntMatches(u, st, t, ants, m)} :: 0 <= m < |ants| ==> AntMatches(u, st, t, ants, m)
  }

  /** The derivation applies a rule of the path's trie node to antecedents that
      match the path's nonterminals, in order, and the item comes of it. */
  predicate Derived(u: Setup, st: State, i: nat, j: nat, x: Signature, t: D.Tiling, rule: nat, ants: seq<Ant>) {
    && Matches(st.g, i, j, t) && D.Path(st.g, t) in u.rules && rule in u.rules[D.Path(st.g, t)]
    && AntsMatch(u, st, t, ants) && u.s.result(rule, ItemsIn(ants), i, j) == x
  }

  /** Where the rule and the antecedents are in the cube of the path: the rule
      among those of the trie node, the antecedents among the items of their
      nonterminals in order of cost. */
  predicate PlacedAt(u: Setup, st: State, t: D.Tiling, rule: nat, ants: seq<Ant>, ranks: seq<nat>)
    requires D.Path(st.g, t) in u.rules && |ants| == |D.BinsUsed(t)|
  {
    && |ranks| == |ants| + 1
    && ranks[0] < |u.rules[D.Path(st.g, t)]| && u.rules[D.Path(st.g, t)][ranks[0]] == rule
    && forall m :: 0 <= m < |ants| ==>
         ranks[m + 1] < |Side(u.s, st.shelves, D.BinsUsed(t)[m])|
         && Side(u.s, st.shelves, D.BinsUsed(t)[m])[ranks[m + 1]].item == ants[m].item
  }

  /** What the derivation costs: its antecedents, what the models add, and the
      edges, which are charged where all come first in their places and where
      there are no antecedents. */
  predicate Costs(u: Setup, st: State, i: nat, j: nat, cost: real, t: D.Tiling, rule: nat, ants: seq<Ant>, ranks: seq<nat>)
  {
    cost == HeldCosts(st, ants, |ants|) + u.s.local(rule, ItemsIn(ants), i, j)
            + (if ants == [] || forall k :: 0 <= k < |ranks| ==> ranks[k] == 0 then D.EdgeCost(st.g, t) else 0.0)
  }

  lemma {:induction false} PickedCosts(st: State, ants: seq<Ant>, es: seq<Entry>, n: nat)
    requires n <= |ants| == |es| && forall m :: 0 <= m < |ants| ==> HeldCost(st, ants[m]) == es[m].cost
    ensures HeldCosts(st, ants, n) == CostSum(es, n)
  {
    if n > 0 { PickedCosts(st, ants, es, n - 1); }
  }

  lemma EarlyMatches(g: D.Grammar, i: nat, j: nat, t: D.Tiling)
    requires t in D.Early(g, i, j)
    ensures Matches(g, i, j, t)
  {
    D.EarlyHas(g, i, j, t);
    D.TilesIs(g, i, j, t);
  }

  /** What a rule without antecedents stands for. */
  lemma AloneDerives(u: Setup, st: State, i: nat, j: nat, k: nat) returns (t: D.Tiling, ranks: seq<nat>)
    requires SeedsAreAxioms(u) && k < |Base(u, st.g, i, j)| && Base(u, st.g, i, j)[k].ded.Apply?
    ensures var w := Base(u, st.g, i, j)[k];
            && Derived(u, st, i, j, w.item, t, w.ded.rule, w.ded.ants)
            && PlacedAt(u, st, t, w.ded.rule, w.ded.ants, ranks)
            && Costs(u, st, i, j, w.cost, t, w.ded.rule, w.ded.ants, ranks)
  {
    hide AloneOf, D.Early, Matches;
    var items, seeds := DotItems(st.g, i, j), SeedsAt(u, i, j);
    forall k | 0 <= k < |seeds| ensures seeds[k].ded.Axiom? {}
    var m, r := AloneIsFrom(u.s, u.rules, items, i, j, |items|, k - |seeds|);
    t := D.Early(st.g, i, j)[m];
    assert items[m] == D.ItemOf(st.g, i, j, t);
    EarlyMatches(st.g, i, j, t);
    var rs := u.rules[D.Path(st.g, t)];
    var c :| 0 <= c < |rs| && rs[c] == r;
    ranks := [c];
    assert ItemsIn([]) == ItemsOf([]) == [];
  }

  /** What a cell of the cubes stands for. */
  lemma CellDerives(u: Setup, st: State, i: nat, j: nat, q: Cell) returns (t: D.Tiling, ranks: seq<nat>)
    requires Complete(u, st) && j < st.g.n && InBox(Dims(CubesAt(u, st, i, j)), q)
    ensures var w := Info(u.s, CubesAt(u, st, i, j), i, j)(q);
            && w.ded.Apply? && Derived(u, st, i, j, w.item, t, w.ded.rule, w.ded.ants)
            && PlacedAt(u, st, t, w.ded.rule, w.ded.ants, ranks)
            && Costs(u, st, i, j, w.cost, t, w.ded.rule, w.ded.ants, ranks)
  {
    hide Complete, D.Early, CubesAt, InBox, Info, Matches, Side, HeldCosts, CostSum;
    t := CellIsFrom(u, st, i, j, q);
    ranks := q.ranks;
    EarlyMatches(st.g, i, j, t);
    var c := CubeOf(u.s, u.rules, st.shelves, D.ItemOf(st.g, i, j, t));
    var es := Picked(c, q.ranks);
    var ants := AntsOf(c.spans, es);
    forall m | 0 <= m < |ants|
      ensures AntMatches(u, st, t, ants, m) && HeldCost(st, ants[m]) == es[m].cost
      ensures ranks[m + 1] < |Side(u.s, st.shelves, D.BinsUsed(t)[m])|
      ensures Side(u.s, st.shelves, D.BinsUsed(t)[m])[ranks[m + 1]].item == ants[m].item
    {
      PickedAreHeld(u, st, i, j, t, q.ranks, m);
      assert q.ranks[m + 1] < Dim(c)[m + 1];
    }
    PickedCosts(st, ants, es, |ants|);
    assert ItemsIn(ants) == ItemsOf(es);
  }

  /** Every derivation held applies a rule of a trie node over a tiling of the
      span, to antecedents held in the bins of the nonterminals matched, in
      order, and its item is what comes of that. */
  lemma DerivationIs(u: Setup, st: State, i: nat, j: nat, x: Signature, d: Derivation) returns (t: D.Tiling)
    requires Complete(u, st) && SeedsAreAxioms(u) && i < j < st.g.n && HeldAt(st, i, j, x)
    requires d in st.finals[(i, j)].index[x].deds && d.Apply?
    ensures Derived(u, st, i, j, x, t, d.rule, d.ants)
  {
    hide Base, CubesAt, Holds, LowestOver, BestFirst, InBox, Info, Dims, Derived, PlacedAt, Costs, AntsMatch;
    assert FinalOk(u, st, i, j);
    hide FinalOk, Complete;
    var base, cubes, fin := Base(u, st.g, i, j), CubesAt(u, st, i, j), st.finals[(i, j)];
    var info := Info(u.s, cubes, i, j);
    assert Proposed(base, fin.tried, info, x, d);
    var ranks;
    if k :| 0 <= k < |base| && base[k].item == x && base[k].ded == d {
      t, ranks := AloneDerives(u, st, i, j, k);
    } else {
      var k :| 0 <= k < |fin.tried| && info(fin.tried[k]).item == x && info(fin.tried[k]).ded == d;
      TriedIsIn(Dims(cubes), info, fin.tried, k);
      t, ranks := CellDerives(u, st, i, j, fin.tried[k]);
    }
  }

  /** The first derivation of an item is a seed at the item's cost, or costs as
      much as its antecedents, what the models add and the edges charged. */
  lemma FirstDerivationCosts(u: Setup, st: State, i: nat, j: nat, x: Signature) returns (t: D.Tiling, ranks: seq<nat>)
    requires Complete(u, st) && SeedsAreAxioms(u) && i < j < st.g.n && HeldAt(st, i, j, x)
    ensures var h := st.finals[(i, j)].index[x];
            && h.deds != []
            && (h.deds[0].Axiom? ==> Way(h.cost, x, h.deds[0]) in SeedsAt(u, i, j))
            && (h.deds[0].Apply? ==>
                  && Derived(u, st, i, j, x, t, h.deds[0].rule, h.deds[0].ants)
                  && PlacedAt(u, st, t, h.deds[0].rule, h.deds[0].ants, ranks)
                  && Costs(u, st, i, j, h.cost, t, h.deds[0].rule, h.deds[0].ants, ranks))
  {
    hide CubesAt, Holds, LowestOver, BestFirst, InBox, Info, Dims, Derived, PlacedAt, Costs, AntsMatch, AloneOf;
    assert FinalOk(u, st, i, j);
    hide FinalOk, Complete;
    var base, cubes, fin := Base(u, st.g, i, j), CubesAt(u, st, i, j), st.finals[(i, j)];
    var info := Info(u.s, cubes, i, j);
    var h := fin.index[x];
    assert WayProposed(base, fin.tried, info, Way(h.cost, x, h.deds[0]));
    t, ranks := D.Empty, [];
    if Way(h.cost, x, h.deds[0]) in base {
      var k :| 0 <= k < |base| && base[k] == Way(h.cost, x, h.deds[0]);
      if h.deds[0].Apply? {
        t, ranks := AloneDerives(u, st, i, j, k);
      } else {
        AxiomIsSeed(u, st.g, i, j, k);
      }
    } else {
      var k :| 0 <= k < |fin.tried| && info(fin.tried[k]) == Way(h.cost, x, h.deds[0]);
      TriedIsIn(Dims(cubes), info, fin.tried, k);
      t, ranks := CellDerives(u, st, i, j, fin.tried[k]);
    }
  }

  lemma AxiomIsSeed(u: Setup, g: D.Grammar, i: nat, j: nat, k: nat)
    requires k < |Base(u, g, i, j)| && Base(u, g, i, j)[k].ded.Axiom?
    ensures Base(u, g, i, j)[k] in SeedsAt(u, i, j)
  {
    hide AloneOf;
    var items, seeds := DotItems(g, i, j), SeedsAt(u, i, j);
    if k >= |seeds| {
      var m, r := AloneIsFrom(u.s, u.rules, items, i, j, |items|, k - |seeds|);
    }
  }

  // ----- the whole chart

  predicate HasDed(st: State, i: nat, j: nat, x: Signature, d: Derivation) {
    HeldAt(st, i, j, x) && d in st.finals[(i, j)].index[x].deds
  }

  /** Every derivation in the chart that is not a seed is one of its item. */
  ghost predicate AllDerived(u: Setup, st: State) {
    forall i: nat, j: nat, x, d {:trigger HasDed(st, i, j, x, d)} :: i < j < st.g.n && HasDed(st, i, j, x, d) && d.Apply? ==>
      exists t :: Derived(u, st, i, j, x, t, d.rule, d.ants)
  }

  /** The item's first derivation costs what the item does. */
  ghost predicate Priced(u: Setup, st: State, i: nat, j: nat, x: Signature)
    requires HeldAt(st, i, j, x)
  {
    var h := st.finals[(i, j)].index[x];
    && h.deds != []
    && (h.deds[0].Axiom? ==> (i, j) in u.seeds && Way(h.cost, x, h.deds[0]) in u.seeds[(i, j)])
    && (h.deds[0].Apply? ==> exists t, ranks ::
          && Derived(u, st, i, j, x, t, h.deds[0].rule, h.deds[0].ants)
          && PlacedAt(u, st, t, h.deds[0].rule, h.deds[0].ants, ranks)
          && Costs(u, st, i, j, h.cost, t, h.deds[0].rule, h.deds[0].ants, ranks))
  }

  ghost predicate AllPriced(u: Setup, st: State) {
    forall i: nat, j: nat, x {:trigger HeldAt(st, i, j, x)} :: i < j < st.g.n && HeldAt(st, i, j, x) ==> Priced(u, st, i, j, x)
  }

  /** Whatever a span was seeded with was offered to its bin. */
  ghost predicate AllSeeded(u: Setup, st: State) {
    forall p, k {:trigger u.seeds[p][k]} :: p in u.seeds && 0 <= k < |u.seeds[p]| && p.0 < p.1 < st.g.n ==>
      Seeded(st, p, u.seeds[p][k])
  }

  predicate Seeded(st: State, p: (nat, nat), w: Way) {
    p in st.finals && (w.cost < IMPOSSIBLE ==> w.item in st.finals[p].low && st.finals[p].low[w.item] <= w.cost)
  }

  lemma ChartIsSeeded(u: Setup, st: State)
    requires Complete(u, st)
    ensures AllSeeded(u, st)
  {
    forall p, k | p in u.seeds && 0 <= k < |u.seeds[p]| && p.0 < p.1 < st.g.n
      ensures Seeded(st, p, u.seeds[p][k])
    {
      SeedIsOffered(u, st, p.0, p.1, k);
    }
  }

  lemma SeedIsOffered(u: Setup, st: State, i: nat, j: nat, k: nat)
    requires Complete(u, st) && i < j < st.g.n && (i, j) in u.seeds && k < |u.seeds[(i, j)]|
    ensures Seeded(st, (i, j), u.seeds[(i, j)][k])
  {
    hide AloneOf, CubesAt, Holds, BestFirst, InBox, Info, Dims, DedsProposed, FirstProposed, Lowest;
    assert FinalOk(u, st, i, j);
    var base := Base(u, st.g, i, j);
    assert base[k] == u.seeds[(i, j)][k];
    LowestIs(base, |base|, base[k].item);
  }

  lemma ChartIsDerived(u: Setup, st: State)
    requires Complete(u, st) && SeedsAreAxioms(u)
    ensures AllDerived(u, st) && AllPriced(u, st)
  {
    hide Complete, SeedsAreAxioms, Derived, PlacedAt, Costs;
    forall i: nat, j: nat, x, d | i < j < st.g.n && HasDed(st, i, j, x, d) && d.Apply?
      ensures exists t :: Derived(u, st, i, j, x, t, d.rule, d.ants)
    {
      var t := DerivationIs(u, st, i, j, x, d);
    }
    forall i: nat, j: nat, x | i < j < st.g.n && HeldAt(st, i, j, x) ensures Priced(u, st, i, j, x) {
      var t, ranks := FirstDerivationCosts(u, st, i, j, x);
    }
  }

  /** Every antecedent of every derivation in a finished chart is still held, in
      the bin of a smaller span: none has been pruned after it was used. */
  lemma AntsAreHeld(u: Setup, st: State, i: nat, j: nat, x: Signature, d: Derivation, m: nat)
    requires Complete(u, st) && SeedsAreAxioms(u) && i < j < st.g.n && HeldAt(st, i, j, x)
    requires d in st.finals[(i, j)].index[x].deds && d.Apply? && m < |d.ants|
    ensures AntIsHeld(st, i, j, d.ants[m])
  {
    hide Complete, SeedsAreAxioms;
    var t := DerivationIs(u, st, i, j, x, d);
    assert AntMatches(u, st, t, d.ants, m);
    D.SmallerBins(st.g, i, j, t, D.BinsUsed(t)[m]);
  }
}
