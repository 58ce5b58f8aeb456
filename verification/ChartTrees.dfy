/** Without limits, a finished chart holds exactly the items that can be derived,
    each at the cost of a least derivation. */
module ChartTrees {
  import opened Wrappers
  import opened Beams
  import opened Cubes
  import opened CellExpansion
  import opened ChartCubes
  import opened ChartFinal
  import opened ChartDerivations
  import D = DotCharts

  /** A derivation over a span: one of its seeds, or a rule over a match, with a
      derivation for each nonterminal matched. */
  datatype Tree = Seed(k: nat) | Node(path: D.Tiling, rule: nat, subs: seq<Tree>)

  /** The span of the `m`th nonterminal matched. */
  function SpanOf(t: D.Tiling, m: nat): (nat, nat) {
    if m < |D.BinsUsed(t)| then (D.BinsUsed(t)[m].1, D.BinsUsed(t)[m].2) else (0, 0)
  }

  function VarOf(t: D.Tiling, m: nat): nat {
    if m < |D.BinsUsed(t)| then D.BinsUsed(t)[m].0 else 0
  }

  function SeedOf(u: Setup, i: nat, j: nat, k: nat): Way {
    if k < |SeedsAt(u, i, j)| then SeedsAt(u, i, j)[k] else Way(IMPOSSIBLE, 0, Axiom(0))
  }

  /** The item derived. */
  function Root(u: Setup, i: nat, j: nat, t: Tree): Signature
    decreases t, if t.Node? then |t.subs| + 1 else 0
  {
    match t
    case Seed(k) => SeedOf(u, i, j, k).item
    case Node(_, rule, subs) => u.s.result(rule, Roots(u, t, |subs|), i, j)
  }

  /** The items of the first `n` antecedents. */
  function Roots(u: Setup, t: Tree, n: nat): (r: seq<Signature>)
    requires t.Node? && n <= |t.subs|
    ensures |r| == n
    decreases t, n
  {
    if n == 0 then []
    else Roots(u, t, n - 1) + [Root(u, SpanOf(t.path, n - 1).0, SpanOf(t.path, n - 1).1, t.subs[n - 1])]
  }

  /** What the rules and their antecedents cost, and no edges. */
  function Cost(u: Setup, i: nat, j: nat, t: Tree): real
    decreases t, if t.Node? then |t.subs| + 1 else 0
  {
    match t
    case Seed(k) => SeedOf(u, i, j, k).cost
    case Node(_, rule, subs) => Costs(u, t, |subs|) + u.s.local(rule, Roots(u, t, |subs|), i, j)
  }

  function Costs(u: Setup, t: Tree, n: nat): real
    requires t.Node? && n <= |t.subs|
    decreases t, n
  {
    if n == 0 then 0.0
    else Costs(u, t, n - 1) + Cost(u, SpanOf(t.path, n - 1).0, SpanOf(t.path, n - 1).1, t.subs[n - 1])
  }

  /** The match rests on smaller spans, and its trie node has the rule. */
  predicate Applies(u: Setup, g: D.Grammar, i: nat, j: nat, path: D.Tiling, rule: nat) {
    && D.Tiles(g, i, j, path) && path.Then? && !(path.last.Reduce? && path.last.k == i)
    && D.Path(g, path) in u.rules && rule in u.rules[D.Path(g, path)]
  }

  /** A derivation, none of whose parts is impossibly costly. */
  predicate IsTree(u: Setup, g: D.Grammar, i: nat, j: nat, t: Tree)
    decreases t
  {
    && Cost(u, i, j, t) < IMPOSSIBLE
    && match t
       case Seed(k) => k < |SeedsAt(u, i, j)|
       case Node(path, rule, subs) =>
         && Applies(u, g, i, j, path, rule) && |subs| == |D.BinsUsed(path)|
         && forall m :: 0 <= m < |subs| ==>
              && IsTree(u, g, SpanOf(path, m).0, SpanOf(path, m).1, subs[m])
              && u.s.lhs(Root(u, SpanOf(path, m).0, SpanOf(path, m).1, subs[m])) == VarOf(path, m)
  }

  /** No limit or threshold on bins, no limit on expansions, and edges that cost nothing. */
  predicate Unlimited(u: Setup, g: D.Grammar) {
    u.limit.None? && u.threshold.None? && u.popLimit.None? && forall e :: 0 <= e < |g.edges| ==> g.edges[e].v == 0.0
  }

  lemma {:induction false} EdgesAreFree(u: Setup, g: D.Grammar, t: D.Tiling)
    requires Unlimited(u, g)
    ensures D.EdgeCost(g, t) == 0.0
  {
    if t.Then? { EdgesAreFree(u, g, t.prior); }
  }

  // ----- the chart's items can be derived at their costs

  /** The derivations give the antecedents, at their costs. */
  predicate Gives(u: Setup, g: D.Grammar, path: D.Tiling, subs: seq<Tree>, ants: seq<Entry>) {
    |subs| <= |ants| && forall m {:trigger GivesAt(u, g, path, subs, ants, m)} :: 0 <= m < |subs| ==> GivesAt(u, g, path, subs, ants, m)
  }

  predicate GivesAt(u: Setup, g: D.Grammar, path: D.Tiling, subs: seq<Tree>, ants: seq<Entry>, m: nat)
    requires m < |subs| <= |ants|
  {
    var b := SpanOf(path, m);
    && IsTree(u, g, b.0, b.1, subs[m]) && Root(u, b.0, b.1, subs[m]) == ants[m].item && Cost(u, b.0, b.1, subs[m]) == ants[m].cost
    && u.s.lhs(ants[m].item) == VarOf(path, m)
  }

  lemma {:induction false} GivenSums(u: Setup, g: D.Grammar, t: Tree, ants: seq<Entry>, n: nat)
    requires t.Node? && Gives(u, g, t.path, t.subs, ants) && n <= |t.subs| == |ants|
    ensures Costs(u, t, n) == CostSum(ants, n) && Roots(u, t, n) == ItemsOf(ants)[..n]
  {
    hide IsTree;
    if n > 0 {
      GivenSums(u, g, t, ants, n - 1);
      assert GivesAt(u, g, t.path, t.subs, ants, n - 1);
    }
  }

  /** A rule over a match, with derivations of its antecedents. */
  lemma NodeIs(u: Setup, g: D.Grammar, i: nat, j: nat, path: D.Tiling, rule: nat, subs: seq<Tree>, ants: seq<Entry>,
               spans: seq<(nat, nat)>)
    requires Applies(u, g, i, j, path, rule) && |subs| == |ants| == |D.BinsUsed(path)| == |spans| && Gives(u, g, path, subs, ants)
    requires Applied(u.s, rule, spans, ants, 0.0, i, j).cost < IMPOSSIBLE
    ensures IsTree(u, g, i, j, Node(path, rule, subs))
    ensures Root(u, i, j, Node(path, rule, subs)) == Applied(u.s, rule, spans, ants, 0.0, i, j).item
    ensures Cost(u, i, j, Node(path, rule, subs)) == Applied(u.s, rule, spans, ants, 0.0, i, j).cost
  {
    hide Applies;
    var t := Node(path, rule, subs);
    GivenSums(u, g, t, ants, |ants|);
    assert ItemsOf(ants)[..|ants|] == ItemsOf(ants);
    forall m | 0 <= m < |subs|
      ensures IsTree(u, g, SpanOf(path, m).0, SpanOf(path, m).1, subs[m])
      ensures u.s.lhs(Root(u, SpanOf(path, m).0, SpanOf(path, m).1, subs[m])) == VarOf(path, m)
    {
      assert GivesAt(u, g, path, subs, ants, m);
    }
  }

  lemma EarlyApplies(u: Setup, g: D.Grammar, i: nat, j: nat, t: D.Tiling, rule: nat)
    requires t in D.Early(g, i, j) && D.Path(g, t) in u.rules && rule in u.rules[D.Path(g, t)]
    ensures Applies(u, g, i, j, t, rule)
  {
    D.EarlyHas(g, i, j, t);
    D.TilesIs(g, i, j, t);
  }

  /** An item of an unlimited bin has the cost of one of the ways offered. */
  lemma HeldHasWay(u: Setup, base: seq<Way>, cubes: seq<Cube>, i: nat, j: nat, fin: Final, x: Signature) returns (k: nat, q: Cell, alone: bool)
    requires FilledFrom(u, base, cubes, i, j, fin) && x in fin.index
    ensures fin.index[x].cost < IMPOSSIBLE
    ensures if alone then k < |base| && base[k].item == x && base[k].cost == fin.index[x].cost
            else InBox(Dims(cubes), q) && Info(u.s, cubes, i, j)(q).item == x && Info(u.s, cubes, i, j)(q).cost == fin.index[x].cost
  {
    hide InBox, BestFirst, Dims, Info, DedsProposed;
    var info := Info(u.s, cubes, i, j);
    var low := Lowest(base, |base|);
    LowestIs(base, |base|, x);
    hide Lowest;
    k, q, alone := 0, Cell(0, []), true;
    if x in low && fin.low[x] == low[x] {
      k :| 0 <= k < |base| && base[k].item == x && base[k].cost == low[x] < IMPOSSIBLE;
    } else {
      assert Covered(SetOf(fin.tried), info, x, fin.low[x]);
      q :| q in SetOf(fin.tried) && info(q).item == x && info(q).cost == fin.low[x];
      var m :| 0 <= m < |fin.tried| && fin.tried[m] == q;
      TriedIsIn(Dims(cubes), info, fin.tried, m);
      alone := false;
    }
  }

  /** Every item held is derived at its cost. */
  lemma {:induction false} BestTree(u: Setup, st: State, i: nat, j: nat, x: Signature) returns (t: Tree)
    requires Complete(u, st) && Unlimited(u, st.g) && i < j < st.g.n && HeldAt(st, i, j, x)
    ensures IsTree(u, st.g, i, j, t) && Root(u, i, j, t) == x && Cost(u, i, j, t) == st.finals[(i, j)].index[x].cost
    decreases j - i, 1, 0
  {
    hide Unlimited, Base, CubesAt, FilledFrom, ShelfOf, VarsOf, Info, InBox, Dims;
    assert FinalOk(u, st, i, j);
    hide FinalOk, Complete, IsTree;
    var base, cubes, fin := Base(u, st.g, i, j), CubesAt(u, st, i, j), st.finals[(i, j)];
    var k, q, alone := HeldHasWay(u, base, cubes, i, j, fin, x);
    if alone {
      t := AloneTree(u, st.g, i, j, k);
    } else {
      t := CellTree(u, st, i, j, q);
    }
  }

  lemma AloneTree(u: Setup, g: D.Grammar, i: nat, j: nat, k: nat) returns (t: Tree)
    requires Unlimited(u, g) && k < |Base(u, g, i, j)| && Base(u, g, i, j)[k].cost < IMPOSSIBLE
    ensures IsTree(u, g, i, j, t)
    ensures Root(u, i, j, t) == Base(u, g, i, j)[k].item && Cost(u, i, j, t) == Base(u, g, i, j)[k].cost
  {
    hide AloneOf, Unlimited, D.Early, Applies, Applied;
    var items, seeds := DotItems(g, i, j), SeedsAt(u, i, j);
    if k < |seeds| {
      t := Seed(k);
    } else {
      var m, r := AloneIsFrom(u.s, u.rules, items, i, j, |items|, k - |seeds|);
      var path := D.Early(g, i, j)[m];
      EarlyApplies(u, g, i, j, path, r);
      EdgesAreFree(u, g, path);
      NodeIs(u, g, i, j, path, r, [], [], []);
      t := Node(path, r, []);
    }
  }

  lemma {:induction false} CellTree(u: Setup, st: State, i: nat, j: nat, q: Cell) returns (t: Tree)
    requires Complete(u, st) && Unlimited(u, st.g) && i < j < st.g.n && InBox(Dims(CubesAt(u, st, i, j)), q)
    requires Info(u.s, CubesAt(u, st, i, j), i, j)(q).cost < IMPOSSIBLE
    ensures IsTree(u, st.g, i, j, t)
    ensures Root(u, i, j, t) == Info(u.s, CubesAt(u, st, i, j), i, j)(q).item
    ensures Cost(u, i, j, t) == Info(u.s, CubesAt(u, st, i, j), i, j)(q).cost
    decreases j - i, 0, 1
  {
    hide Complete, Unlimited, D.Early, CubesAt, InBox, Info, Dims, Dim, Picked, Applied, Applies, IsTree, Side, IsCorner;
    var path := CellIsFrom(u, st, i, j, q);
    var c := CubeOf(u.s, u.rules, st.shelves, D.ItemOf(st.g, i, j, path));
    var ants := Picked(c, q.ranks);
    var subs := BestTrees(u, st, i, j, path, q.ranks, |D.BinsUsed(path)|);
    EarlyApplies(u, st.g, i, j, path, c.rules[q.ranks[0]]);
    EdgesAreFree(u, st.g, path);
    NodeIs(u, st.g, i, j, path, c.rules[q.ranks[0]], subs, ants, c.spans);
    t := Node(path, c.rules[q.ranks[0]], subs);
  }

  /** Derivations of the first `n` antecedents at a cell. */
  lemma {:induction false} BestTrees(u: Setup, st: State, i: nat, j: nat, path: D.Tiling, ranks: seq<nat>, n: nat) returns (subs: seq<Tree>)
    requires Complete(u, st) && Unlimited(u, st.g) && i < j < st.g.n && path in D.Early(st.g, i, j) && n <= |D.BinsUsed(path)|
    requires var c := CubeOf(u.s, u.rules, st.shelves, D.ItemOf(st.g, i, j, path));
             |ranks| == |Dim(c)| && forall k :: 0 <= k < |ranks| ==> ranks[k] < Dim(c)[k]
    ensures |subs| == n
    ensures Gives(u, st.g, path, subs, Picked(CubeOf(u.s, u.rules, st.shelves, D.ItemOf(st.g, i, j, path)), ranks))
    decreases j - i, 0, 0, n
  {
    hide Complete, Unlimited, D.Early, IsTree, Root, Cost, HeldAt;
    var c := CubeOf(u.s, u.rules, st.shelves, D.ItemOf(st.g, i, j, path));
    var ants := Picked(c, ranks);
    subs := [];
    if n > 0 {
      var before := BestTrees(u, st, i, j, path, ranks, n - 1);
      PickedAreHeld(u, st, i, j, path, ranks, n - 1);
      var b := D.BinsUsed(path)[n - 1];
      var sub := BestTree(u, st, b.1, b.2, ants[n - 1].item);
      subs := before + [sub];
      forall m | 0 <= m < n ensures GivesAt(u, st.g, path, subs, ants, m) {
        if m < n - 1 { assert GivesAt(u, st.g, path, before, ants, m); }
      }
    }
  }

  // ----- whatever can be derived is held, and costs no more

  lemma HeldIfLow(u: Setup, base: seq<Way>, cubes: seq<Cube>, i: nat, j: nat, fin: Final, x: Signature)
    requires FilledFrom(u, base, cubes, i, j, fin) && u.limit.None? && u.threshold.None? && x in fin.low
    ensures x in fin.index && fin.index[x].cost == fin.low[x]
  {
  }

  lemma HeldIfOffered(u: Setup, base: seq<Way>, cubes: seq<Cube>, i: nat, j: nat, fin: Final, k: nat)
    requires FilledFrom(u, base, cubes, i, j, fin) && u.limit.None? && u.threshold.None? && k < |base| && base[k].cost < IMPOSSIBLE
    ensures base[k].item in fin.index && fin.index[base[k].item].cost <= base[k].cost
  {
    hide BestFirst, Dims, Info, DedsProposed, AllCells, Lowest;
    LowestIs(base, |base|, base[k].item);
    HeldIfLow(u, base, cubes, i, j, fin, base[k].item);
  }

  lemma HeldIfCell(u: Setup, base: seq<Way>, cubes: seq<Cube>, i: nat, j: nat, fin: Final, q: Cell)
    requires FilledFrom(u, base, cubes, i, j, fin) && u.limit.None? && u.threshold.None? && u.popLimit.None?
    requires InBox(Dims(cubes), q) && Info(u.s, cubes, i, j)(q).cost < IMPOSSIBLE
    ensures Info(u.s, cubes, i, j)(q).item in fin.index
    ensures fin.index[Info(u.s, cubes, i, j)(q).item].cost <= Info(u.s, cubes, i, j)(q).cost
  {
    hide BestFirst, Dims, Info, DedsProposed, AllCells, Lowest, InBox;
    AllCellsHas(Dims(cubes));
    assert q in SetOf(fin.tried);
    HeldIfLow(u, base, cubes, i, j, fin, Info(u.s, cubes, i, j)(q).item);
  }

  /** The `m`th antecedent: in the side of its nonterminal, at no more than the
      derivation's cost. */
  predicate Finds(u: Setup, st: State, t: Tree, ants: seq<Entry>, ranks: seq<nat>, m: nat)
    requires t.Node? && m < |ants| == |ranks| && |ants| <= |t.subs| == |D.BinsUsed(t.path)|
  {
    var b := D.BinsUsed(t.path)[m];
    && ranks[m] < |Side(u.s, st.shelves, b)| && Side(u.s, st.shelves, b)[ranks[m]] == ants[m] && D.Stocked(st.g, b)
    && ants[m].item == Root(u, b.1, b.2, t.subs[m]) && ants[m].cost <= Cost(u, b.1, b.2, t.subs[m])
  }

  predicate FindsAll(u: Setup, st: State, t: Tree, ants: seq<Entry>, ranks: seq<nat>) {
    && t.Node? && |ants| == |ranks| && |ants| <= |t.subs| == |D.BinsUsed(t.path)|
    && forall m {:trigger Finds(u, st, t, ants, ranks, m)} :: 0 <= m < |ants| ==> Finds(u, st, t, ants, ranks, m)
  }

  lemma {:induction false} FoundSums(u: Setup, st: State, t: Tree, ants: seq<Entry>, ranks: seq<nat>, n: nat)
    requires FindsAll(u, st, t, ants, ranks) && n <= |ants|
    ensures CostSum(ants, n) <= Costs(u, t, n) && ItemsOf(ants)[..n] == Roots(u, t, n)
  {
    hide Side;
    if n > 0 {
      FoundSums(u, st, t, ants, ranks, n - 1);
      assert Finds(u, st, t, ants, ranks, n - 1);
    }
  }

  lemma FindsMore(u: Setup, st: State, t: Tree, ants: seq<Entry>, ranks: seq<nat>, e: Entry, r: nat)
    requires FindsAll(u, st, t, ants, ranks) && |ants| < |t.subs|
    requires Finds(u, st, t, ants + [e], ranks + [r], |ants|)
    ensures FindsAll(u, st, t, ants + [e], ranks + [r])
  {
    forall m | 0 <= m < |ants| + 1 ensures Finds(u, st, t, ants + [e], ranks + [r], m) {
      if m < |ants| { assert Finds(u, st, t, ants, ranks, m); }
    }
  }

  /** A derivation of an unlimited chart ends in an item held at no more than its
      cost. */
  lemma {:induction false} TreeIsHeld(u: Setup, st: State, i: nat, j: nat, t: Tree)
    requires Complete(u, st) && Unlimited(u, st.g) && i < j < st.g.n && IsTree(u, st.g, i, j, t)
    ensures HeldAt(st, i, j, Root(u, i, j, t)) && st.finals[(i, j)].index[Root(u, i, j, t)].cost <= Cost(u, i, j, t)
    decreases t, 1, 0
  {
    hide Base, CubesAt, FilledFrom, ShelfOf, VarsOf, Complete, Applies;
    match t {
      case Seed(k) =>
        SeedIsHeld(u, st, i, j, k);
      case Node(path, rule, subs) =>
        var ants, ranks := FindAnts(u, st, i, j, t, |subs|);
        FoundSums(u, st, t, ants, ranks, |subs|);
        assert ItemsOf(ants)[..|ants|] == ItemsOf(ants);
        NodeIsHeld(u, st, i, j, t, ants, ranks);
    }
  }

  lemma SeedIsHeld(u: Setup, st: State, i: nat, j: nat, k: nat)
    requires Complete(u, st) && Unlimited(u, st.g) && i < j < st.g.n && k < |SeedsAt(u, i, j)|
    requires SeedsAt(u, i, j)[k].cost < IMPOSSIBLE
    ensures HeldAt(st, i, j, SeedsAt(u, i, j)[k].item)
    ensures st.finals[(i, j)].index[SeedsAt(u, i, j)[k].item].cost <= SeedsAt(u, i, j)[k].cost
  {
    hide AloneOf, CubesAt, FilledFrom, ShelfOf, VarsOf;
    assert FinalOk(u, st, i, j);
    var base := Base(u, st.g, i, j);
    assert base[k] == SeedsAt(u, i, j)[k];
    HeldIfOffered(u, base, CubesAt(u, st, i, j), i, j, st.finals[(i, j)], k);
  }

  /** The first `n` antecedents of a derivation, where they are held. */
  lemma {:induction false} FindAnts(u: Setup, st: State, i: nat, j: nat, t: Tree, n: nat) returns (ants: seq<Entry>, ranks: seq<nat>)
    requires Complete(u, st) && Unlimited(u, st.g) && i < j < st.g.n && IsTree(u, st.g, i, j, t) && t.Node? && n <= |t.subs|
    ensures |ants| == n && FindsAll(u, st, t, ants, ranks)
    decreases t, 0, n
  {
    hide FilledFrom, ShelfOf, VarsOf, FinalOk, Unlimited, Side, Root, Cost;
    ants, ranks := [], [];
    if n > 0 {
      ants, ranks := FindAnts(u, st, i, j, t, n - 1);
      var b := D.BinsUsed(t.path)[n - 1];
      D.SmallerBins(st.g, i, j, t.path, b);
      assert SpanOf(t.path, n - 1) == (b.1, b.2) && VarOf(t.path, n - 1) == b.0;
      TreeIsHeld(u, st, b.1, b.2, t.subs[n - 1]);
      assert FinalOk(u, st, b.1, b.2);
      var e := HeldIsInSide(u, st, b.1, b.2, Root(u, b.1, b.2, t.subs[n - 1]));
      assert b == (u.s.lhs(e.item), b.1, b.2);
      var r :| 0 <= r < |Side(u.s, st.shelves, b)| && Side(u.s, st.shelves, b)[r] == e;
      FindsMore(u, st, t, ants, ranks, e, r);
      ants, ranks := ants + [e], ranks + [r];
    }
  }

  /** A match whose antecedents have been found is one of those that the bin was
      filled from. */
  lemma FoundIsEarly(u: Setup, st: State, i: nat, j: nat, t: Tree, ants: seq<Entry>, ranks: seq<nat>) returns (k: nat)
    requires t.Node? && Applies(u, st.g, i, j, t.path, t.rule) && FindsAll(u, st, t, ants, ranks) && |ants| == |t.subs|
    ensures k < |D.Early(st.g, i, j)| && D.Early(st.g, i, j)[k] == t.path
  {
    hide Side, Root, Cost;
    forall b | b in D.BinsUsed(t.path) ensures D.Stocked(st.g, b) {
      var m :| 0 <= m < |D.BinsUsed(t.path)| && D.BinsUsed(t.path)[m] == b;
      assert Finds(u, st, t, ants, ranks, m);
    }
    D.TilesIs(st.g, i, j, t.path);
    D.EarlyHas(st.g, i, j, t.path);
    hide D.Early;
    k :| 0 <= k < |D.Early(st.g, i, j)| && D.Early(st.g, i, j)[k] == t.path;
  }

  lemma NodeIsHeld(u: Setup, st: State, i: nat, j: nat, t: Tree, ants: seq<Entry>, ranks: seq<nat>)
    requires Complete(u, st) && Unlimited(u, st.g) && i < j < st.g.n && t.Node? && Applies(u, st.g, i, j, t.path, t.rule)
    requires FindsAll(u, st, t, ants, ranks) && |ants| == |t.subs|
    requires CostSum(ants, |ants|) + u.s.local(t.rule, ItemsOf(ants), i, j) < IMPOSSIBLE
    ensures var x := u.s.result(t.rule, ItemsOf(ants), i, j);
            && HeldAt(st, i, j, x)
            && st.finals[(i, j)].index[x].cost <= CostSum(ants, |ants|) + u.s.local(t.rule, ItemsOf(ants), i, j)
  {
    hide FilledFrom, ShelfOf, VarsOf, D.Early, Base, CubesAt, FindsAll, CellWay, Info, InBox, Dims, CubeOf, D.Tiles;
    assert FinalOk(u, st, i, j);
    hide FinalOk, Complete;
    var base, cubes, fin := Base(u, st.g, i, j), CubesAt(u, st, i, j), st.finals[(i, j)];
    var k := FoundIsEarly(u, st, i, j, t, ants, ranks);
    EdgesAreFree(u, st.g, t.path);
    if D.BinsUsed(t.path) == [] {
      var c := AloneAt(u, st, i, j, t, k);
      FindsSize(u, st, t, ants, ranks);
      assert ants == [];
      HeldIfOffered(u, base, cubes, i, j, fin, c);
    } else {
      var q := CellAt(u, st, i, j, t, ants, ranks, k);
      HeldIfCell(u, base, cubes, i, j, fin, q);
    }
  }

  lemma FindsSize(u: Setup, st: State, t: Tree, ants: seq<Entry>, ranks: seq<nat>)
    requires FindsAll(u, st, t, ants, ranks)
    ensures t.Node? && |ants| == |ranks| && |ants| <= |t.subs| == |D.BinsUsed(t.path)|
  {
  }

  /** A rule without antecedents is offered before the cubes. */
  lemma AloneAt(u: Setup, st: State, i: nat, j: nat, t: Tree, k: nat) returns (c: nat)
    requires t.Node? && Applies(u, st.g, i, j, t.path, t.rule) && D.BinsUsed(t.path) == []
    requires k < |D.Early(st.g, i, j)| && D.Early(st.g, i, j)[k] == t.path
    ensures c < |Base(u, st.g, i, j)|
    ensures Base(u, st.g, i, j)[c] == Applied(u.s, t.rule, [], [], D.EdgeCost(st.g, t.path), i, j)
  {
    hide D.Early, Applied, AloneOf, D.Tiles;
    var items := DotItems(st.g, i, j);
    assert items[k] == D.ItemOf(st.g, i, j, t.path);
    c := AloneIsThere(u.s, u.rules, items, i, j, |items|, k, t.rule);
    c := |SeedsAt(u, i, j)| + c;
  }

  /** A rule with its antecedents is a cell of a cube. */
  lemma CellAt(u: Setup, st: State, i: nat, j: nat, t: Tree, ants: seq<Entry>, ranks: seq<nat>, k: nat) returns (q: Cell)
    requires t.Node? && Applies(u, st.g, i, j, t.path, t.rule) && D.BinsUsed(t.path) != []
    requires FindsAll(u, st, t, ants, ranks) && |ants| == |t.subs| && D.EdgeCost(st.g, t.path) == 0.0
    requires k < |D.Early(st.g, i, j)| && D.Early(st.g, i, j)[k] == t.path
    ensures InBox(Dims(CubesAt(u, st, i, j)), q)
    ensures Info(u.s, CubesAt(u, st, i, j), i, j)(q).item == u.s.result(t.rule, ItemsOf(ants), i, j)
    ensures Info(u.s, CubesAt(u, st, i, j), i, j)(q).cost == CostSum(ants, |ants|) + u.s.local(t.rule, ItemsOf(ants), i, j)
  {
    hide D.Early, CubesOf, D.Tiles, Side, Root, Cost;
    var items := DotItems(st.g, i, j);
    assert items[k] == D.ItemOf(st.g, i, j, t.path);
    var c := CubeIsThere(u.s, u.rules, st.shelves, items, |items|, k);
    var cube := CubeOf(u.s, u.rules, st.shelves, items[k]);
    var r :| 0 <= r < |cube.rules| && cube.rules[r] == t.rule;
    q := Cell(c, [r] + ranks);
    forall m | 0 <= m < |ants| ensures ranks[m] < |cube.sides[m]| && cube.sides[m][ranks[m]] == ants[m] {
      assert Finds(u, st, t, ants, ranks, m);
      assert cube.sides[m] == Side(u.s, st.shelves, D.BinsUsed(t.path)[m]);
    }
    assert Picked(cube, q.ranks) == ants;
  }

  /** The derivation is one of the item. */
  predicate Derives(u: Setup, g: D.Grammar, i: nat, j: nat, t: Tree, x: Signature) {
    IsTree(u, g, i, j, t) && Root(u, i, j, t) == x
  }

  /** Without limits a finished bin holds an item exactly if it can be derived,
      and at the cost of a least derivation. */
  lemma UnlimitedIsExact(u: Setup, st: State, i: nat, j: nat, x: Signature)
    requires Complete(u, st) && Unlimited(u, st.g) && i < j < st.g.n
    ensures HeldAt(st, i, j, x) <==> exists t :: Derives(u, st.g, i, j, t, x)
    ensures HeldAt(st, i, j, x) ==> exists t :: Derives(u, st.g, i, j, t, x) && Cost(u, i, j, t) == st.finals[(i, j)].index[x].cost
    ensures HeldAt(st, i, j, x) ==> forall t :: Derives(u, st.g, i, j, t, x) ==> st.finals[(i, j)].index[x].cost <= Cost(u, i, j, t)
  {
    hide Complete, Unlimited, IsTree, Root, Cost;
    forall t | Derives(u, st.g, i, j, t, x)
      ensures HeldAt(st, i, j, x) && st.finals[(i, j)].index[x].cost <= Cost(u, i, j, t)
    {
      TreeIsHeld(u, st, i, j, t);
    }
    if HeldAt(st, i, j, x) {
      var t := BestTree(u, st, i, j, x);
      assert Derives(u, st.g, i, j, t, x);
    }
  }
}
