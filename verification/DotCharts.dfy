/** Matching a grammar trie against a lattice and a chart, span by span. */
module DotCharts {
  import opened Wrappers

  datatype Symbol = Word(w: nat) | Nonterminal(x: nat)

  /** A lattice edge with a word and a cost. */
  datatype Edge = Edge(i: nat, j: nat, w: nat, v: real)

  /** One symbol matched: over an edge, or over the items of a nonterminal in
      the bin of a span. */
  datatype Step = Shift(e: nat) | Reduce(x: nat, k: nat, j: nat)

  /** A match of a trie path, symbol by symbol. */
  datatype Tiling = Empty | Then(prior: Tiling, last: Step)

  /** The lattice, the trie's nodes, the spans the grammar covers, and the
      nonterminals in the bins of the spans that are finished. */
  datatype Input = Input(n: nat, edges: seq<Edge>, trie: set<seq<Symbol>>, spans: set<(nat, nat)>, vars: map<(nat, nat), seq<nat>>)

  predicate WellFormed(g: Input) {
    && (forall e :: 0 <= e < |g.edges| ==> g.edges[e].i < g.edges[e].j < g.n)
    && (forall s :: s in g.vars ==> NoRepeat(g.vars[s]))
    && [] in g.trie
  }

  type Grammar = g: Input | WellFormed(g) witness Input(0, [], {[]}, {}, map[])

  function Vars(g: Input, k: nat, j: nat): seq<nat> {
    if (k, j) in g.vars then g.vars[(k, j)] else []
  }

  function SymbolOf(g: Input, s: Step): Symbol {
    match s
    case Shift(e) => Word(if e < |g.edges| then g.edges[e].w else 0)
    case Reduce(x, _, _) => Nonterminal(x)
  }

  /** The trie node reached. */
  function Path(g: Input, t: Tiling): seq<Symbol> {
    match t
    case Empty => []
    case Then(p, s) => Path(g, p) + [SymbolOf(g, s)]
  }

  /** Whether the grammar covers a span. */
  predicate Allowed(g: Input, i: nat, j: nat) {
    (i, j) in g.spans
  }

  /** The match follows a trie path and tiles i..j, through covered spans only. */
  predicate IsTiling(g: Input, i: nat, j: nat, t: Tiling)
    decreases t
  {
    && (i, j) in g.spans && Path(g, t) in g.trie
    && match t
       case Empty => i == j
       case Then(p, Shift(e)) => e < |g.edges| && g.edges[e].j == j && IsTiling(g, i, g.edges[e].i, p)
       case Then(p, Reduce(x, k, m)) => m == j && i <= k < j && x in Vars(g, k, j) && IsTiling(g, i, k, p)
  }

  // ----- the cells in the order they are filled

  function IfInTrie(g: Input, t: Tiling): seq<Tiling> {
    if Path(g, t) in g.trie then [t] else []
  }

  /** One match extended by the first `n` nonterminals of span k..j. */
  function ExtendOne(g: Input, t: Tiling, k: nat, j: nat, n: nat): seq<Tiling>
    requires n <= |Vars(g, k, j)|
  {
    if n == 0 then [] else ExtendOne(g, t, k, j, n - 1) + IfInTrie(g, Then(t, Reduce(Vars(g, k, j)[n - 1], k, j)))
  }

  /** The first `n` matches extended by all nonterminals of span k..j. */
  function ExtendAll(g: Input, ts: seq<Tiling>, k: nat, j: nat, n: nat): seq<Tiling>
    requires n <= |ts|
  {
    if n == 0 then [] else ExtendAll(g, ts, k, j, n - 1) + ExtendOne(g, ts[n - 1], k, j, |Vars(g, k, j)|)
  }

  /** The first `n` matches extended by one edge. */
  function ShiftAll(g: Input, ts: seq<Tiling>, e: nat, n: nat): seq<Tiling>
    requires n <= |ts|
  {
    if n == 0 then [] else ShiftAll(g, ts, e, n - 1) + IfInTrie(g, Then(ts[n - 1], Shift(e)))
  }

  /** By nonterminals of spans that start at i+1..k-1. */
  function ByVars(g: Grammar, i: nat, k: nat, j: nat): seq<Tiling>
    requires k <= j
    decreases j, 1, k
  {
    if k <= i + 1 then []
    else
      var ts := Cell(g, i, k - 1);
      ByVars(g, i, k - 1, j) + ExtendAll(g, ts, k - 1, j, |ts|)
  }

  /** By those of the first `m` edges that end at j. */
  function ByEdges(g: Grammar, i: nat, j: nat, m: nat): seq<Tiling>
    requires m <= |g.edges|
    decreases j, 1, m
  {
    if m == 0 then []
    else if g.edges[m - 1].j != j then ByEdges(g, i, j, m - 1)
    else
      var ts := Cell(g, i, g.edges[m - 1].i);
      ByEdges(g, i, j, m - 1) + ShiftAll(g, ts, m - 1, |ts|)
  }

  /** The matches of span i..j in the order their dot items are added. */
  function Cell(g: Grammar, i: nat, j: nat): seq<Tiling>
    decreases j, 2
  {
    if !Allowed(g, i, j) || j < i then []
    else if i == j then [Empty]
    else
      var ts := Cell(g, i, i);
      ByVars(g, i, j, j) + ByEdges(g, i, j, |g.edges|) + ExtendAll(g, ts, i, j, |ts|)
  }

  /** The matches of span i..j that rest on smaller spans only: those there are
      when the span's own bin is filled. */
  function Early(g: Grammar, i: nat, j: nat): seq<Tiling> {
    if !Allowed(g, i, j) || j <= i then [] else ByVars(g, i, j, j) + ByEdges(g, i, j, |g.edges|)
  }

  // ----- membership

  predicate Extends(g: Input, u: Tiling, k: nat, j: nat) {
    && u.Then? && u.last.Reduce? && u.last.k == k && u.last.j == j && u.last.x in Vars(g, k, j)
    && Path(g, u) in g.trie
  }

  lemma {:induction false} ExtendOneHas(g: Input, t: Tiling, k: nat, j: nat, n: nat, u: Tiling)
    requires n <= |Vars(g, k, j)|
    ensures u in ExtendOne(g, t, k, j, n) <==> Extends(g, u, k, j) && u.prior == t && u.last.x in Vars(g, k, j)[..n]
  {
    if n > 0 { ExtendOneHas(g, t, k, j, n - 1, u); }
  }

  lemma {:induction false} ExtendAllHas(g: Input, ts: seq<Tiling>, k: nat, j: nat, n: nat, u: Tiling)
    requires n <= |ts|
    ensures u in ExtendAll(g, ts, k, j, n) <==> Extends(g, u, k, j) && u.prior in ts[..n]
  {
    if n > 0 {
      ExtendAllHas(g, ts, k, j, n - 1, u);
      ExtendOneHas(g, ts[n - 1], k, j, |Vars(g, k, j)|, u);
    }
  }

  lemma {:induction false} ShiftAllHas(g: Input, ts: seq<Tiling>, e: nat, n: nat, u: Tiling)
    requires n <= |ts|
    ensures u in ShiftAll(g, ts, e, n) <==> u.Then? && u.last == Shift(e) && u.prior in ts[..n] && Path(g, u) in g.trie
  {
    if n > 0 { ShiftAllHas(g, ts, e, n - 1, u); }
  }

  lemma {:induction false} ByVarsHas(g: Grammar, i: nat, k: nat, j: nat, u: Tiling)
    requires k <= j
    ensures u in ByVars(g, i, k, j) <==>
              u.Then? && u.last.Reduce? && i < u.last.k < k && Extends(g, u, u.last.k, j) && u.prior in Cell(g, i, u.last.k)
  {
    hide Extends, Cell;
    if k > i + 1 {
      ByVarsHas(g, i, k - 1, j, u);
      var ts := Cell(g, i, k - 1);
      ExtendAllHas(g, ts, k - 1, j, |ts|, u);
      assert ts[..|ts|] == ts;
      ExtendsIs(g, u, k - 1, j);
    }
  }

  lemma ExtendsIs(g: Input, u: Tiling, k: nat, j: nat)
    ensures Extends(g, u, k, j) ==> u.Then? && u.last.Reduce? && u.last.k == k && u.last.j == j
  {
  }

  lemma {:induction false} ByEdgesHas(g: Grammar, i: nat, j: nat, m: nat, u: Tiling)
    requires m <= |g.edges|
    ensures u in ByEdges(g, i, j, m) <==>
              u.Then? && u.last.Shift? && u.last.e < m && g.edges[u.last.e].j == j && Path(g, u) in g.trie
              && u.prior in Cell(g, i, g.edges[u.last.e].i)
  {
    hide Cell;
    if m > 0 {
      ByEdgesHas(g, i, j, m - 1, u);
      var ts := Cell(g, i, g.edges[m - 1].i);
      ShiftAllHas(g, ts, m - 1, |ts|, u);
      assert ts[..|ts|] == ts;
    }
  }

  /** A cell has exactly the matches that tile its span. */
  lemma {:induction false} CellHas(g: Grammar, i: nat, j: nat, u: Tiling)
    ensures u in Cell(g, i, j) <==> IsTiling(g, i, j, u)
    decreases u
  {
    if IsTiling(g, i, j, u) { TilingGoesRight(g, i, j, u); }
    if Allowed(g, i, j) && i < j {
      hide ByVars, ByEdges, ExtendAll;
      ByVarsHas(g, i, j, j, u);
      ByEdgesHas(g, i, j, |g.edges|, u);
      var ts := Cell(g, i, i);
      ExtendAllHas(g, ts, i, j, |ts|, u);
      assert ts[..|ts|] == ts;
      match u {
        case Empty =>
        case Then(p, Shift(e)) =>
          if e < |g.edges| { CellHas(g, i, g.edges[e].i, p); }
        case Then(p, Reduce(x, k, m)) =>
          CellHas(g, i, k, p);
      }
    }
  }

  lemma {:induction false} TilingGoesRight(g: Grammar, i: nat, j: nat, u: Tiling)
    requires IsTiling(g, i, j, u)
    ensures i <= j && (u.Then? ==> i < j)
  {
    if u.Then? && u.last.Shift? { TilingGoesRight(g, i, g.edges[u.last.e].i, u.prior); }
  }

  // ----- no match twice

  lemma {:induction false} ExtendOneOnce(g: Grammar, t: Tiling, k: nat, j: nat, n: nat)
    requires n <= |Vars(g, k, j)|
    ensures NoRepeat(ExtendOne(g, t, k, j, n))
  {
    if n > 0 {
      ExtendOneOnce(g, t, k, j, n - 1);
      var a, b := ExtendOne(g, t, k, j, n - 1), IfInTrie(g, Then(t, Reduce(Vars(g, k, j)[n - 1], k, j)));
      forall u | u in a ensures u !in b { ExtendOneHas(g, t, k, j, n - 1, u); }
      JoinNoRepeat(a, b);
    }
  }

  lemma {:induction false} ExtendAllOnce(g: Grammar, ts: seq<Tiling>, k: nat, j: nat, n: nat)
    requires n <= |ts| && NoRepeat(ts)
    ensures NoRepeat(ExtendAll(g, ts, k, j, n))
  {
    if n > 0 {
      ExtendAllOnce(g, ts, k, j, n - 1);
      var a, b := ExtendAll(g, ts, k, j, n - 1), ExtendOne(g, ts[n - 1], k, j, |Vars(g, k, j)|);
      ExtendOneOnce(g, ts[n - 1], k, j, |Vars(g, k, j)|);
      forall u | u in a ensures u !in b {
        ExtendAllHas(g, ts, k, j, n - 1, u);
        ExtendOneHas(g, ts[n - 1], k, j, |Vars(g, k, j)|, u);
      }
      JoinNoRepeat(a, b);
    }
  }

  lemma {:induction false} ShiftAllOnce(g: Input, ts: seq<Tiling>, e: nat, n: nat)
    requires n <= |ts| && NoRepeat(ts)
    ensures NoRepeat(ShiftAll(g, ts, e, n))
  {
    if n > 0 {
      ShiftAllOnce(g, ts, e, n - 1);
      var a, b := ShiftAll(g, ts, e, n - 1), IfInTrie(g, Then(ts[n - 1], Shift(e)));
      forall u | u in a ensures u !in b { ShiftAllHas(g, ts, e, n - 1, u); }
      JoinNoRepeat(a, b);
    }
  }

  lemma {:induction false} ByVarsOnce(g: Grammar, i: nat, k: nat, j: nat)
    requires k <= j
    ensures NoRepeat(ByVars(g, i, k, j))
    decreases j, 1, k
  {
    hide Cell, ExtendAll;
    if k > i + 1 {
      ByVarsOnce(g, i, k - 1, j);
      CellOnce(g, i, k - 1);
      var ts := Cell(g, i, k - 1);
      ExtendAllOnce(g, ts, k - 1, j, |ts|);
      var a, b := ByVars(g, i, k - 1, j), ExtendAll(g, ts, k - 1, j, |ts|);
      forall u | u in a ensures u !in b {
        ByVarsAreEarlier(g, i, k - 1, j, u);
        ExtendAllHas(g, ts, k - 1, j, |ts|, u);
      }
      JoinNoRepeat(a, b);
    }
  }

  lemma ByVarsAreEarlier(g: Grammar, i: nat, k: nat, j: nat, u: Tiling)
    requires k <= j && u in ByVars(g, i, k, j)
    ensures u.Then? && u.last.Reduce? && u.last.k < k
  {
    ByVarsHas(g, i, k, j, u);
  }

  lemma {:induction false} ByEdgesOnce(g: Grammar, i: nat, j: nat, m: nat)
    requires m <= |g.edges|
    ensures NoRepeat(ByEdges(g, i, j, m))
    decreases j, 1, m
  {
    if m > 0 {
      ByEdgesOnce(g, i, j, m - 1);
      if g.edges[m - 1].j == j {
        CellOnce(g, i, g.edges[m - 1].i);
        hide Cell;
        var ts := Cell(g, i, g.edges[m - 1].i);
        ShiftAllOnce(g, ts, m - 1, |ts|);
        var a, b := ByEdges(g, i, j, m - 1), ShiftAll(g, ts, m - 1, |ts|);
        forall u | u in a ensures u !in b {
          ByEdgesHas(g, i, j, m - 1, u);
          ShiftAllHas(g, ts, m - 1, |ts|, u);
        }
        JoinNoRepeat(a, b);
      }
    }
  }

  /** A cell has every match once. */
  lemma {:induction false} CellOnce(g: Grammar, i: nat, j: nat)
    ensures NoRepeat(Cell(g, i, j))
    decreases j, 2
  {
    if Allowed(g, i, j) && i < j {
      ByVarsOnce(g, i, j, j);
      ByEdgesOnce(g, i, j, |g.edges|);
      var ts := Cell(g, i, i);
      ExtendAllOnce(g, ts, i, j, |ts|);
      hide ByVars, ByEdges, ExtendAll;
      var a, b, c := ByVars(g, i, j, j), ByEdges(g, i, j, |g.edges|), ExtendAll(g, ts, i, j, |ts|);
      forall u | u in a ensures u !in b {
        ByVarsHas(g, i, j, j, u);
        ByEdgesHas(g, i, j, |g.edges|, u);
      }
      JoinNoRepeat(a, b);
      forall u | u in a + b ensures u !in c {
        ByVarsHas(g, i, j, j, u);
        ByEdgesHas(g, i, j, |g.edges|, u);
        ExtendAllHas(g, ts, i, j, |ts|, u);
      }
      JoinNoRepeat(a + b, c);
    }
  }

  // ----- the chart

  /** A dot item: a trie node, a span, the bins of the nonterminals matched, and
      the cost of the edges used. */
  datatype DotItem = DotItem(f: seq<Symbol>, i: nat, j: nat, antbins: seq<(nat, nat, nat)>, v: real)

  function EdgeCost(g: Input, t: Tiling): real {
    match t
    case Empty => 0.0
    case Then(p, s) => EdgeCost(g, p) + (if s.Shift? && s.e < |g.edges| then g.edges[s.e].v else 0.0)
  }

  function BinsUsed(t: Tiling): seq<(nat, nat, nat)> {
    match t
    case Empty => []
    case Then(p, s) => BinsUsed(p) + (if s.Reduce? then [(s.x, s.k, s.j)] else [])
  }

  /** The edges that a match shifts, in order. */
  function EdgesUsed(t: Tiling): seq<nat> {
    match t
    case Empty => []
    case Then(p, s) => EdgesUsed(p) + (if s.Shift? then [s.e] else [])
  }

  /** The costs of some edges, added up. */
  function CostOf(g: Input, es: seq<nat>): real
    requires forall k :: 0 <= k < |es| ==> es[k] < |g.edges|
  {
    if es == [] then 0.0 else g.edges[es[0]].v + CostOf(g, es[1..])
  }

  lemma {:induction false} CostOfMore(g: Input, es: seq<nat>, e: nat)
    requires e < |g.edges| && forall k :: 0 <= k < |es| ==> es[k] < |g.edges|
    ensures CostOf(g, es + [e]) == CostOf(g, es) + g.edges[e].v
  {
    if es != [] {
      CostOfMore(g, es[1..], e);
      assert (es + [e])[1..] == es[1..] + [e];
    }
  }

  /** The cost of a match is that of the edges it shifts. */
  lemma {:induction false} EdgeCostIs(g: Input, i: nat, j: nat, t: Tiling)
    requires Tiles(g, i, j, t)
    ensures forall k :: 0 <= k < |EdgesUsed(t)| ==> EdgesUsed(t)[k] < |g.edges|
    ensures EdgeCost(g, t) == CostOf(g, EdgesUsed(t))
    decreases t
  {
    assert CostOf(g, []) == 0.0;
    hide CostOf;
    if t.Then? {
      match t.last {
        case Shift(e) =>
          EdgeCostIs(g, i, g.edges[e].i, t.prior);
          CostOfMore(g, EdgesUsed(t.prior), e);
        case Reduce(x, k, m) =>
          EdgeCostIs(g, i, k, t.prior);
          assert EdgesUsed(t) == EdgesUsed(t.prior);
      }
    }
  }

  /** The dot item that stands for a match. */
  function ItemOf(g: Input, i: nat, j: nat, t: Tiling): DotItem {
    DotItem(Path(g, t), i, j, BinsUsed(t), EdgeCost(g, t))
  }

  function Items(g: Input, i: nat, j: nat, ts: seq<Tiling>): (r: seq<DotItem>)
    ensures |r| == |ts| && forall k :: 0 <= k < |ts| ==> r[k] == ItemOf(g, i, j, ts[k])
  {
    seq(|ts|, k requires 0 <= k < |ts| => ItemOf(g, i, j, ts[k]))
  }

  type Bins = map<(nat, nat), seq<DotItem>>

  function BinAt(bins: Bins, i: nat, j: nat): seq<DotItem> {
    if (i, j) in bins then bins[(i, j)] else []
  }

  /** Only one cell is different. */
  ghost predicate OnlyCell(a: Bins, b: Bins, i: nat, j: nat) {
    forall k: nat, m: nat {:trigger BinAt(b, k, m)} :: (k, m) != (i, j) ==> BinAt(b, k, m) == BinAt(a, k, m)
  }

  /** Span a..b comes before span (length l, start i) in the order of filling. */
  predicate Before(a: nat, b: nat, l: nat, i: nat) {
    a <= b && (b - a < l || (b - a == l && a < i))
  }

  // ----- nonterminals that become known

  /** The same input, with the same nonterminals in all smaller spans of i..j. */
  ghost predicate Agree(g: Input, h: Input, i: nat, j: nat) {
    && g.n == h.n && g.edges == h.edges && g.trie == h.trie && g.spans == h.spans
    && forall k: nat, m: nat {:trigger Vars(h, k, m)} :: i <= k < m <= j && (k, m) != (i, j) ==> Vars(g, k, m) == Vars(h, k, m)
  }

  lemma AgreeInside(g: Input, h: Input, i: nat, j: nat, k: nat, m: nat)
    requires Agree(g, h, i, j) && i <= k <= m <= j && (k, m) != (i, j)
    ensures Agree(g, h, k, m) && (k < m ==> Vars(g, k, m) == Vars(h, k, m))
  {
  }

  lemma {:induction false} PathSame(g: Input, h: Input, t: Tiling)
    requires g.edges == h.edges
    ensures Path(g, t) == Path(h, t) && EdgeCost(g, t) == EdgeCost(h, t)
  {
    if t.Then? { PathSame(g, h, t.prior); }
  }

  lemma {:induction false} ExtendOneSame(g: Input, h: Input, t: Tiling, k: nat, j: nat, n: nat)
    requires g.edges == h.edges && g.trie == h.trie && Vars(g, k, j) == Vars(h, k, j) && n <= |Vars(g, k, j)|
    ensures ExtendOne(g, t, k, j, n) == ExtendOne(h, t, k, j, n)
  {
    if n > 0 {
      ExtendOneSame(g, h, t, k, j, n - 1);
      PathSame(g, h, Then(t, Reduce(Vars(g, k, j)[n - 1], k, j)));
    }
  }

  lemma {:induction false} ExtendAllSame(g: Input, h: Input, ts: seq<Tiling>, k: nat, j: nat, n: nat)
    requires g.edges == h.edges && g.trie == h.trie && Vars(g, k, j) == Vars(h, k, j) && n <= |ts|
    ensures ExtendAll(g, ts, k, j, n) == ExtendAll(h, ts, k, j, n)
  {
    if n > 0 {
      ExtendAllSame(g, h, ts, k, j, n - 1);
      ExtendOneSame(g, h, ts[n - 1], k, j, |Vars(g, k, j)|);
    }
  }

  lemma {:induction false} ShiftAllSame(g: Input, h: Input, ts: seq<Tiling>, e: nat, n: nat)
    requires g.edges == h.edges && g.trie == h.trie && n <= |ts|
    ensures ShiftAll(g, ts, e, n) == ShiftAll(h, ts, e, n)
  {
    if n > 0 {
      ShiftAllSame(g, h, ts, e, n - 1);
      PathSame(g, h, Then(ts[n - 1], Shift(e)));
    }
  }

  lemma {:induction false} ByVarsSame(g: Grammar, h: Grammar, i: nat, k: nat, j: nat)
    requires Agree(g, h, i, j) && k <= j
    ensures ByVars(g, i, k, j) == ByVars(h, i, k, j)
    decreases j, 1, k
  {
    hide Cell, ExtendAll;
    if k > i + 1 {
      ByVarsSame(g, h, i, k - 1, j);
      AgreeInside(g, h, i, j, i, k - 1);
      AgreeInside(g, h, i, j, k - 1, j);
      CellSame(g, h, i, k - 1);
      ExtendAllSame(g, h, Cell(g, i, k - 1), k - 1, j, |Cell(g, i, k - 1)|);
    }
  }

  lemma {:induction false} ByEdgesSame(g: Grammar, h: Grammar, i: nat, j: nat, m: nat)
    requires Agree(g, h, i, j) && m <= |g.edges|
    ensures ByEdges(g, i, j, m) == ByEdges(h, i, j, m)
    decreases j, 1, m
  {
    hide Cell;
    if m > 0 {
      ByEdgesSame(g, h, i, j, m - 1);
      var e := g.edges[m - 1];
      if e.j == j {
        if i <= e.i {
          AgreeInside(g, h, i, j, i, e.i);
          CellSame(g, h, i, e.i);
        } else {
          LeftIsEmpty(g, i, e.i);
          LeftIsEmpty(h, i, e.i);
        }
        ShiftAllSame(g, h, Cell(g, i, e.i), m - 1, |Cell(g, i, e.i)|);
      }
    }
  }

  /** A cell depends on nothing but its own span. */
  lemma {:induction false} CellSame(g: Grammar, h: Grammar, i: nat, j: nat)
    requires Agree(g, h, i, j) && (i < j ==> Vars(g, i, j) == Vars(h, i, j))
    ensures Cell(g, i, j) == Cell(h, i, j)
    decreases j, 2
  {
    if i < j {
      ByVarsSame(g, h, i, j, j);
      ByEdgesSame(g, h, i, j, |g.edges|);
      ExtendAllSame(g, h, Cell(g, i, i), i, j, |Cell(g, i, i)|);
    }
  }

  /** What a cell has when its bin is filled: the matches that do not rest on the
      span itself. */
  lemma EarlyHas(g: Grammar, i: nat, j: nat, u: Tiling)
    ensures u in Early(g, i, j) <==> IsTiling(g, i, j, u) && u.Then? && !(u.last.Reduce? && u.last.k == i)
  {
    CellHas(g, i, j, u);
    if Allowed(g, i, j) && i < j {
      ByVarsHas(g, i, j, j, u);
      ByEdgesHas(g, i, j, |g.edges|, u);
      var ts := Cell(g, i, i);
      ExtendAllHas(g, ts, i, j, |ts|, u);
    }
  }

  /** A bin used lies within the span and has the nonterminal. */
  predicate BinWithin(g: Input, i: nat, j: nat, b: (nat, nat, nat)) {
    i <= b.1 < b.2 <= j && b.0 in Vars(g, b.1, b.2)
  }

  lemma {:induction false} BinsAreWithin(g: Grammar, i: nat, j: nat, u: Tiling)
    requires IsTiling(g, i, j, u)
    ensures i <= j && forall b :: b in BinsUsed(u) ==> BinWithin(g, i, j, b)
  {
    if u.Then? {
      var k := if u.last.Shift? then g.edges[u.last.e].i else u.last.k;
      BinsAreWithin(g, i, k, u.prior);
      forall b | b in BinsUsed(u) ensures BinWithin(g, i, j, b) {
        if b in BinsUsed(u.prior) { assert BinWithin(g, i, k, b); }
      }
    }
  }

  /** The match follows a trie path and tiles i..j, whatever nonterminals its
      spans have. */
  predicate Tiles(g: Input, i: nat, j: nat, t: Tiling)
    decreases t
  {
    && (i, j) in g.spans && Path(g, t) in g.trie
    && match t
       case Empty => i == j
       case Then(p, Shift(e)) => e < |g.edges| && g.edges[e].j == j && Tiles(g, i, g.edges[e].i, p)
       case Then(p, Reduce(x, k, m)) => m == j && i <= k < j && Tiles(g, i, k, p)
  }

  /** The bin of the span has the nonterminal. */
  predicate Stocked(g: Input, b: (nat, nat, nat)) {
    b.0 in Vars(g, b.1, b.2)
  }

  lemma {:induction false} TilesIs(g: Input, i: nat, j: nat, t: Tiling)
    ensures IsTiling(g, i, j, t) <==> Tiles(g, i, j, t) && forall b :: b in BinsUsed(t) ==> Stocked(g, b)
    decreases t
  {
    if t.Then? {
      match t.last {
        case Shift(e) =>
          if e < |g.edges| { TilesIs(g, i, g.edges[e].i, t.prior); }
        case Reduce(x, k, m) =>
          TilesIs(g, i, k, t.prior);
          assert BinsUsed(t) == BinsUsed(t.prior) + [(x, k, m)];
          assert (x, k, m) in BinsUsed(t);
          assert Stocked(g, (x, k, m)) <==> x in Vars(g, k, m);
          assert forall b :: b in BinsUsed(t.prior) ==> b in BinsUsed(t);
      }
    }
  }

  /** A bin within a span. */
  predicate SpanWithin(i: nat, j: nat, b: (nat, nat, nat)) {
    i <= b.1 < b.2 <= j
  }

  lemma {:induction false} TileBins(g: Grammar, i: nat, j: nat, t: Tiling)
    requires Tiles(g, i, j, t)
    ensures i <= j && (t.Then? ==> i < j) && forall b :: b in BinsUsed(t) ==> SpanWithin(i, j, b)
    decreases t
  {
    if t.Then? {
      var k := if t.last.Shift? then g.edges[t.last.e].i else t.last.k;
      TileBins(g, i, k, t.prior);
      forall b | b in BinsUsed(t) ensures SpanWithin(i, j, b) {
        if b in BinsUsed(t.prior) { assert SpanWithin(i, k, b); }
      }
    }
  }

  /** A match that does not end with a symbol over its whole span uses the bins
      of smaller spans only. */
  lemma SmallerBins(g: Grammar, i: nat, j: nat, t: Tiling, b: (nat, nat, nat))
    requires Tiles(g, i, j, t) && !(t.Then? && t.last.Reduce? && t.last.k == i) && b in BinsUsed(t)
    ensures SpanWithin(i, j, b) && (b.1, b.2) != (i, j)
  {
    TileBins(g, i, j, t);
    var k := if t.last.Shift? then g.edges[t.last.e].i else t.last.k;
    TileBins(g, i, k, t.prior);
    if b in BinsUsed(t.prior) { assert SpanWithin(i, k, b); }
  }

  /** The bins that a match of smaller spans uses are those of smaller spans. */
  lemma EarlyBins(g: Grammar, i: nat, j: nat, u: Tiling, b: (nat, nat, nat))
    requires u in Early(g, i, j) && b in BinsUsed(u)
    ensures BinWithin(g, i, j, b) && (b.1, b.2) != (i, j)
  {
    EarlyHas(g, i, j, u);
    BinsAreWithin(g, i, j, u);
    var k := if u.last.Shift? then g.edges[u.last.e].i else u.last.k;
    BinsAreWithin(g, i, k, u.prior);
    if b in BinsUsed(u.prior) { assert BinWithin(g, i, k, b); }
  }

  /** What a cell has when its bin is filled depends on smaller spans only. */
  lemma EarlySame(g: Grammar, h: Grammar, i: nat, j: nat)
    requires Agree(g, h, i, j)
    ensures Early(g, i, j) == Early(h, i, j)
  {
    if i < j {
      ByVarsSame(g, h, i, j, j);
      ByEdgesSame(g, h, i, j, |g.edges|);
    }
  }

  lemma ItemsSame(g: Input, h: Input, i: nat, j: nat, ts: seq<Tiling>)
    requires g.edges == h.edges
    ensures Items(g, i, j, ts) == Items(h, i, j, ts)
  {
    forall k | 0 <= k < |ts| ensures ItemOf(g, i, j, ts[k]) == ItemOf(h, i, j, ts[k]) { PathSame(g, h, ts[k]); }
  }

  /** The nonterminals of one more span. */
  function Finished(g: Grammar, i: nat, j: nat, ys: seq<nat>): Grammar
    requires NoRepeat(ys)
  {
    g.(vars := g.vars[(i, j) := ys])
  }

  /** They change nothing in spans that do not hold that span. */
  lemma FinishedSame(g: Grammar, i: nat, j: nat, ys: seq<nat>, a: nat, b: nat)
    requires NoRepeat(ys) && !(a <= i && j <= b)
    ensures Cell(Finished(g, i, j, ys), a, b) == Cell(g, a, b)
    ensures Items(Finished(g, i, j, ys), a, b, Cell(g, a, b)) == Items(g, a, b, Cell(g, a, b))
  {
    hide Cell, Items;
    CellSame(g, Finished(g, i, j, ys), a, b);
    ItemsSame(g, Finished(g, i, j, ys), a, b, Cell(g, a, b));
  }

  ghost predicate BinsFilled(g: Grammar, bins: Bins, l: nat, i: nat) {
    forall a: nat, b: nat {:trigger Before(a, b, l, i)} :: a < b < g.n || (a == b && a + 1 < g.n) ==>
      BinAt(bins, a, b) == if Before(a, b, l, i) then Items(g, a, b, Cell(g, a, b)) else []
  }

  class DotChart {
    var g: Grammar
    var bins: Bins

    /** The spans so far are final and the others are untouched. */
    ghost predicate Filled(l: nat, i: nat)
      reads this
    {
      BinsFilled(g, bins, l, i)
    }

    /** The next span has what smaller spans give it. */
    ghost predicate HalfFilled(l: nat, i: nat)
      reads this
    {
      && BinAt(bins, i, i + l) == Items(g, i, i + l, Early(g, i, i + l))
      && forall a: nat, b: nat {:trigger Before(a, b, l, i)} :: (a, b) != (i, i + l) && (a < b < g.n || (a == b && a + 1 < g.n)) ==>
           BinAt(bins, a, b) == if Before(a, b, l, i) then Items(g, a, b, Cell(g, a, b)) else []
    }

    /** There is nothing to the left of where a span starts. */
    ghost predicate NothingLeft()
      reads this
    {
      forall a: nat, b: nat {:trigger BinAt(bins, a, b)} :: b < a ==> BinAt(bins, a, b) == []
    }

    constructor (g: Grammar)
      ensures this.g == g && bins == map[] && fresh(this)
    {
      this.g, bins := g, map[];
    }

    /** Adds the item of an extended match if the trie has a node for it. */
    method Add(i: nat, j: nat, item: DotItem, ghost u: Tiling, ghost sofar: seq<Tiling>)
      requires item == ItemOf(g, i, j, u) && BinAt(bins, i, j) == Items(g, i, j, sofar)
      modifies this`bins
      ensures BinAt(bins, i, j) == Items(g, i, j, sofar + IfInTrie(g, u)) && OnlyCell(old(bins), bins, i, j)
    {
      MoreItems(g, i, j, sofar, u);
      if item.f in g.trie {
        bins := bins[(i, j) := BinAt(bins, i, j) + [item]];
      }
    }

    /** Extends one item by the nonterminals of k..j. */
    method ExtendDotItem(item: DotItem, i: nat, k: nat, j: nat, ghost t: Tiling, ghost sofar: seq<Tiling>)
      requires item == ItemOf(g, i, k, t)
      requires BinAt(bins, i, j) == Items(g, i, j, sofar)
      modifies this`bins
      ensures BinAt(bins, i, j) == Items(g, i, j, sofar + ExtendOne(g, t, k, j, |Vars(g, k, j)|))
      ensures OnlyCell(old(bins), bins, i, j)
    {
      hide Items, IfInTrie, OnlyCell;
      var ys := Vars(g, k, j);
      ghost var b0 := bins;
      SameCells(bins, i, j);
      assert sofar + ExtendOne(g, t, k, j, 0) == sofar;
      for y := 0 to |ys|
        invariant BinAt(bins, i, j) == Items(g, i, j, sofar + ExtendOne(g, t, k, j, y)) && OnlyCell(b0, bins, i, j)
      {
        ghost var u := Then(t, Reduce(ys[y], k, j));
        ghost var b1 := bins;
        assert sofar + ExtendOne(g, t, k, j, y + 1) == (sofar + ExtendOne(g, t, k, j, y)) + IfInTrie(g, u);
        Add(i, j, DotItem(item.f + [Nonterminal(ys[y])], i, j, item.antbins + [(ys[y], k, j)], item.v),
            u, sofar + ExtendOne(g, t, k, j, y));
        OnlyCellOn(b0, b1, bins, i, j);
      }
    }

    /** Extends the items of i..k by the nonterminals of k..j. */
    method ExtendDotItems(i: nat, k: nat, j: nat, ghost ts: seq<Tiling>, ghost sofar: seq<Tiling>)
      requires k < j && BinAt(bins, i, k) == Items(g, i, k, ts)
      requires BinAt(bins, i, j) == Items(g, i, j, sofar)
      modifies this`bins
      ensures BinAt(bins, i, j) == Items(g, i, j, sofar + ExtendAll(g, ts, k, j, |ts|))
      ensures OnlyCell(old(bins), bins, i, j)
    {
      hide OnlyCell, ItemOf, ExtendOne;
      var items := BinAt(bins, i, k);
      ghost var b0 := bins;
      SameCells(bins, i, j);
      assert sofar + ExtendAll(g, ts, k, j, 0) == sofar;
      for d := 0 to |items|
        invariant BinAt(bins, i, j) == Items(g, i, j, sofar + ExtendAll(g, ts, k, j, d)) && OnlyCell(b0, bins, i, j)
      {
        ghost var b1 := bins;
        assert sofar + ExtendAll(g, ts, k, j, d + 1)
            == (sofar + ExtendAll(g, ts, k, j, d)) + ExtendOne(g, ts[d], k, j, |Vars(g, k, j)|);
        ExtendDotItem(items[d], i, k, j, ts[d], sofar + ExtendAll(g, ts, k, j, d));
        OnlyCellOn(b0, b1, bins, i, j);
      }
    }

    /** Extends the items that end where an edge to j starts, by that edge. */
    method ShiftEdge(i: nat, j: nat, e: nat, ghost ts: seq<Tiling>, ghost sofar: seq<Tiling>)
      requires e < |g.edges| && g.edges[e].j == j
      requires BinAt(bins, i, g.edges[e].i) == Items(g, i, g.edges[e].i, ts)
      requires BinAt(bins, i, j) == Items(g, i, j, sofar)
      modifies this`bins
      ensures BinAt(bins, i, j) == Items(g, i, j, sofar + ShiftAll(g, ts, e, |ts|))
      ensures OnlyCell(old(bins), bins, i, j)
    {
      hide OnlyCell, IfInTrie;
      var edge := g.edges[e];
      var items := BinAt(bins, i, edge.i);
      ghost var b0 := bins;
      SameCells(bins, i, j);
      assert sofar + ShiftAll(g, ts, e, 0) == sofar;
      for d := 0 to |items|
        invariant BinAt(bins, i, j) == Items(g, i, j, sofar + ShiftAll(g, ts, e, d)) && OnlyCell(b0, bins, i, j)
      {
        ghost var u := Then(ts[d], Shift(e));
        ghost var b1 := bins;
        assert sofar + ShiftAll(g, ts, e, d + 1) == (sofar + ShiftAll(g, ts, e, d)) + IfInTrie(g, u);
        Add(i, j, DotItem(items[d].f + [Word(edge.w)], i, j, items[d].antbins, items[d].v + edge.v),
            u, sofar + ShiftAll(g, ts, e, d));
        OnlyCellOn(b0, b1, bins, i, j);
      }
    }

    /** The items of span i..j that end with a nonterminal of a smaller span. */
    method ExpandByVars(i: nat, j: nat, l: nat)
      requires i < j < g.n && j - i == l && Filled(l, i)
      modifies this`bins
      ensures BinAt(bins, i, j) == Items(g, i, j, ByVars(g, i, j, j)) && OnlyCell(old(bins), bins, i, j)
    {
      hide OnlyCell, Items, Cell, ExtendAll;
      ghost var b0 := bins;
      SameCells(bins, i, j);
      NoItems(g, i, j);
      assert !Before(i, j, l, i);
      for k := i + 1 to j
        invariant BinAt(bins, i, j) == Items(g, i, j, ByVars(g, i, k, j)) && OnlyCell(b0, bins, i, j)
      {
        ghost var b1 := bins;
        assert Before(i, k, l, i);
        CellIs(b0, b1, i, j, i, k);
        ExtendDotItems(i, k, j, Cell(g, i, k), ByVars(g, i, k, j));
        OnlyCellOn(b0, b1, bins, i, j);
      }
    }

    /** The cells that edges to j are shifted onto. */
    lemma EdgeStarts(b0: Bins, b1: Bins, i: nat, j: nat, l: nat, e: nat)
      requires i < j < g.n && j - i == l && e < |g.edges| && g.edges[e].j == j && OnlyCell(b0, b1, i, j)
      requires BinsFilled(g, b0, l, i) && forall a: nat, b: nat {:trigger BinAt(b0, a, b)} :: b < a ==> BinAt(b0, a, b) == []
      ensures BinAt(b1, i, g.edges[e].i) == Items(g, i, g.edges[e].i, Cell(g, i, g.edges[e].i))
    {
      hide OnlyCell, Items, Cell;
      var m := g.edges[e].i;
      CellIs(b0, b1, i, j, i, m);
      if m < i {
        LeftIsEmpty(g, i, m);
        NoItems(g, i, m);
      } else {
        assert Before(i, m, l, i);
      }
    }

    lemma NoEdges(i: nat, j: nat, sofar: seq<Tiling>)
      ensures sofar + ByEdges(g, i, j, 0) == sofar
    {
    }

    lemma NextEdge(i: nat, j: nat, e: nat, sofar: seq<Tiling>)
      requires e < |g.edges| && g.edges[e].j == j
      ensures var ts := Cell(g, i, g.edges[e].i);
              sofar + ByEdges(g, i, j, e + 1) == (sofar + ByEdges(g, i, j, e)) + ShiftAll(g, ts, e, |ts|)
    {
      hide Cell, ShiftAll;
      var ts := Cell(g, i, g.edges[e].i);
      assert ByEdges(g, i, j, e + 1) == ByEdges(g, i, j, e) + ShiftAll(g, ts, e, |ts|);
    }

    lemma OtherEdge(i: nat, j: nat, e: nat)
      requires e < |g.edges| && g.edges[e].j != j
      ensures ByEdges(g, i, j, e + 1) == ByEdges(g, i, j, e)
    {
    }

    /** The items of span i..j from smaller spans. */
    method ExpandCell(i: nat, j: nat, l: nat)
      requires i < j < g.n && j - i == l && Filled(l, i) && NothingLeft()
      modifies this`bins
      ensures BinAt(bins, i, j) == Items(g, i, j, ByVars(g, i, j, j) + ByEdges(g, i, j, |g.edges|))
      ensures OnlyCell(old(bins), bins, i, j)
    {
      hide OnlyCell, Items, Cell, ByVars, ByEdges, ShiftAll, BinsFilled;
      ghost var b0, sofar := bins, ByVars(g, i, j, j);
      ExpandByVars(i, j, l);
      NoEdges(i, j, sofar);
      for e := 0 to |g.edges|
        invariant BinAt(bins, i, j) == Items(g, i, j, sofar + ByEdges(g, i, j, e)) && OnlyCell(b0, bins, i, j)
      {
        if g.edges[e].j == j {
          ghost var b1, ts := bins, Cell(g, i, g.edges[e].i);
          EdgeStarts(b0, b1, i, j, l, e);
          NextEdge(i, j, e, sofar);
          ShiftEdge(i, j, e, ts, sofar + ByEdges(g, i, j, e));
          OnlyCellOn(b0, b1, bins, i, j);
        } else {
          OtherEdge(i, j, e);
        }
      }
    }

    /** The root item at every node but the last. */
    method Start()
      requires g.n > 0 && bins == map[]
      modifies this`bins
      ensures Filled(1, 0) && NothingLeft()
    {
      for i := 0 to g.n - 1
        invariant forall a: nat, b: nat {:trigger BinAt(bins, a, b)} ::
                    BinAt(bins, a, b) == if a == b < i then Items(g, a, a, Cell(g, a, a)) else []
      {
        NoItems(g, i, i);
        assert Cell(g, i, i) == if Allowed(g, i, i) then [Empty] else [];
        assert Items(g, i, i, [Empty]) == [DotItem([], i, i, [], 0.0)];
        ghost var b0 := bins;
        if Allowed(g, i, i) {
          bins := bins[(i, i) := [DotItem([], i, i, [], 0.0)]];
        }
        assert BinAt(bins, i, i) == Items(g, i, i, Cell(g, i, i));
        forall a: nat, b: nat ensures BinAt(bins, a, b) == if a == b < i + 1 then Items(g, a, a, Cell(g, a, a)) else [] {
          assert (a, b) != (i, i) ==> BinAt(bins, a, b) == BinAt(b0, a, b);
        }
      }
    }

    /** Creates the items of the next span from smaller spans. */
    method OpenSpan(l: nat, i: nat)
      requires 0 < l && i + l < g.n && Filled(l, i) && NothingLeft()
      modifies this`bins
      ensures HalfFilled(l, i) && NothingLeft()
    {
      hide Items, ByVars, ByEdges, Cell;
      var j := i + l;
      ghost var b0 := bins;
      SameCells(bins, i, j);
      assert !Before(i, j, l, i);
      NoItems(g, i, j);
      if Allowed(g, i, j) {
        ExpandCell(i, j, l);
      }
      forall a: nat, b: nat | (a, b) != (i, j) && (a < b < g.n || (a == b && a + 1 < g.n))
        ensures BinAt(bins, a, b) == if Before(a, b, l, i) then Items(g, a, b, Cell(g, a, b)) else []
      {
        CellIs(b0, bins, i, j, a, b);
      }
      forall a: nat, b: nat | b < a ensures BinAt(bins, a, b) == [] { CellIs(b0, bins, i, j, a, b); }
    }

    /** Takes the nonterminals of the next span's bin, and creates the items
        that rest on them alone. */
    method CloseSpan(l: nat, i: nat, ys: seq<nat>)
      requires 0 < l && i + l < g.n && HalfFilled(l, i) && NothingLeft() && NoRepeat(ys)
      modifies this
      ensures g == Finished(old(g), i, i + l, ys)
      ensures Filled(l, i + 1) && NothingLeft()
    {
      hide Items, ByVars, ByEdges, ExtendAll;
      var j := i + l;
      ghost var g0, b0 := g, bins;
      g := Finished(g, i, j, ys);
      EarlySame(g0, g, i, j);
      ItemsSame(g0, g, i, j, Early(g, i, j));
      SameCells(bins, i, j);
      FinishedSame(g0, i, j, ys, i, i);
      assert Before(i, i, l, i);
      if Allowed(g, i, j) {
        ExtendDotItems(i, i, j, Cell(g, i, i), Early(g, i, j));
      }
      assert BinAt(bins, i, j) == Items(g, i, j, Cell(g, i, j));
      hide Cell, Finished;
      forall a: nat, b: nat | a < b < g.n || (a == b && a + 1 < g.n)
        ensures BinAt(bins, a, b) == if Before(a, b, l, i + 1) then Items(g, a, b, Cell(g, a, b)) else []
      {
        CellIs(b0, bins, i, j, a, b);
        assert Before(a, b, l, i + 1) <==> Before(a, b, l, i) || (a, b) == (i, j);
        if Before(a, b, l, i) { FinishedSame(g0, i, j, ys, a, b); }
      }
      forall a: nat, b: nat | b < a ensures BinAt(bins, a, b) == [] { CellIs(b0, bins, i, j, a, b); }
    }

    lemma NextLength(l: nat)
      requires l < g.n && Filled(l, g.n - l)
      ensures Filled(l + 1, 0)
    {
      hide Items, Cell;
      forall a: nat, b: nat | a < b < g.n || (a == b && a + 1 < g.n)
        ensures BinAt(bins, a, b) == if Before(a, b, l + 1, 0) then Items(g, a, b, Cell(g, a, b)) else []
      {
        assert Before(a, b, l, g.n - l) <==> Before(a, b, l + 1, 0);
      }
    }
  }

  lemma LeftIsEmpty(g: Grammar, i: nat, m: nat)
    requires m < i
    ensures Cell(g, i, m) == []
  {
  }

  lemma MoreItems(g: Input, i: nat, j: nat, ts: seq<Tiling>, u: Tiling)
    ensures Items(g, i, j, ts + [u]) == Items(g, i, j, ts) + [ItemOf(g, i, j, u)]
    ensures ts + [] == ts
  {
  }

  lemma NoItems(g: Input, i: nat, j: nat)
    ensures Items(g, i, j, []) == []
  {
  }

  lemma SameCells(a: Bins, i: nat, j: nat)
    ensures OnlyCell(a, a, i, j)
  {
  }

  lemma OnlyCellOn(a: Bins, b: Bins, c: Bins, i: nat, j: nat)
    requires OnlyCell(a, b, i, j) && OnlyCell(b, c, i, j)
    ensures OnlyCell(a, c, i, j)
  {
  }

  lemma CellIs(a: Bins, b: Bins, i: nat, j: nat, k: nat, m: nat)
    requires OnlyCell(a, b, i, j)
    ensures (k, m) != (i, j) ==> BinAt(b, k, m) == BinAt(a, k, m)
  {
  }
}
