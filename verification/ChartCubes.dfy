/** Finished bins in order of cost, and the cubes of rules and antecedents that a
    span's dot items make of them. */
module ChartCubes {
  import opened Wrappers
  import opened Beams
  import opened Cubes
  import opened CellExpansion
  import D = DotCharts

  // ----- finished bins

  /** An item of a finished bin with its cost. */
  datatype Entry = Entry(item: Signature, cost: real)

  type Shelf = seq<Entry>

  predicate Shelved(shelf: Shelf, x: Signature) {
    exists k :: 0 <= k < |shelf| && shelf[k].item == x
  }

  /** The shelf has the items of the index, each once, cheapest first. */
  predicate ShelfOf(shelf: Shelf, index: Index) {
    && (forall k :: 0 <= k < |shelf| ==> shelf[k].item in index && index[shelf[k].item].cost == shelf[k].cost)
    && (forall k, m :: 0 <= k < m < |shelf| ==> shelf[k].item != shelf[m].item && shelf[k].cost <= shelf[m].cost)
    && (forall x :: x in index ==> Shelved(shelf, x))
  }

  /** What the models say: the nonterminal of an item, and for a rule with its
      antecedents over a span, what it adds to their cost and which item comes
      of it. */
  datatype Scoring = Scoring(lhs: Signature -> nat, local: (nat, seq<Signature>, nat, nat) -> real,
                             result: (nat, seq<Signature>, nat, nat) -> Signature)

  /** The shelf's first `n` items of one nonterminal. */
  function OfVar(s: Scoring, shelf: Shelf, x: nat, n: nat): Shelf
    requires n <= |shelf|
  {
    if n == 0 then []
    else if s.lhs(shelf[n - 1].item) == x then OfVar(s, shelf, x, n - 1) + [shelf[n - 1]]
    else OfVar(s, shelf, x, n - 1)
  }

  /** The nonterminals of the shelf's first `n` items. */
  function VarsOf(s: Scoring, shelf: Shelf, n: nat): seq<nat>
    requires n <= |shelf|
  {
    if n == 0 then []
    else
      var xs, x := VarsOf(s, shelf, n - 1), s.lhs(shelf[n - 1].item);
      if x in xs then xs else xs + [x]
  }

  lemma {:induction false} VarsOfHas(s: Scoring, shelf: Shelf, n: nat, x: nat)
    requires n <= |shelf|
    ensures NoRepeat(VarsOf(s, shelf, n))
    ensures x in VarsOf(s, shelf, n) <==> exists k :: 0 <= k < n && s.lhs(shelf[k].item) == x
  {
    if n > 0 {
      VarsOfHas(s, shelf, n - 1, x);
      VarsOfHas(s, shelf, n - 1, s.lhs(shelf[n - 1].item));
    }
  }

  lemma {:induction false} OfVarHas(s: Scoring, shelf: Shelf, x: nat, n: nat, e: Entry)
    requires n <= |shelf|
    ensures e in OfVar(s, shelf, x, n) <==> e in shelf[..n] && s.lhs(e.item) == x
  {
    if n > 0 {
      OfVarHas(s, shelf, x, n - 1, e);
      assert shelf[..n] == shelf[..n - 1] + [shelf[n - 1]];
    }
  }

  predicate Rises(side: Shelf) {
    forall a, b :: 0 <= a < b < |side| ==> side[a].cost <= side[b].cost && side[a].item != side[b].item
  }

  /** The items of one nonterminal are in order of cost, and each comes once. */
  lemma {:induction false} OfVarRises(s: Scoring, shelf: Shelf, index: Index, x: nat, n: nat)
    requires ShelfOf(shelf, index) && n <= |shelf|
    ensures Rises(OfVar(s, shelf, x, n))
  {
    if n > 0 {
      OfVarRises(s, shelf, index, x, n - 1);
      var before := OfVar(s, shelf, x, n - 1);
      forall a | 0 <= a < |before| ensures before[a].cost <= shelf[n - 1].cost && before[a].item != shelf[n - 1].item {
        OfVarHas(s, shelf, x, n - 1, before[a]);
        var k :| 0 <= k < n - 1 && shelf[..n - 1][k] == before[a];
        assert shelf[k] == before[a];
      }
    }
  }

  // ----- cubes

  /** The rules of a trie node with the finished items of each nonterminal
      matched, the spans they are from, and the cost of the edges. */
  datatype Cube = Cube(rules: seq<nat>, sides: seq<Shelf>, spans: seq<(nat, nat)>, v: real)

  type Shelves = map<(nat, nat), Shelf>
  type Rules = map<seq<D.Symbol>, seq<nat>>

  function ShelfAt(shelves: Shelves, i: nat, j: nat): Shelf {
    if (i, j) in shelves then shelves[(i, j)] else []
  }

  /** The items of one bin used. */
  function Side(s: Scoring, shelves: Shelves, b: (nat, nat, nat)): Shelf {
    OfVar(s, ShelfAt(shelves, b.1, b.2), b.0, |ShelfAt(shelves, b.1, b.2)|)
  }

  function CubeOf(s: Scoring, rules: Rules, shelves: Shelves, d: D.DotItem): Cube {
    Cube(if d.f in rules then rules[d.f] else [],
         seq(|d.antbins|, k requires 0 <= k < |d.antbins| => Side(s, shelves, d.antbins[k])),
         seq(|d.antbins|, k requires 0 <= k < |d.antbins| => (d.antbins[k].1, d.antbins[k].2)), d.v)
  }

  /** The cubes of the first `n` dot items that have rules and antecedents. */
  function CubesOf(s: Scoring, rules: Rules, shelves: Shelves, items: seq<D.DotItem>, n: nat): seq<Cube>
    requires n <= |items|
  {
    if n == 0 then []
    else
      var d := items[n - 1];
      CubesOf(s, rules, shelves, items, n - 1) + (if d.f in rules && d.antbins != [] then [CubeOf(s, rules, shelves, d)] else [])
  }

  /** How many rules and items a cube has on each side. */
  function Dim(c: Cube): seq<nat> {
    [|c.rules|] + seq(|c.sides|, k requires 0 <= k < |c.sides| => |c.sides[k]|)
  }

  function Dims(cs: seq<Cube>): (r: seq<seq<nat>>)
    ensures |r| == |cs| && forall c :: 0 <= c < |cs| ==> r[c] == Dim(cs[c])
  {
    seq(|cs|, c requires 0 <= c < |cs| => Dim(cs[c]))
  }

  // ----- ways of building items

  function CostSum(ants: seq<Entry>, n: nat): real
    requires n <= |ants|
  {
    if n == 0 then 0.0 else CostSum(ants, n - 1) + ants[n - 1].cost
  }

  function ItemsOf(ants: seq<Entry>): seq<Signature> {
    seq(|ants|, k requires 0 <= k < |ants| => ants[k].item)
  }

  function AntsOf(spans: seq<(nat, nat)>, ants: seq<Entry>): seq<Ant>
    requires |spans| == |ants|
  {
    seq(|ants|, k requires 0 <= k < |ants| => Ant(spans[k].0, spans[k].1, ants[k].item))
  }

  /** A rule applied to antecedents, with what else it costs. */
  function Applied(s: Scoring, rule: nat, spans: seq<(nat, nat)>, ants: seq<Entry>, extra: real, i: nat, j: nat): Way
    requires |spans| == |ants|
  {
    Way(CostSum(ants, |ants|) + s.local(rule, ItemsOf(ants), i, j) + extra, s.result(rule, ItemsOf(ants), i, j),
        Apply(rule, AntsOf(spans, ants)))
  }

  predicate IsCorner(ranks: seq<nat>) {
    forall k :: 0 <= k < |ranks| ==> ranks[k] == 0
  }

  /** The antecedents at a place in a cube. */
  function Picked(c: Cube, ranks: seq<nat>): (r: seq<Entry>)
    ensures |r| == |c.sides|
  {
    seq(|c.sides|, k requires 0 <= k < |c.sides| =>
      if k + 1 < |ranks| && ranks[k + 1] < |c.sides[k]| then c.sides[k][ranks[k + 1]] else Entry(0, 0.0))
  }

  /** What a cell of the cubes stands for. The cost of the edges is charged to
      the first cell of a cube only. */
  function CellWay(s: Scoring, cs: seq<Cube>, i: nat, j: nat, q: Cell): Way {
    if q.cube < |cs| && |q.ranks| > 0 && q.ranks[0] < |cs[q.cube].rules| && |cs[q.cube].spans| == |cs[q.cube].sides| then
      var c := cs[q.cube];
      Applied(s, c.rules[q.ranks[0]], c.spans, Picked(c, q.ranks), if IsCorner(q.ranks) then c.v else 0.0, i, j)
    else Way(IMPOSSIBLE, 0, Axiom(0))
  }

  function Info(s: Scoring, cs: seq<Cube>, i: nat, j: nat): Cell -> Way {
    q => CellWay(s, cs, i, j, q)
  }

  /** The first `n` rules without antecedents, applied. */
  function Alone(s: Scoring, rs: seq<nat>, v: real, i: nat, j: nat, n: nat): seq<Way>
    requires n <= |rs|
  {
    if n == 0 then [] else Alone(s, rs, v, i, j, n - 1) + [Applied(s, rs[n - 1], [], [], v, i, j)]
  }

  /** The rules of the first `n` dot items that have no antecedents. */
  function AloneOf(s: Scoring, rules: Rules, items: seq<D.DotItem>, i: nat, j: nat, n: nat): seq<Way>
    requires n <= |items|
  {
    if n == 0 then []
    else
      var d := items[n - 1];
      AloneOf(s, rules, items, i, j, n - 1)
      + (if d.f in rules && d.antbins == [] then Alone(s, rules[d.f], d.v, i, j, |rules[d.f]|) else [])
  }

  // ----- lowest costs

  /** The lowest costs of the first `n` ways. */
  function Lowest(ways: seq<Way>, n: nat): map<Signature, real>
    requires n <= |ways|
  {
    if n == 0 then map[] else Lower(Lowest(ways, n - 1), ways[n - 1].item, ways[n - 1].cost)
  }

  lemma {:induction false} LowestIs(ways: seq<Way>, n: nat, x: Signature)
    requires n <= |ways|
    ensures x in Lowest(ways, n) ==> exists k :: 0 <= k < n && ways[k].item == x && ways[k].cost == Lowest(ways, n)[x] < IMPOSSIBLE
    ensures forall k :: 0 <= k < n && ways[k].item == x && ways[k].cost < IMPOSSIBLE ==>
              x in Lowest(ways, n) && Lowest(ways, n)[x] <= ways[k].cost
  {
    if n > 0 { LowestIs(ways, n - 1, x); }
  }

  // ----- what does not change

  /** A dot item's bins are all finished in the first, and the same in both. */
  predicate SameSides(a: Shelves, b: Shelves, d: D.DotItem) {
    forall k :: 0 <= k < |d.antbins| ==>
      ShelfAt(a, d.antbins[k].1, d.antbins[k].2) == ShelfAt(b, d.antbins[k].1, d.antbins[k].2)
  }

  lemma CubeSame(s: Scoring, rules: Rules, a: Shelves, b: Shelves, d: D.DotItem)
    requires SameSides(a, b, d)
    ensures CubeOf(s, rules, a, d) == CubeOf(s, rules, b, d)
  {
    hide OfVar;
    assert CubeOf(s, rules, a, d).sides == CubeOf(s, rules, b, d).sides;
  }

  lemma {:induction false} CubesSame(s: Scoring, rules: Rules, a: Shelves, b: Shelves, items: seq<D.DotItem>, n: nat)
    requires n <= |items| && forall k :: 0 <= k < n ==> SameSides(a, b, items[k])
    ensures CubesOf(s, rules, a, items, n) == CubesOf(s, rules, b, items, n)
  {
    hide CubeOf;
    if n > 0 {
      CubesSame(s, rules, a, b, items, n - 1);
      CubeSame(s, rules, a, b, items[n - 1]);
    }
  }

  // ----- what edges are charged for

  /** The cell's rule and antecedents with the cost of the edges. */
  function Charged(s: Scoring, cs: seq<Cube>, i: nat, j: nat, q: Cell): real
    requires InBox(Dims(cs), q) && |cs[q.cube].spans| == |cs[q.cube].sides|
  {
    var c := cs[q.cube];
    assert q.ranks[0] < Dim(c)[0];
    Applied(s, c.rules[q.ranks[0]], c.spans, Picked(c, q.ranks), c.v, i, j).cost
  }

  /** Every way of combining the rules and items of a cube is charged with the
      cost of the edges. */
  ghost predicate AllCharged(s: Scoring, cs: seq<Cube>, i: nat, j: nat, c: nat)
    requires c < |cs| && |cs[c].spans| == |cs[c].sides|
  {
    forall q {:trigger Info(s, cs, i, j)(q)} :: InBox(Dims(cs), q) && q.cube == c ==> Info(s, cs, i, j)(q).cost == Charged(s, cs, i, j, q)
  }

  /** The edges' cost is charged throughout exactly if there is none, or there is
      at most one way of combining. */
  lemma AllChargedIff(s: Scoring, cs: seq<Cube>, i: nat, j: nat, c: nat)
    requires c < |cs| && |cs[c].spans| == |cs[c].sides|
    ensures AllCharged(s, cs, i, j, c) <==>
              cs[c].v == 0.0 || (exists k :: 0 <= k < |Dim(cs[c])| && Dim(cs[c])[k] == 0) || forall k :: 0 <= k < |Dim(cs[c])| ==> Dim(cs[c])[k] <= 1
  {
    var dim := Dim(cs[c]);
    forall q | InBox(Dims(cs), q) && q.cube == c
      ensures Info(s, cs, i, j)(q).cost == Charged(s, cs, i, j, q) <==> cs[c].v == 0.0 || IsCorner(q.ranks)
    {
      assert q.ranks[0] < dim[0];
    }
    hide Applied, Info;
    if k :| 0 <= k < |dim| && dim[k] > 1 {
      if forall m :: 0 <= m < |dim| ==> dim[m] > 0 {
        var q := Cell(c, seq(|dim|, m => if m == k then 1 else 0));
        assert InBox(Dims(cs), q) && q.ranks[k] == 1 && !IsCorner(q.ranks);
        assert Info(s, cs, i, j)(q).cost == Charged(s, cs, i, j, q) <==> cs[c].v == 0.0;
      } else {
        assert forall q :: InBox(Dims(cs), q) ==> q.cube != c;
      }
    } else {
      assert forall q :: InBox(Dims(cs), q) && q.cube == c ==> IsCorner(q.ranks);
    }
  }

  /** Two rules over one edge of cost two and one item. */
  const TWO_RULES: seq<Cube> := [Cube([7, 8], [[Entry(0, 1.0)]], [(0, 1)], 2.0)]
  const DEARER: Scoring := Scoring(_ => 0, (rule, _, _, _) => if rule == 8 then 1.0 else 0.0, (rule, _, _, _) => rule)

  /** The dearer rule's item comes out cheaper: it is not charged for the edge. */
  lemma EdgesAreChargedOnce()
    ensures Info(DEARER, TWO_RULES, 0, 2)(Cell(0, [0, 0])) == Way(3.0, 7, Apply(7, [Ant(0, 1, 0)]))
    ensures Info(DEARER, TWO_RULES, 0, 2)(Cell(0, [1, 0])) == Way(2.0, 8, Apply(8, [Ant(0, 1, 0)]))
    ensures !AllCharged(DEARER, TWO_RULES, 0, 2, 0)
  {
    var c := TWO_RULES[0];
    assert Picked(c, [0, 0]) == Picked(c, [1, 0]) == [Entry(0, 1.0)];
    assert CostSum([Entry(0, 1.0)], 1) == CostSum([Entry(0, 1.0)], 0) + 1.0;
    assert AntsOf(c.spans, [Entry(0, 1.0)]) == [Ant(0, 1, 0)];
    assert IsCorner([0, 0]);
    assert [1, 0][0] == 1 && !IsCorner([1, 0]);
    AllChargedIff(DEARER, TWO_RULES, 0, 2, 0);
    assert Dim(c) == [2, 1];
  }
}
