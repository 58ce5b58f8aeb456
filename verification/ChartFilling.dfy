/** The decoder's chart, filled span by span: dot items from finished bins, a bin
    from the dot items, more dot items from the bin. */
module ChartFilling {
  import opened Wrappers
  import opened Beams
  import opened Bins
  import opened Cubes
  import opened CellExpansion
  import opened ChartCubes
  import opened ChartFinal
  import opened ChartDerivations
  import D = DotCharts

  // ----- what has been offered to a bin

  predicate FromWay(ways: seq<Way>, o: Offer) {
    exists k :: 0 <= k < |ways| && ways[k] == Way(o.cost, o.item, o.ded)
  }

  /** All that has been added is among the ways. */
  predicate FromWays(ways: seq<Way>, added: seq<Offer>) {
    forall o {:trigger FromWay(ways, o)} :: o in added ==> FromWay(ways, o)
  }

  lemma FromMoreWays(ways: seq<Way>, added: seq<Offer>, w: Way)
    requires FromWays(ways, added)
    ensures FromWays(ways + [w], added) && FromWays(ways + [w], added + [Offer(w.item, w.cost, w.ded)])
  {
    var more := ways + [w];
    forall o | o in added + [Offer(w.item, w.cost, w.ded)] ensures FromWay(more, o) {
      if o in added {
        assert FromWay(ways, o);
        var k :| 0 <= k < |ways| && ways[k] == Way(o.cost, o.item, o.ded);
        assert more[k] == ways[k];
      } else {
        assert more[|ways|] == w;
      }
    }
  }

  lemma {:induction false} LowestSame(a: seq<Way>, b: seq<Way>, n: nat)
    requires n <= |a| && n <= |b| && forall k :: 0 <= k < n ==> a[k] == b[k]
    ensures Lowest(a, n) == Lowest(b, n)
  {
    if n > 0 { LowestSame(a, b, n - 1); }
  }

  lemma LowestNext(ways: seq<Way>, w: Way)
    ensures Lowest(ways + [w], |ways + [w]|) == Lower(Lowest(ways, |ways|), w.item, w.cost)
  {
    LowestSame(ways + [w], ways, |ways|);
  }

  /** The bin has been offered these ways. */
  ghost predicate Offering(bin: Bin, ways: seq<Way>)
    reads bin
  {
    bin.Valid() && Holds(bin.index, Lowest(ways, |ways|), bin.limit, bin.threshold) && FromWays(ways, bin.added)
  }

  /** Offers one more way to the bin, unless it is not below the cutoff. */
  method Consider(bin: Bin, w: Way, ghost ways: seq<Way>)
    requires Offering(bin, ways)
    modifies bin
    ensures Offering(bin, ways + [w])
  {
    hide Holds, Lower, FromWays, FromWay, Lowest;
    FromMoreWays(ways, bin.added, w);
    LowestNext(ways, w);
    bin.Consider(w.cost, w.item, w.ded, Lowest(ways, |ways|));
  }

  method ConsiderAll(bin: Bin, more: seq<Way>, ghost ways: seq<Way>)
    requires Offering(bin, ways)
    modifies bin
    ensures Offering(bin, ways + more)
  {
    hide Offering;
    assert ways + more[..0] == ways;
    for k := 0 to |more|
      invariant Offering(bin, ways + more[..k])
    {
      assert ways + more[..k + 1] == (ways + more[..k]) + [more[k]];
      Consider(bin, more[k], ways + more[..k]);
    }
    assert ways + more[..|more|] == ways + more;
  }

  /** Applies the rules of a dot item that has no antecedents. */
  method ConsiderAlone(s: Scoring, bin: Bin, rs: seq<nat>, v: real, i: nat, j: nat, ghost ways: seq<Way>)
    requires Offering(bin, ways)
    modifies bin
    ensures Offering(bin, ways + Alone(s, rs, v, i, j, |rs|))
  {
    hide Offering, Applied;
    assert ways + Alone(s, rs, v, i, j, 0) == ways;
    for n := 0 to |rs|
      invariant Offering(bin, ways + Alone(s, rs, v, i, j, n))
    {
      var w := Applied(s, rs[n], [], [], v, i, j);
      assert ways + Alone(s, rs, v, i, j, n + 1) == (ways + Alone(s, rs, v, i, j, n)) + [w];
      Consider(bin, w, ways + Alone(s, rs, v, i, j, n));
    }
  }

  /** Goes through the dot items of a cell: rules without antecedents are
      offered to the bin, the others become cubes. */
  method ReadCell(s: Scoring, rules: Rules, shelves: Shelves, items: seq<D.DotItem>, i: nat, j: nat, bin: Bin, ghost ways: seq<Way>)
    returns (cubes: seq<Cube>)
    requires Offering(bin, ways)
    modifies bin
    ensures cubes == CubesOf(s, rules, shelves, items, |items|)
    ensures Offering(bin, ways + AloneOf(s, rules, items, i, j, |items|))
  {
    hide Offering, Alone, CubeOf;
    cubes := [];
    assert ways + AloneOf(s, rules, items, i, j, 0) == ways;
    for n := 0 to |items|
      invariant cubes == CubesOf(s, rules, shelves, items, n)
      invariant Offering(bin, ways + AloneOf(s, rules, items, i, j, n))
    {
      var d := items[n];
      ghost var sofar := ways + AloneOf(s, rules, items, i, j, n);
      if d.f in rules {
        if d.antbins == [] {
          ConsiderAlone(s, bin, rules[d.f], d.v, i, j, sofar);
          assert ways + AloneOf(s, rules, items, i, j, n + 1) == sofar + Alone(s, rules[d.f], d.v, i, j, |rules[d.f]|);
        } else {
          cubes := cubes + [CubeOf(s, rules, shelves, d)];
          assert ways + AloneOf(s, rules, items, i, j, n + 1) == sofar;
        }
      } else {
        assert ways + AloneOf(s, rules, items, i, j, n + 1) == sofar;
      }
    }
  }

  // ----- sorting a finished bin

  /** The shelf has the items outside `rest`, cheapest first, and none of them
      costs more than one in `rest`. */
  predicate Sorting(shelf: Shelf, index: Index, rest: Index) {
    && (forall x :: x in rest ==> x in index && index[x] == rest[x])
    && (forall k :: 0 <= k < |shelf| ==> shelf[k].item in index && shelf[k].item !in rest && index[shelf[k].item].cost == shelf[k].cost)
    && (forall k, m :: 0 <= k < m < |shelf| ==> shelf[k].item != shelf[m].item && shelf[k].cost <= shelf[m].cost)
    && (forall k, x :: 0 <= k < |shelf| && x in rest ==> shelf[k].cost <= rest[x].cost)
    && (forall x :: x in index ==> x in rest || Shelved(shelf, x))
  }

  predicate Cheapest(rest: Index, z: Signature) {
    z in rest && forall y :: y in rest ==> rest[z].cost <= rest[y].cost
  }

  lemma {:induction false} CheapestExists(rest: Index) returns (z: Signature)
    requires rest != map[]
    ensures Cheapest(rest, z)
    decreases |rest|
  {
    z :| z in rest;
    var less := rest - {z};
    RemovedSize(rest, z);
    if less != map[] {
      var y := CheapestExists(less);
      forall w | w in rest ensures (if rest[y].cost < rest[z].cost then rest[y].cost else rest[z].cost) <= rest[w].cost {
        if w != z { assert w in less && less[w] == rest[w]; }
      }
      if rest[y].cost < rest[z].cost { z := y; }
    } else {
      assert forall y :: y in rest ==> y == z || y in less;
    }
  }

  lemma SortNext(shelf: Shelf, index: Index, rest: Index, z: Signature)
    requires Sorting(shelf, index, rest) && Cheapest(rest, z)
    ensures Sorting(shelf + [Entry(z, rest[z].cost)], index, rest - {z}) && |rest - {z}| < |rest|
  {
    RemovedSize(rest, z);
    var more := shelf + [Entry(z, rest[z].cost)];
    forall x | x in index && x !in rest - {z} ensures Shelved(more, x) {
      if x == z {
        assert more[|shelf|].item == x;
      } else {
        assert Shelved(shelf, x);
        var k :| 0 <= k < |shelf| && shelf[k].item == x;
        assert more[k].item == x;
      }
    }
  }

  /** A finished bin's items in order of cost. */
  method SortBin(index: Index) returns (shelf: Shelf)
    ensures ShelfOf(shelf, index)
  {
    hide Cheapest, Shelved;
    shelf := [];
    var rest := index;
    while rest != map[]
      invariant Sorting(shelf, index, rest)
      decreases |rest|
    {
      hide Sorting;
      ghost var least := CheapestExists(rest);
      var z := TakeCheapest(rest);
      SortNext(shelf, index, rest, z);
      shelf := shelf + [Entry(z, rest[z].cost)];
      rest := rest - {z};
    }
  }

  method TakeCheapest(rest: Index) returns (z: Signature)
    requires rest != map[]
    ensures Cheapest(rest, z) && z in rest
  {
    ghost var least := CheapestExists(rest);
    z :| z in rest && forall y :: y in rest ==> rest[z].cost <= rest[y].cost;
  }

  /** The nonterminals of the items, in order of first appearance. */
  method Nonterminals(s: Scoring, shelf: Shelf) returns (xs: seq<nat>)
    ensures xs == VarsOf(s, shelf, |shelf|)
  {
    xs := [];
    for k := 0 to |shelf|
      invariant xs == VarsOf(s, shelf, k)
    {
      if s.lhs(shelf[k].item) !in xs {
        xs := xs + [s.lhs(shelf[k].item)];
      }
    }
  }

  // ----- the bin of a span

  lemma {:induction false} DedsOfHas(offers: seq<Offer>, x: Signature, d: Derivation)
    requires d in DedsOf(offers, x)
    ensures exists k :: 0 <= k < |offers| && offers[k].item == x && offers[k].ded == d
  {
    var last := offers[|offers| - 1];
    if !(last.item == x && last.ded == d) {
      DedsOfHas(offers[..|offers| - 1], x, d);
      var k :| 0 <= k < |offers| - 1 && offers[..|offers| - 1][k].item == x && offers[..|offers| - 1][k].ded == d;
      assert offers[k] == offers[..|offers| - 1][k];
    }
  }

  /** What a bin holds was offered. */
  lemma HeldWasOffered(index: Index, added0: seq<Offer>, added: seq<Offer>, gone: set<Signature>, base: seq<Way>,
                       tried: seq<Cell>, info: Cell -> Way)
    requires Remembers(index, added, gone) && FromWays(base, added0) && AllMade(added0, added, tried, info)
    ensures DedsProposed(base, tried, info, index) && FirstProposed(base, tried, info, index)
  {
    forall x | x in index ensures index[x].deds != [] && WayProposed(base, tried, info, Way(index[x].cost, x, index[x].deds[0])) {
      assert RemembersAt(index, added, gone, x);
      WayWasOffered(added0, added, base, tried, info, Offer(x, index[x].cost, index[x].deds[0]));
    }
    forall x, d | x in index && d in index[x].deds ensures Proposed(base, tried, info, x, d) {
      assert RemembersAt(index, added, gone, x);
      assert d in multiset(index[x].deds);
      hide DedsOf;
      assert d in DedsOf(added, x);
      DedsOfHas(added, x, d);
      var k :| 0 <= k < |added| && added[k].item == x && added[k].ded == d;
      OneWasOffered(added0, added, base, tried, info, added[k]);
    }
  }

  lemma WayWasOffered(added0: seq<Offer>, added: seq<Offer>, base: seq<Way>, tried: seq<Cell>, info: Cell -> Way, o: Offer)
    requires FromWays(base, added0) && AllMade(added0, added, tried, info) && o in added
    ensures WayProposed(base, tried, info, Way(o.cost, o.item, o.ded))
  {
    if o in added0 {
      assert FromWay(base, o);
    } else {
      assert Made(tried, info, o);
    }
  }

  lemma OneWasOffered(added0: seq<Offer>, added: seq<Offer>, base: seq<Way>, tried: seq<Cell>, info: Cell -> Way, o: Offer)
    requires FromWays(base, added0) && AllMade(added0, added, tried, info) && o in added
    ensures Proposed(base, tried, info, o.item, o.ded)
  {
    if o in added0 {
      assert FromWay(base, o);
      var k :| 0 <= k < |base| && base[k] == Way(o.cost, o.item, o.ded);
      assert base[k].item == o.item && base[k].ded == o.ded;
    } else {
      assert Made(tried, info, o);
      var k :| 0 <= k < |tried| && info(tried[k]) == Way(o.cost, o.item, o.ded);
      assert info(tried[k]).item == o.item && info(tried[k]).ded == o.ded;
    }
  }

  lemma NothingOffered(limit: Option<nat>, threshold: Option<real>)
    ensures Holds(map[], Lowest([], 0), limit, threshold) && FromWays([], [])
  {
  }

  lemma FilledIs(u: Setup, base: seq<Way>, cubes: seq<Cube>, i: nat, j: nat, fin: Final)
    requires Holds(fin.index, fin.low, u.limit, u.threshold)
    requires LowestOver(Lowest(base, |base|), SetOf(fin.tried), Info(u.s, cubes, i, j), fin.low)
    requires BestFirst(Dims(cubes), Info(u.s, cubes, i, j), fin.tried)
    requires u.popLimit.Some? ==> |fin.tried| <= u.popLimit.value
    requires u.popLimit.None? || |fin.tried| < u.popLimit.value ==> SetOf(fin.tried) == AllCells(Dims(cubes))
    requires DedsProposed(base, fin.tried, Info(u.s, cubes, i, j), fin.index)
    requires FirstProposed(base, fin.tried, Info(u.s, cubes, i, j), fin.index)
    ensures FilledFrom(u, base, cubes, i, j, fin)
  {
  }

  /** Fills the bin of a span from its dot items. */
  method FillBin(u: Setup, ghost st: State, shelves: Shelves, items: seq<D.DotItem>, i: nat, j: nat) returns (bin: Bin, ghost fin: Final)
    requires LimitsOk(u) && shelves == st.shelves && items == DotItems(st.g, i, j)
    ensures fresh(bin) && bin.Valid() && bin.limit == u.limit && bin.threshold == u.threshold && fin.index == bin.index
    ensures FilledFrom(u, Base(u, st.g, i, j), CubesAt(u, st, i, j), i, j, fin)
  {
    hide Holds, LowestOver, BestFirst, AloneOf, CubesOf, FromWays, AllMade, Lowest, Remembers, DedsProposed, FirstProposed, AllCells, Info, CellWay;
    bin := new Bin(u.limit, u.threshold);
    NothingOffered(u.limit, u.threshold);
    var seeds := SeedsAt(u, i, j);
    assert [] + seeds == seeds;
    ConsiderAll(bin, seeds, []);
    var cubes := ReadCell(u.s, u.rules, shelves, items, i, j, bin, seeds);
    ghost var base := seeds + AloneOf(u.s, u.rules, items, i, j, |items|);
    ghost var added := bin.added;
    var info := Info(u.s, cubes, i, j);
    var tried;
    ghost var low;
    tried, low := ExpandCellCubePrune(Dims(cubes), info, bin, u.popLimit, Lowest(base, |base|));
    HeldWasOffered(bin.index, added, bin.added, bin.gone, base, tried, info);
    fin := Final(bin.index, low, tried);
    FilledIs(u, base, cubes, i, j, fin);
  }

  // ----- the chart

  class Chart {
    const u: Setup
    const dots: D.DotChart
    var bins: map<(nat, nat), Bin>
    var shelves: Shelves
    ghost var finals: map<(nat, nat), Final>

    ghost function Now(): State
      reads this, dots
    {
      State(dots.g, shelves, finals)
    }

    /** The bins are as they were when they were finished. */
    ghost predicate BinsOk()
      reads this, bins.Values
    {
      forall s {:trigger s in finals} :: s in finals ==>
        s in bins && bins[s].Valid() && bins[s].index == finals[s].index && bins[s].limit == u.limit && bins[s].threshold == u.threshold
    }

    /** All spans before this place are finished. */
    ghost predicate FilledTo(l: nat, i: nat)
      reads this, dots, bins.Values
    {
      dots.Filled(l, i) && dots.NothingLeft() && BinsOk() && FinalBefore(u, Now(), l, i)
    }

    constructor (u: Setup, g: D.Grammar)
      requires LimitsOk(u)
      ensures this.u == u && fresh(dots) && dots.g == g && dots.bins == map[] && bins == map[] && shelves == map[] && finals == map[]
    {
      this.u := u;
      dots := new D.DotChart(g);
      bins, shelves, finals := map[], map[], map[];
    }

    /** Fills all spans, shorter ones first. In the end every bin was filled from
        bins as they are in the end, and what it holds is derived from what they
        hold. */
    method Expand()
      requires LimitsOk(u) && dots.bins == map[] && finals == map[]
      modifies this, dots
      ensures dots.g.n == old(dots.g.n) && BinsOk() && Complete(u, Now())
      ensures AllSeeded(u, Now()) && (SeedsAreAxioms(u) ==> AllDerived(u, Now()) && AllPriced(u, Now()))
      ensures forall i: nat, j: nat :: i < j < dots.g.n ==>
                D.BinAt(dots.bins, i, j) == D.Items(dots.g, i, j, D.Cell(dots.g, i, j))
    {
      hide D.Items, D.Cell, FinalOk, SeedsAreAxioms, AllSeeded, AllDerived, AllPriced;
      ghost var n := dots.g.n;
      if dots.g.n == 0 {
        ChartIsSeeded(u, Now());
        if SeedsAreAxioms(u) { ChartIsDerived(u, Now()); }
        return;
      }
      dots.Start();
      for l := 1 to dots.g.n
        invariant dots.g.n == n && FilledTo(l, 0)
      {
        for i := 0 to dots.g.n - l
          invariant dots.g.n == n && FilledTo(l, i)
        {
          FillSpan(l, i);
        }
        dots.NextLength(l);
        FinalNextLength(u, Now(), l);
      }
      forall i: nat, j: nat | i < j < n
        ensures FinalOk(u, Now(), i, j) && D.BinAt(dots.bins, i, j) == D.Items(dots.g, i, j, D.Cell(dots.g, i, j))
      {
        assert D.Before(i, j, n, 0);
      }
      ChartIsSeeded(u, Now());
      if SeedsAreAxioms(u) { ChartIsDerived(u, Now()); }
    }

    method FillSpan(l: nat, i: nat)
      requires LimitsOk(u) && 0 < l && i + l < dots.g.n && FilledTo(l, i)
      modifies this, dots
      ensures dots.g.n == old(dots.g.n) && FilledTo(l, i + 1)
    {
      hide D.Cell, D.Early, D.DotChart.Filled, D.DotChart.HalfFilled, D.DotChart.NothingLeft, D.Items, DotItems, VarsOf,
        FinalBefore, BinsOk, Bin.Valid;
      ghost var st := Now();
      var j := i + l;
      dots.OpenSpan(l, i);
      HalfIsItems(l, i);
      ghost var fin;
      var shelf;
      shelf, fin := FinishBin(l, i);
      var ys := Nonterminals(u.s, shelf);
      dots.CloseSpan(l, i, ys);
      assert Now() == WithSpan(u, st, i, j, shelf, fin);
    }

    /** Fills and sorts the bin of the next span, whose dot items are there. */
    method FinishBin(l: nat, i: nat) returns (shelf: Shelf, ghost fin: Final)
      requires LimitsOk(u) && 0 < l && BinsOk() && FinalBefore(u, Now(), l, i)
      requires D.BinAt(dots.bins, i, i + l) == DotItems(dots.g, i, i + l)
      modifies this`bins, this`shelves, this`finals
      ensures NoRepeat(VarsOf(u.s, shelf, |shelf|)) && BinsOk()
      ensures shelves == old(shelves)[(i, i + l) := shelf] && finals == old(finals)[(i, i + l) := fin]
      ensures FinalBefore(u, WithSpan(u, old(Now()), i, i + l, shelf, fin), l, i + 1)
    {
      hide FilledFrom, DotItems, Base, CubesAt, VarsOf, ShelfOf, FinalBefore, Bin.Valid;
      ghost var st := Now();
      var bin;
      bin, fin := FillBin(u, st, shelves, D.BinAt(dots.bins, i, i + l), i, i + l);
      shelf := SortBin(bin.index);
      VarsOfHas(u.s, shelf, |shelf|, 0);
      FinalNext(u, st, l, i, shelf, fin);
      Store(i, i + l, bin, shelf, fin);
    }

    lemma HalfIsItems(l: nat, i: nat)
      requires dots.HalfFilled(l, i)
      ensures D.BinAt(dots.bins, i, i + l) == DotItems(dots.g, i, i + l)
    {
    }

    /** Puts a filled bin and its items in their places. */
    method Store(i: nat, j: nat, bin: Bin, shelf: Shelf, ghost fin: Final)
      requires BinsOk() && bin.Valid() && bin.limit == u.limit && bin.threshold == u.threshold && fin.index == bin.index
      modifies this`bins, this`shelves, this`finals
      ensures BinsOk() && bins == old(bins)[(i, j) := bin]
      ensures shelves == old(shelves)[(i, j) := shelf] && finals == old(finals)[(i, j) := fin]
    {
      hide Bin.Valid;
      bins := bins[(i, j) := bin];
      shelves := shelves[(i, j) := shelf];
      finals := finals[(i, j) := fin];
    }
  }
}
