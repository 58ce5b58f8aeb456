/** Filling one span's bin from cubes of rules and antecedents: best-first, and
    by nested loops. */
module CellExpansion {
  import opened Wrappers
  import opened Beams
  import opened Bins
  import opened Cubes

  /** What combining a rule with antecedents yields. */
  datatype Way = Way(cost: real, item: Signature, ded: Derivation)

  function SetOf(s: seq<Cell>): set<Cell> {
    set q | q in s
  }

  lemma SetOfMore(s: seq<Cell>, p: Cell)
    ensures SetOf(s + [p]) == SetOf(s) + {p}
  {
  }

  // ----- lowest costs over a set of cells

  predicate Covered(cells: set<Cell>, info: Cell -> Way, x: Signature, cost: real) {
    cost < IMPOSSIBLE && exists q :: q in cells && info(q).item == x && info(q).cost == cost
  }

  /** The lowest costs known before and those of the cells that are possible,
      together. */
  ghost predicate LowestOver(lowest: map<Signature, real>, cells: set<Cell>, info: Cell -> Way, r: map<Signature, real>) {
    && (forall x :: x in r ==> (x in lowest && r[x] == lowest[x]) || Covered(cells, info, x, r[x]))
    && (forall x :: x in lowest ==> x in r && r[x] <= lowest[x])
    && (forall q :: q in cells && info(q).cost < IMPOSSIBLE ==> info(q).item in r && r[info(q).item] <= info(q).cost)
  }

  lemma LowerAdds(lowest: map<Signature, real>, cells: set<Cell>, info: Cell -> Way, r: map<Signature, real>, p: Cell)
    requires LowestOver(lowest, cells, info, r)
    ensures LowestOver(lowest, cells + {p}, info, Lower(r, info(p).item, info(p).cost))
  {
    var r' := Lower(r, info(p).item, info(p).cost);
    forall x | x in r' ensures (x in lowest && r'[x] == lowest[x]) || Covered(cells + {p}, info, x, r'[x]) {
      if x in r && r'[x] == r[x] {
        if Covered(cells, info, x, r[x]) {
          var q :| q in cells && info(q).item == x && info(q).cost == r[x];
          assert q in cells + {p};
        }
      } else {
        assert p in cells + {p};
      }
    }
  }

  lemma LowestIsUnique(lowest: map<Signature, real>, cells: set<Cell>, info: Cell -> Way, r: map<Signature, real>, s: map<Signature, real>)
    requires LowestOver(lowest, cells, info, r) && LowestOver(lowest, cells, info, s)
    ensures r == s
  {
    forall x | x in r ensures x in s && s[x] <= r[x] { LowestIsLess(lowest, cells, info, r, s, x); }
    forall x | x in s ensures x in r && r[x] <= s[x] { LowestIsLess(lowest, cells, info, s, r, x); }
  }

  lemma LowestIsLess(lowest: map<Signature, real>, cells: set<Cell>, info: Cell -> Way, r: map<Signature, real>, s: map<Signature, real>,
                     x: Signature)
    requires LowestOver(lowest, cells, info, r) && LowestOver(lowest, cells, info, s) && x in r
    ensures x in s && s[x] <= r[x]
  {
    if !(x in lowest && r[x] == lowest[x]) {
      var q :| q in cells && info(q).item == x && info(q).cost == r[x];
    }
  }

  // ----- the start

  /** The product of a cube's sides. */
  function Volume(dim: seq<nat>): nat {
    if dim == [] then 1 else Volume(dim[..|dim| - 1]) * dim[|dim| - 1]
  }

  lemma {:induction false} VolumeIsPositive(dim: seq<nat>)
    ensures Volume(dim) > 0 <==> forall k :: 0 <= k < |dim| ==> dim[k] > 0
  {
    if dim != [] {
      VolumeIsPositive(dim[..|dim| - 1]);
      var v, d := Volume(dim[..|dim| - 1]), dim[|dim| - 1];
      assert v * d > 0 <==> v > 0 && d > 0;
    }
  }

  function First(dims: seq<seq<nat>>, c: nat): Cell
    requires c < |dims|
  {
    Cell(c, seq(|dims[c]|, _ => 0))
  }

  lemma {:induction false} PositiveNone(q: Cell, n: nat)
    requires n <= |q.ranks|
    ensures Positive(q, n) == 0 <==> forall k :: 0 <= k < n ==> q.ranks[k] == 0
  {
    if n > 0 { PositiveNone(q, n - 1); }
  }

  lemma {:induction false} VisitedNone(q: Cell, n: nat)
    requires n <= |q.ranks|
    ensures Visited({}, q, n) == 0
  {
    if n > 0 { VisitedNone(q, n - 1); }
  }

  /** The first `n` cubes' corners are candidates, each counted once. */
  ghost predicate Seeded(dims: seq<seq<nat>>, cand: set<Cell>, index: map<Cell, nat>, n: nat) {
    && n <= |dims|
    && (forall q :: q in cand <==> q.cube < n && InBox(dims, q) && q == First(dims, q.cube))
    && (forall q :: Cubes.Times(index, q) == if q in cand then 1 else 0)
  }

  lemma SeedNext(dims: seq<seq<nat>>, cand: set<Cell>, index: map<Cell, nat>, n: nat)
    requires Seeded(dims, cand, index, n) && n < |dims|
    ensures Volume(dims[n]) == 0 ==> Seeded(dims, cand, index, n + 1)
    ensures Volume(dims[n]) > 0 ==> Seeded(dims, cand + {First(dims, n)}, IndexUp(index, First(dims, n)), n + 1)
  {
    VolumeIsPositive(dims[n]);
    if Volume(dims[n]) == 0 {
      forall q: Cell | q.cube == n ensures !InBox(dims, q) {
        var k :| 0 <= k < |dims[n]| && dims[n][k] == 0;
        if |q.ranks| == |dims[n]| { assert !(q.ranks[k] < dims[n][k]); }
      }
    } else {
      assert InBox(dims, First(dims, n));
    }
  }

  lemma SeededIsSteady(dims: seq<seq<nat>>, cand: set<Cell>, index: map<Cell, nat>)
    requires Seeded(dims, cand, index, |dims|)
    ensures Steady(dims, cand, index, {})
  {
    forall q | InBox(dims, q) ensures SteadyAt(cand, index, {}, q) {
      PositiveNone(q, |q.ranks|);
      VisitedNone(q, |q.ranks|);
      if forall k :: 0 <= k < |q.ranks| ==> q.ranks[k] == 0 {
        assert q == First(dims, q.cube);
      }
    }
  }

  // ----- the order of visits

  /** The cell's neighbours below have all been visited, and of all such cells
      not yet visited it is one of the cheapest. */
  ghost predicate Chosen(dims: seq<seq<nat>>, info: Cell -> Way, before: set<Cell>, p: Cell) {
    && InBox(dims, p) && p !in before && AllBelow(before, p, |p.ranks|)
    && forall q :: InBox(dims, q) && q !in before && AllBelow(before, q, |q.ranks|) ==> info(p).cost <= info(q).cost
  }

  /** The cells were visited best-first, each after its neighbours below. */
  ghost predicate BestFirst(dims: seq<seq<nat>>, info: Cell -> Way, tried: seq<Cell>) {
    forall i :: 0 <= i < |tried| ==> Chosen(dims, info, SetOf(tried[..i]), tried[i])
  }

  lemma BestFirstNext(dims: seq<seq<nat>>, info: Cell -> Way, tried: seq<Cell>, p: Cell)
    requires BestFirst(dims, info, tried) && Chosen(dims, info, SetOf(tried), p)
    ensures BestFirst(dims, info, tried + [p])
  {
    var t := tried + [p];
    forall i | 0 <= i < |t| ensures Chosen(dims, info, SetOf(t[..i]), t[i]) {
      if i < |tried| {
        assert t[..i] == tried[..i];
      } else {
        assert t[..i] == tried;
      }
    }
  }

  lemma CheapestIsChosen(dims: seq<seq<nat>>, info: Cell -> Way, cand: set<Cell>, index: map<Cell, nat>, done: set<Cell>, p: Cell)
    requires Steady(dims, cand, index, done) && p in cand
    requires forall q :: q in cand ==> info(p).cost <= info(q).cost
    ensures Chosen(dims, info, done, p)
  {
    assert SteadyAt(cand, index, done, p);
    forall q | InBox(dims, q) && q !in done && AllBelow(done, q, |q.ranks|) ensures info(p).cost <= info(q).cost {
      assert SteadyAt(cand, index, done, q);
    }
  }

  /** No cell is visited twice. */
  lemma VisitedOnce(dims: seq<seq<nat>>, info: Cell -> Way, tried: seq<Cell>, i: nat, j: nat)
    requires BestFirst(dims, info, tried) && i < j < |tried|
    ensures tried[i] != tried[j]
  {
    assert tried[i] in tried[..j];
    assert Chosen(dims, info, SetOf(tried[..j]), tried[j]);
  }

  lemma {:induction false} CheapestExists(cand: set<Cell>, info: Cell -> Way) returns (p: Cell)
    requires cand != {}
    ensures p in cand && forall q :: q in cand ==> info(p).cost <= info(q).cost
    decreases |cand|
  {
    p :| p in cand;
    var rest := cand - {p};
    if rest != {} {
      var r := CheapestExists(rest, info);
      forall q | q in cand ensures info(if r in cand && info(r).cost < info(p).cost then r else p).cost <= info(q).cost {
        if q != p { assert q in rest; }
      }
      if info(r).cost < info(p).cost { p := r; }
    } else {
      assert cand == {p};
    }
  }

  lemma CompleteIsAll(dims: seq<seq<nat>>, index: map<Cell, nat>, done: set<Cell>)
    requires Steady(dims, {}, index, done)
    ensures done == AllCells(dims)
  {
    AllCellsHas(dims);
    forall q | InBox(dims, q) ensures q in done { EmptyIsComplete(dims, index, done, q); }
  }

  lemma FewerLeft(dims: seq<seq<nat>>, cand: set<Cell>, index: map<Cell, nat>, done: set<Cell>, p: Cell)
    requires Steady(dims, cand, index, done) && p in cand
    ensures |AllCells(dims) - (done + {p})| < |AllCells(dims) - done|
    ensures InBox(dims, p) && p !in done
  {
    AllCellsHas(dims);
    assert SteadyAt(cand, index, done, p);
    var a, b := AllCells(dims) - (done + {p}), AllCells(dims) - done;
    assert b == a + {p} && p !in a;
  }

  /** The offer is what one of the cells tried stands for. */
  predicate Made(tried: seq<Cell>, info: Cell -> Way, o: Offer) {
    exists k :: 0 <= k < |tried| && info(tried[k]) == Way(o.cost, o.item, o.ded)
  }

  /** All that has been added since is made of cells tried. */
  predicate AllMade(before: seq<Offer>, added: seq<Offer>, tried: seq<Cell>, info: Cell -> Way) {
    forall o {:trigger Made(tried, info, o)} :: o in added ==> o in before || Made(tried, info, o)
  }

  lemma AllMadeNext(before: seq<Offer>, added: seq<Offer>, tried: seq<Cell>, info: Cell -> Way, p: Cell)
    requires AllMade(before, added, tried, info)
    ensures AllMade(before, added, tried + [p], info)
    ensures AllMade(before, added + [Offer(info(p).item, info(p).cost, info(p).ded)], tried + [p], info)
  {
    var more := tried + [p];
    forall o | o in added + [Offer(info(p).item, info(p).cost, info(p).ded)] ensures o in before || Made(more, info, o) {
      if o in added && o !in before {
        assert Made(tried, info, o);
        var k :| 0 <= k < |tried| && info(tried[k]) == Way(o.cost, o.item, o.ded);
        assert more[k] == tried[k];
      } else if o !in before {
        assert more[|tried|] == p;
      }
    }
  }

  /** Best-first expansion, at most `popLimit` cells if there is a limit. */
  method ExpandCellCubePrune(dims: seq<seq<nat>>, info: Cell -> Way, bin: Bin, popLimit: Option<nat>, ghost lowest: map<Signature, real>)
    returns (tried: seq<Cell>, ghost low: map<Signature, real>)
    requires bin.Valid() && Holds(bin.index, lowest, bin.limit, bin.threshold)
    modifies bin
    ensures bin.Valid() && Holds(bin.index, low, bin.limit, bin.threshold)
    ensures LowestOver(lowest, SetOf(tried), info, low)
    ensures BestFirst(dims, info, tried)
    ensures popLimit.Some? ==> |tried| <= popLimit.value
    ensures popLimit.None? || |tried| < popLimit.value ==> SetOf(tried) == AllCells(dims)
    ensures AllMade(old(bin.added), bin.added, tried, info)
  {
    hide AllMade, Holds, LowestOver, Steady, Seeded, BestFirst, Lower, InBox, First, Volume;
    var cand, index := Seed(dims);
    tried, low := [], lowest;
    NothingTried(dims, info, lowest);
    NothingMade(bin.added, info);
    while cand != {} && (popLimit.None? || |tried| < popLimit.value)
      invariant bin.Valid() && Holds(bin.index, low, bin.limit, bin.threshold)
      invariant Steady(dims, cand, index, SetOf(tried)) && BestFirst(dims, info, tried)
      invariant LowestOver(lowest, SetOf(tried), info, low) && AllMade(old(bin.added), bin.added, tried, info)
      invariant popLimit.Some? ==> |tried| <= popLimit.value
      decreases |AllCells(dims) - SetOf(tried)|
    {
      ghost var least := CheapestExists(cand, info);
      var p :| p in cand && forall q :: q in cand ==> info(p).cost <= info(q).cost;
      FewerLeft(dims, cand, index, SetOf(tried), p);
      CheapestIsChosen(dims, info, cand, index, SetOf(tried), p);
      BestFirstNext(dims, info, tried, p);
      SetOfMore(tried, p);
      PopStarts(dims, cand, index, SetOf(tried), p);
      LowerAdds(lowest, SetOf(tried), info, low, p);
      AllMadeNext(old(bin.added), bin.added, tried, info, p);
      bin.Consider(info(p).cost, info(p).item, info(p).ded, low);
      low := Lower(low, info(p).item, info(p).cost);
      tried := tried + [p];
      cand, index := PushSuccessors(dims, cand - {p}, index, SetOf(tried), p);
    }
    if cand == {} { CompleteIsAll(dims, index, SetOf(tried)); }
  }

  lemma NothingTried(dims: seq<seq<nat>>, info: Cell -> Way, lowest: map<Signature, real>)
    ensures SetOf([]) == {} && BestFirst(dims, info, []) && LowestOver(lowest, {}, info, lowest)
  {
  }

  lemma NothingMade(added: seq<Offer>, info: Cell -> Way)
    ensures AllMade(added, added, [], info)
  {
  }

  /** The corners of the cubes that have any cells. */
  method Seed(dims: seq<seq<nat>>) returns (cand: set<Cell>, index: map<Cell, nat>)
    ensures Steady(dims, cand, index, {})
  {
    cand, index := {}, map[];
    for c := 0 to |dims|
      invariant Seeded(dims, cand, index, c)
    {
      SeedNext(dims, cand, index, c);
      if Volume(dims[c]) > 0 {
        var first := First(dims, c);
        cand := cand + {first};
        index := index[first := Cubes.Times(index, first) + 1];
      }
    }
    SeededIsSteady(dims, cand, index);
  }

  /** Counts the cells right above a visited one, and makes candidates of those
      whose neighbours below have all been visited. */
  method PushSuccessors(dims: seq<seq<nat>>, cand0: set<Cell>, index0: map<Cell, nat>, ghost done: set<Cell>, p: Cell)
    returns (cand: set<Cell>, index: map<Cell, nat>)
    requires Raising(dims, cand0, index0, done, p, 0) && InBox(dims, p)
    ensures Steady(dims, cand, index, done)
  {
    hide Raising, Steady;
    cand, index := cand0, index0;
    for k := 0 to |p.ranks|
      invariant Raising(dims, cand, index, done, p, k)
    {
      if p.ranks[k] + 1 < dims[p.cube][k] {
        RaiseIn(dims, cand, index, done, p, k);
        var s := Next(p, k);
        index := index[s := Cubes.Times(index, s) + 1];
        if index[s] == Positive(s, |s.ranks|) {
          cand := cand + {s};
        }
      } else {
        RaiseOut(dims, cand, index, done, p, k);
      }
    }
    RaisingEnds(dims, cand, index, done, p);
  }

  // ----- nested loops

  /** All cubes have one or two antecedents. */
  predicate Loopable(dims: seq<seq<nat>>) {
    forall c :: 0 <= c < |dims| ==> 2 <= |dims[c]| <= 3
  }

  /** The cell comes before place (c, r, a, b) in the order of the loops. */
  predicate Earlier(dims: seq<seq<nat>>, q: Cell, c: nat, r: nat, a: nat, b: nat)
    requires Loopable(dims)
  {
    InBox(dims, q) && (q.cube < c || (q.cube == c && (q.ranks[0] < r || (q.ranks[0] == r
      && (q.ranks[1] < a || (q.ranks[1] == a && |q.ranks| == 3 && q.ranks[2] < b))))))
  }

  ghost predicate LoopedTo(dims: seq<seq<nat>>, tried: seq<Cell>, c: nat, r: nat, a: nat, b: nat)
    requires Loopable(dims)
  {
    && (forall q {:trigger q in SetOf(tried)} :: q in SetOf(tried) <==> Earlier(dims, q, c, r, a, b))
    && (forall i, j :: 0 <= i < j < |tried| ==> tried[i] != tried[j])
  }

  lemma LoopSame(dims: seq<seq<nat>>, tried: seq<Cell>, c: nat, r: nat, a: nat, b: nat, c': nat, r': nat, a': nat, b': nat)
    requires Loopable(dims) && LoopedTo(dims, tried, c, r, a, b)
    requires forall q :: Earlier(dims, q, c, r, a, b) <==> Earlier(dims, q, c', r', a', b')
    ensures LoopedTo(dims, tried, c', r', a', b')
  {
  }

  lemma LoopNext(dims: seq<seq<nat>>, tried: seq<Cell>, c: nat, r: nat, a: nat, b: nat, p: Cell, a': nat, b': nat)
    requires Loopable(dims) && LoopedTo(dims, tried, c, r, a, b) && !Earlier(dims, p, c, r, a, b)
    requires forall q :: Earlier(dims, q, c, r, a', b') <==> Earlier(dims, q, c, r, a, b) || q == p
    ensures LoopedTo(dims, tried + [p], c, r, a', b')
  {
    SetOfMore(tried, p);
    assert p !in SetOf(tried);
    hide Earlier;
  }

  lemma OneMore2(dims: seq<seq<nat>>, c: nat, r: nat, a: nat, q: Cell)
    requires Loopable(dims) && c < |dims| && |dims[c]| == 2 && r < dims[c][0] && a < dims[c][1]
    ensures Earlier(dims, q, c, r, a + 1, 0) <==> Earlier(dims, q, c, r, a, 0) || q == Cell(c, [r, a])
    ensures InBox(dims, Cell(c, [r, a])) && !Earlier(dims, Cell(c, [r, a]), c, r, a, 0)
  {
    if InBox(dims, q) && q.cube == c && q.ranks[0] == r && q.ranks[1] == a { assert q.ranks == [r, a]; }
  }

  lemma OneMore3(dims: seq<seq<nat>>, c: nat, r: nat, a: nat, b: nat, q: Cell)
    requires Loopable(dims) && c < |dims| && |dims[c]| == 3 && r < dims[c][0] && a < dims[c][1] && b < dims[c][2]
    ensures Earlier(dims, q, c, r, a, b + 1) <==> Earlier(dims, q, c, r, a, b) || q == Cell(c, [r, a, b])
    ensures InBox(dims, Cell(c, [r, a, b])) && !Earlier(dims, Cell(c, [r, a, b]), c, r, a, b)
  {
    if InBox(dims, q) && q.cube == c && q.ranks[0] == r && q.ranks[1] == a && q.ranks[2] == b { assert q.ranks == [r, a, b]; }
  }

  /** Where a loop ends the next one round begins. */
  lemma LoopEnds(dims: seq<seq<nat>>, c: nat, r: nat, a: nat, q: Cell)
    requires Loopable(dims) && c < |dims|
    ensures |dims[c]| == 3 ==> (Earlier(dims, q, c, r, a, dims[c][2]) <==> Earlier(dims, q, c, r, a + 1, 0))
    ensures Earlier(dims, q, c, r, dims[c][1], 0) <==> Earlier(dims, q, c, r + 1, 0, 0)
    ensures Earlier(dims, q, c, dims[c][0], 0, 0) <==> Earlier(dims, q, c + 1, 0, 0, 0)
  {
  }

  lemma LoopedAll(dims: seq<seq<nat>>, tried: seq<Cell>)
    requires Loopable(dims) && LoopedTo(dims, tried, |dims|, 0, 0, 0)
    ensures SetOf(tried) == AllCells(dims)
  {
    AllCellsHas(dims);
    forall q ensures q in SetOf(tried) <==> InBox(dims, q) {
      assert Earlier(dims, q, |dims|, 0, 0, 0) <==> InBox(dims, q);
    }
  }

  /** What the loops keep about the bin. */
  ghost predicate Filled(lowest: map<Signature, real>, tried: seq<Cell>, info: Cell -> Way, low: map<Signature, real>,
                         index: Index, limit: Option<nat>, threshold: Option<real>) {
    Holds(index, low, limit, threshold) && LowestOver(lowest, SetOf(tried), info, low)
  }

  method TryCell(dims: seq<seq<nat>>, info: Cell -> Way, bin: Bin, tried0: seq<Cell>, p: Cell, ghost lowest: map<Signature, real>,
                 ghost low0: map<Signature, real>)
    returns (tried: seq<Cell>, ghost low: map<Signature, real>)
    requires bin.Valid() && Filled(lowest, tried0, info, low0, bin.index, bin.limit, bin.threshold)
    modifies bin
    ensures bin.Valid() && Filled(lowest, tried, info, low, bin.index, bin.limit, bin.threshold) && tried == tried0 + [p]
  {
    hide Holds, LowestOver, Lower;
    LowerAdds(lowest, SetOf(tried0), info, low0, p);
    SetOfMore(tried0, p);
    bin.Consider(info(p).cost, info(p).item, info(p).ded, low0);
    low := Lower(low0, info(p).item, info(p).cost);
    tried := tried0 + [p];
  }

  /** Expansion by nested loops over rules and antecedents. */
  method ExpandCell(dims: seq<seq<nat>>, info: Cell -> Way, bin: Bin, ghost lowest: map<Signature, real>)
    returns (tried: seq<Cell>, ghost low: map<Signature, real>)
    requires bin.Valid() && Holds(bin.index, lowest, bin.limit, bin.threshold) && Loopable(dims)
    modifies bin
    ensures bin.Valid() && Holds(bin.index, low, bin.limit, bin.threshold)
    ensures LowestOver(lowest, SetOf(tried), info, low)
    ensures SetOf(tried) == AllCells(dims)
    ensures forall i, j :: 0 <= i < j < |tried| ==> tried[i] != tried[j]
  {
    hide Holds, LowestOver;
    tried, low := [], lowest;
    NothingTried(dims, info, lowest);
    for c := 0 to |dims|
      invariant bin.Valid() && Filled(lowest, tried, info, low, bin.index, bin.limit, bin.threshold)
      invariant LoopedTo(dims, tried, c, 0, 0, 0)
    {
      for r := 0 to dims[c][0]
        invariant bin.Valid() && Filled(lowest, tried, info, low, bin.index, bin.limit, bin.threshold)
        invariant LoopedTo(dims, tried, c, r, 0, 0)
      {
        tried, low := ExpandRule(dims, info, bin, c, r, tried, lowest, low);
      }
      forall q ensures Earlier(dims, q, c, dims[c][0], 0, 0) <==> Earlier(dims, q, c + 1, 0, 0, 0) { LoopEnds(dims, c, 0, 0, q); }
      LoopSame(dims, tried, c, dims[c][0], 0, 0, c + 1, 0, 0, 0);
    }
    LoopedAll(dims, tried);
  }

  /** One rule with all its antecedents. */
  method ExpandRule(dims: seq<seq<nat>>, info: Cell -> Way, bin: Bin, c: nat, r: nat, tried0: seq<Cell>, ghost lowest: map<Signature, real>,
                    ghost low0: map<Signature, real>)
    returns (tried: seq<Cell>, ghost low: map<Signature, real>)
    requires bin.Valid() && Filled(lowest, tried0, info, low0, bin.index, bin.limit, bin.threshold) && Loopable(dims)
    requires c < |dims| && r < dims[c][0] && LoopedTo(dims, tried0, c, r, 0, 0)
    modifies bin
    ensures bin.Valid() && Filled(lowest, tried, info, low, bin.index, bin.limit, bin.threshold)
    ensures LoopedTo(dims, tried, c, r + 1, 0, 0)
  {
    hide Filled, LoopedTo, Earlier;
    tried, low := tried0, low0;
    for a := 0 to dims[c][1]
      invariant bin.Valid() && Filled(lowest, tried, info, low, bin.index, bin.limit, bin.threshold)
      invariant LoopedTo(dims, tried, c, r, a, 0)
    {
      if |dims[c]| == 2 {
        var p := Cell(c, [r, a]);
        forall q ensures Earlier(dims, q, c, r, a + 1, 0) <==> Earlier(dims, q, c, r, a, 0) || q == p { OneMore2(dims, c, r, a, q); }
        OneMore2(dims, c, r, a, p);
        LoopNext(dims, tried, c, r, a, 0, p, a + 1, 0);
        tried, low := TryCell(dims, info, bin, tried, p, lowest, low);
      } else {
        tried, low := ExpandPair(dims, info, bin, c, r, a, tried, lowest, low);
      }
    }
    forall q ensures Earlier(dims, q, c, r, dims[c][1], 0) <==> Earlier(dims, q, c, r + 1, 0, 0) { LoopEnds(dims, c, r, 0, q); }
    LoopSame(dims, tried, c, r, dims[c][1], 0, c, r + 1, 0, 0);
  }

  /** One rule and first antecedent with all second ones. */
  method ExpandPair(dims: seq<seq<nat>>, info: Cell -> Way, bin: Bin, c: nat, r: nat, a: nat, tried0: seq<Cell>,
                    ghost lowest: map<Signature, real>, ghost low0: map<Signature, real>)
    returns (tried: seq<Cell>, ghost low: map<Signature, real>)
    requires bin.Valid() && Filled(lowest, tried0, info, low0, bin.index, bin.limit, bin.threshold) && Loopable(dims)
    requires c < |dims| && |dims[c]| == 3 && r < dims[c][0] && a < dims[c][1] && LoopedTo(dims, tried0, c, r, a, 0)
    modifies bin
    ensures bin.Valid() && Filled(lowest, tried, info, low, bin.index, bin.limit, bin.threshold)
    ensures LoopedTo(dims, tried, c, r, a + 1, 0)
  {
    hide Filled, LoopedTo, Earlier;
    tried, low := tried0, low0;
    for b := 0 to dims[c][2]
      invariant bin.Valid() && Filled(lowest, tried, info, low, bin.index, bin.limit, bin.threshold)
      invariant LoopedTo(dims, tried, c, r, a, b)
    {
      var p := Cell(c, [r, a, b]);
      forall q ensures Earlier(dims, q, c, r, a, b + 1) <==> Earlier(dims, q, c, r, a, b) || q == p { OneMore3(dims, c, r, a, b, q); }
      OneMore3(dims, c, r, a, b, p);
      LoopNext(dims, tried, c, r, a, b, p, a, b + 1);
      tried, low := TryCell(dims, info, bin, tried, p, lowest, low);
    }
    forall q ensures Earlier(dims, q, c, r, a, dims[c][2]) <==> Earlier(dims, q, c, r, a + 1, 0) { LoopEnds(dims, c, r, a, q); }
    LoopSame(dims, tried, c, r, a, dims[c][2], c, r, a + 1, 0);
  }

  /** The two expansions of the same cubes leave bins of equally many items that
      agree on every item both hold, and otherwise hold items of one same cost. */
  lemma SameBeams(dims: seq<seq<nat>>, info: Cell -> Way, lowest: map<Signature, real>, limit: Option<nat>, threshold: Option<real>,
                  fast: Index, fastLow: map<Signature, real>, slow: Index, slowLow: map<Signature, real>, x: Signature, y: Signature)
    requires LowestOver(lowest, AllCells(dims), info, fastLow) && Holds(fast, fastLow, limit, threshold)
    requires LowestOver(lowest, AllCells(dims), info, slowLow) && Holds(slow, slowLow, limit, threshold)
    ensures |fast| == |slow|
    ensures x in fast && x in slow ==> fast[x].cost == slow[x].cost
    ensures x in fast && x !in slow && y in slow && y !in fast ==> fast[x].cost == slow[y].cost
  {
    LowestIsUnique(lowest, AllCells(dims), info, fastLow, slowLow);
    KeepsIsUnique(fast, slow, Near(fastLow, threshold), limit, x, y);
  }
}
