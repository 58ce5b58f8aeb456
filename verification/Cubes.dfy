/** Cells of cubes of ranks, and counting how many of a cell's neighbours below
    have been visited. */
module Cubes {

  /** A way of combining one rule and antecedents: their ranks in the bins of
      one cube. */
  datatype Cell = Cell(cube: nat, ranks: seq<nat>)

  predicate InBox(dims: seq<seq<nat>>, q: Cell) {
    q.cube < |dims| && |q.ranks| == |dims[q.cube]| && forall k :: 0 <= k < |q.ranks| ==> q.ranks[k] < dims[q.cube][k]
  }

  function Prev(q: Cell, k: nat): Cell
    requires k < |q.ranks| && q.ranks[k] > 0
  {
    q.(ranks := q.ranks[k := q.ranks[k] - 1])
  }

  function Next(p: Cell, k: nat): Cell
    requires k < |p.ranks|
  {
    p.(ranks := p.ranks[k := p.ranks[k] + 1])
  }

  /** How many of the first `n` ranks are positive. */
  function Positive(q: Cell, n: nat): nat
    requires n <= |q.ranks|
  {
    if n == 0 then 0 else Positive(q, n - 1) + (if q.ranks[n - 1] > 0 then 1 else 0)
  }

  /** How many neighbours below in the first `n` directions are in the set. */
  function Visited(done: set<Cell>, q: Cell, n: nat): (r: nat)
    requires n <= |q.ranks|
    ensures r <= Positive(q, n)
  {
    if n == 0 then 0
    else Visited(done, q, n - 1) + (if q.ranks[n - 1] > 0 && Prev(q, n - 1) in done then 1 else 0)
  }

  predicate AllBelow(done: set<Cell>, q: Cell, n: nat)
    requires n <= |q.ranks|
  {
    forall k :: 0 <= k < n && q.ranks[k] > 0 ==> Prev(q, k) in done
  }

  lemma {:induction false} VisitedAll(done: set<Cell>, q: Cell, n: nat)
    requires n <= |q.ranks|
    ensures Visited(done, q, n) == Positive(q, n) <==> AllBelow(done, q, n)
  {
    if n > 0 { VisitedAll(done, q, n - 1); }
  }

  /** `p` is the neighbour below `q` in one of the directions from `m` up to
      `n`. */
  predicate Precedes(p: Cell, q: Cell, m: nat, n: nat) {
    |p.ranks| == |q.ranks| && n <= |p.ranks| && exists k :: m <= k < n && Next(p, k) == q
  }

  lemma NextPrev(p: Cell, q: Cell, k: nat)
    requires k < |p.ranks| == |q.ranks|
    ensures Next(p, k) == q <==> q.ranks[k] > 0 && Prev(q, k) == p
  {
    if q.ranks[k] > 0 && Prev(q, k) == p {
      assert q.ranks == p.ranks[k := p.ranks[k] + 1];
    }
    if Next(p, k) == q {
      assert p.ranks == q.ranks[k := q.ranks[k] - 1];
    }
  }

  lemma NextDistinct(p: Cell, j: nat, k: nat)
    requires j < |p.ranks| && k < |p.ranks| && j != k
    ensures Next(p, j) != Next(p, k)
  {
    assert Next(p, j).ranks[j] == p.ranks[j] + 1 && Next(p, k).ranks[j] == p.ranks[j];
  }

  /** Visiting a cell raises the count of exactly the cells right above it. */
  lemma {:induction false} VisitedMore(done: set<Cell>, p: Cell, q: Cell, n: nat)
    requires p !in done && n <= |q.ranks| == |p.ranks|
    ensures Visited(done + {p}, q, n) == Visited(done, q, n) + (if Precedes(p, q, 0, n) then 1 else 0)
  {
    if n > 0 {
      VisitedMore(done, p, q, n - 1);
      NextPrev(p, q, n - 1);
      if Next(p, n - 1) == q {
        assert !Precedes(p, q, 0, n - 1) by {
          forall k | 0 <= k < n - 1 ensures Next(p, k) != q { NextDistinct(p, k, n - 1); }
        }
      } else {
        assert Precedes(p, q, 0, n) ==> Precedes(p, q, 0, n - 1);
      }
    }
  }

  lemma {:induction false} VisitedOther(done: set<Cell>, p: Cell, q: Cell, n: nat)
    requires n <= |q.ranks| != |p.ranks|
    ensures Visited(done + {p}, q, n) == Visited(done, q, n)
  {
    if n > 0 { VisitedOther(done, p, q, n - 1); }
  }

  // ----- all cells of a box

  function RanksOf(dim: seq<nat>): set<seq<nat>> {
    if dim == [] then {[]}
    else set r, v | r in RanksOf(dim[..|dim| - 1]) && 0 <= v < dim[|dim| - 1] :: r + [v]
  }

  predicate Within(r: seq<nat>, dim: seq<nat>) {
    |r| == |dim| && forall k :: 0 <= k < |r| ==> r[k] < dim[k]
  }

  lemma {:induction false} RanksOfAre(dim: seq<nat>, r: seq<nat>)
    requires r in RanksOf(dim)
    ensures Within(r, dim)
  {
    if dim != [] {
      var s, v :| s in RanksOf(dim[..|dim| - 1]) && 0 <= v < dim[|dim| - 1] && r == s + [v];
      RanksOfAre(dim[..|dim| - 1], s);
    }
  }

  lemma {:induction false} RanksOfHas(dim: seq<nat>, r: seq<nat>)
    requires Within(r, dim)
    ensures r in RanksOf(dim)
  {
    if dim != [] {
      var s, v := r[..|r| - 1], r[|r| - 1];
      RanksOfHas(dim[..|dim| - 1], s);
      assert r == s + [v];
    }
  }

  function CellsOf(c: nat, rs: set<seq<nat>>): set<Cell> {
    set r | r in rs :: Cell(c, r)
  }

  function CellsUpTo(dims: seq<seq<nat>>, n: nat): set<Cell>
    requires n <= |dims|
  {
    if n == 0 then {} else CellsUpTo(dims, n - 1) + CellsOf(n - 1, RanksOf(dims[n - 1]))
  }

  function AllCells(dims: seq<seq<nat>>): set<Cell> {
    CellsUpTo(dims, |dims|)
  }

  lemma {:induction false} CellsUpToHas(dims: seq<seq<nat>>, n: nat, q: Cell)
    requires n <= |dims|
    ensures q in CellsUpTo(dims, n) <==> q.cube < n && InBox(dims, q)
  {
    if n > 0 {
      CellsUpToHas(dims, n - 1, q);
      if q.cube == n - 1 {
        assert q in CellsOf(n - 1, RanksOf(dims[n - 1])) <==> q.ranks in RanksOf(dims[n - 1]) by { assert q == Cell(n - 1, q.ranks); }
        if q.ranks in RanksOf(dims[n - 1]) { RanksOfAre(dims[n - 1], q.ranks); }
        if Within(q.ranks, dims[n - 1]) { RanksOfHas(dims[n - 1], q.ranks); }
      }
    }
  }

  lemma AllCellsHas(dims: seq<seq<nat>>)
    ensures forall q :: q in AllCells(dims) <==> InBox(dims, q)
  {
    forall q ensures q in AllCells(dims) <==> InBox(dims, q) {
      CellsUpToHas(dims, |dims|, q);
    }
  }

  // ----- the enumeration's state

  function Times(index: map<Cell, nat>, q: Cell): nat {
    if q in index then index[q] else 0
  }

  /** The corner every cube starts from is counted once at the start. */
  function Start(q: Cell): nat {
    if Positive(q, |q.ranks|) == 0 then 1 else 0
  }

  /** Between pops: a cell is a candidate or visited exactly when all its
      neighbours below are visited, and the index counts those. */
  predicate SteadyAt(cand: set<Cell>, index: map<Cell, nat>, done: set<Cell>, q: Cell) {
    && Times(index, q) == Visited(done, q, |q.ranks|) + Start(q)
    && (q in cand || q in done <==> AllBelow(done, q, |q.ranks|))
    && !(q in cand && q in done)
  }

  ghost predicate Steady(dims: seq<seq<nat>>, cand: set<Cell>, index: map<Cell, nat>, done: set<Cell>) {
    && (forall q :: q in cand || q in done ==> InBox(dims, q))
    && (forall q {:trigger SteadyAt(cand, index, done, q)} :: InBox(dims, q) ==> SteadyAt(cand, index, done, q))
  }

  /** While the cells above `p` are being looked at, those in the directions
      from `k` on have not been counted. */
  predicate RaisingAt(cand: set<Cell>, index: map<Cell, nat>, done: set<Cell>, p: Cell, k: nat, q: Cell) {
    && k <= |p.ranks|
    && Times(index, q) + (if Precedes(p, q, k, |p.ranks|) then 1 else 0) == Visited(done, q, |q.ranks|) + Start(q)
    && (q in cand || q in done <==> AllBelow(done, q, |q.ranks|) && !Precedes(p, q, k, |p.ranks|))
    && !(q in cand && q in done)
  }

  ghost predicate Raising(dims: seq<seq<nat>>, cand: set<Cell>, index: map<Cell, nat>, done: set<Cell>, p: Cell, k: nat) {
    && p in done && k <= |p.ranks|
    && (forall q :: q in cand || q in done ==> InBox(dims, q))
    && (forall q {:trigger RaisingAt(cand, index, done, p, k, q)} :: InBox(dims, q) ==> RaisingAt(cand, index, done, p, k, q))
  }

  lemma AboveIsNotDone(cand: set<Cell>, index: map<Cell, nat>, done: set<Cell>, p: Cell, q: Cell)
    requires SteadyAt(cand, index, done, q) && p !in done && Precedes(p, q, 0, |p.ranks|)
    ensures !AllBelow(done, q, |q.ranks|) && q !in cand && q !in done
  {
    var k :| 0 <= k < |p.ranks| && Next(p, k) == q;
    NextPrev(p, q, k);
  }

  lemma PopStarts(dims: seq<seq<nat>>, cand: set<Cell>, index: map<Cell, nat>, done: set<Cell>, p: Cell)
    requires Steady(dims, cand, index, done) && p in cand
    ensures Raising(dims, cand - {p}, index, done + {p}, p, 0)
  {
    hide SteadyAt, RaisingAt, InBox;
    assert SteadyAt(cand, index, done, p);
    forall q | InBox(dims, q) ensures RaisingAt(cand - {p}, index, done + {p}, p, 0, q) {
      assert SteadyAt(cand, index, done, q);
      PopStartsAt(cand, index, done, p, q);
    }
  }

  lemma PopStartsAt(cand: set<Cell>, index: map<Cell, nat>, done: set<Cell>, p: Cell, q: Cell)
    requires SteadyAt(cand, index, done, p) && SteadyAt(cand, index, done, q) && p in cand
    ensures RaisingAt(cand - {p}, index, done + {p}, p, 0, q)
  {
    VisitedAll(done, q, |q.ranks|);
    VisitedAll(done + {p}, q, |q.ranks|);
    if |p.ranks| == |q.ranks| { VisitedMore(done, p, q, |q.ranks|); } else { VisitedOther(done, p, q, |q.ranks|); }
    if Precedes(p, q, 0, |p.ranks|) { AboveIsNotDone(cand, index, done, p, q); }
  }

  lemma RaisingEnds(dims: seq<seq<nat>>, cand: set<Cell>, index: map<Cell, nat>, done: set<Cell>, p: Cell)
    requires Raising(dims, cand, index, done, p, |p.ranks|)
    ensures Steady(dims, cand, index, done)
  {
    forall q | InBox(dims, q) ensures SteadyAt(cand, index, done, q) {
      assert RaisingAt(cand, index, done, p, |p.ranks|, q);
    }
  }

  /** One direction on, only the cell above in that direction is settled. */
  lemma OneDirection(p: Cell, q: Cell, k: nat)
    requires k < |p.ranks|
    ensures q != Next(p, k) ==> (Precedes(p, q, k, |p.ranks|) <==> Precedes(p, q, k + 1, |p.ranks|))
    ensures q == Next(p, k) ==> Precedes(p, q, k, |p.ranks|) && !Precedes(p, q, k + 1, |p.ranks|)
  {
    if q == Next(p, k) {
      forall j | k + 1 <= j < |p.ranks| ensures Next(p, j) != q { NextDistinct(p, j, k); }
    } else if Precedes(p, q, k, |p.ranks|) {
      var j :| k <= j < |p.ranks| && Next(p, j) == q;
      assert j != k;
    }
  }

  /** The step in one direction: nothing outside the box; otherwise
      count, and push when all neighbours below have been counted. */
  lemma RaiseOut(dims: seq<seq<nat>>, cand: set<Cell>, index: map<Cell, nat>, done: set<Cell>, p: Cell, k: nat)
    requires Raising(dims, cand, index, done, p, k) && k < |p.ranks| && !InBox(dims, Next(p, k))
    ensures Raising(dims, cand, index, done, p, k + 1)
  {
    hide Precedes, AllBelow, InBox, Visited;
    forall q | InBox(dims, q) ensures RaisingAt(cand, index, done, p, k + 1, q) {
      assert RaisingAt(cand, index, done, p, k, q);
      OneDirection(p, q, k);
    }
  }

  function IndexUp(index: map<Cell, nat>, s: Cell): map<Cell, nat> {
    index[s := Times(index, s) + 1]
  }

  function CandUp(cand: set<Cell>, index: map<Cell, nat>, s: Cell): set<Cell> {
    if Times(index, s) + 1 == Positive(s, |s.ranks|) then cand + {s} else cand
  }

  lemma RaiseInHere(cand: set<Cell>, index: map<Cell, nat>, done: set<Cell>, p: Cell, k: nat)
    requires k < |p.ranks| && RaisingAt(cand, index, done, p, k, Next(p, k))
    ensures var s := Next(p, k); RaisingAt(CandUp(cand, index, s), IndexUp(index, s), done, p, k + 1, s)
  {
    var s := Next(p, k);
    OneDirection(p, s, k);
    NextPrev(p, s, k);
    PositiveSome(s, k, |s.ranks|);
    VisitedAll(done, s, |s.ranks|);
    hide Precedes, AllBelow, Visited, Positive;
  }

  lemma RaiseInElse(cand: set<Cell>, index: map<Cell, nat>, done: set<Cell>, p: Cell, k: nat, q: Cell)
    requires k < |p.ranks| && RaisingAt(cand, index, done, p, k, q) && q != Next(p, k)
    ensures var s := Next(p, k); RaisingAt(CandUp(cand, index, s), IndexUp(index, s), done, p, k + 1, q)
  {
    hide Precedes, AllBelow, Visited, Positive;
    OneDirection(p, q, k);
  }

  lemma RaiseIn(dims: seq<seq<nat>>, cand: set<Cell>, index: map<Cell, nat>, done: set<Cell>, p: Cell, k: nat)
    requires Raising(dims, cand, index, done, p, k) && k < |p.ranks| && InBox(dims, Next(p, k))
    ensures var s := Next(p, k); Raising(dims, CandUp(cand, index, s), IndexUp(index, s), done, p, k + 1)
  {
    hide InBox, RaisingAt;
    var s := Next(p, k);
    forall q | InBox(dims, q) ensures RaisingAt(CandUp(cand, index, s), IndexUp(index, s), done, p, k + 1, q) {
      assert RaisingAt(cand, index, done, p, k, q);
      if q == s { RaiseInHere(cand, index, done, p, k); } else { RaiseInElse(cand, index, done, p, k, q); }
    }
  }

  lemma {:induction false} PositiveSome(q: Cell, k: nat, n: nat)
    requires k < n <= |q.ranks| && q.ranks[k] > 0
    ensures Positive(q, n) > 0
  {
    if k < n - 1 { PositiveSome(q, k, n - 1); }
  }

  // ----- nothing is left out

  function RankSum(ranks: seq<nat>): nat {
    if ranks == [] then 0 else ranks[0] + RankSum(ranks[1..])
  }

  lemma {:induction false} RankSumDrops(ranks: seq<nat>, k: nat)
    requires k < |ranks| && ranks[k] > 0
    ensures RankSum(ranks[k := ranks[k] - 1]) == RankSum(ranks) - 1
  {
    var s := ranks[k := ranks[k] - 1];
    if k == 0 {
      assert s[1..] == ranks[1..];
    } else {
      RankSumDrops(ranks[1..], k - 1);
      assert s[1..] == ranks[1..][k - 1 := ranks[k] - 1];
    }
  }

  /** With no candidates left every cell has been visited. */
  lemma {:induction false} EmptyIsComplete(dims: seq<seq<nat>>, index: map<Cell, nat>, done: set<Cell>, q: Cell)
    requires Steady(dims, {}, index, done) && InBox(dims, q)
    ensures q in done
    decreases RankSum(q.ranks)
  {
    hide InBox, Visited;
    forall k | 0 <= k < |q.ranks| && q.ranks[k] > 0 ensures Prev(q, k) in done {
      RankSumDrops(q.ranks, k);
      PrevInBox(dims, q, k);
      EmptyIsComplete(dims, index, done, Prev(q, k));
    }
    assert SteadyAt({}, index, done, q);
  }

  lemma PrevInBox(dims: seq<seq<nat>>, q: Cell, k: nat)
    requires InBox(dims, q) && k < |q.ranks| && q.ranks[k] > 0
    ensures InBox(dims, Prev(q, k))
  {
  }
}
