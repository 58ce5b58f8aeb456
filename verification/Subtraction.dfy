/** Subtracting phrases from phrases: all ways to read a stretch of the source
    as words and smaller phrases. */
module Subtraction {
  import opened Wrappers
  import opened PhrasePairs

  /** A phrase pair with its label. */
  datatype Phrase = Phrase(x: nat, box: Box)

  datatype Piece = Word(i: nat) | Hole(p: Phrase)

  /** Words and holes, the last one outermost. */
  datatype Reading = Empty | Then(prior: Reading, last: Piece)

  /** The phrases, the length of the source, and the limits on rules. */
  datatype Task = Task(phrases: seq<Phrase>, n: nat, maxlen: nat, minhole: nat, maxvars: nat,
                       forbidAdjacent: bool, forceFrenchPrefix: bool, prefixLabels: set<nat>)

  /** All phrases are nonempty and within the source. */
  predicate WellFormed(g: Task) {
    forall k :: 0 <= k < |g.phrases| ==> g.phrases[k].box.i1 < g.phrases[k].box.i2 <= g.n
  }

  type Subtractable = g: Task | WellFormed(g) witness Task([], 0, 0, 0, 0, false, false, {})

  function Length(t: Reading): nat {
    match t
    case Empty => 0
    case Then(p, _) => Length(p) + 1
  }

  /** The tests before a piece is appended. */
  predicate Fits(g: Task, t: Reading, e: Piece) {
    && Length(t) < g.maxlen
    && (e.Hole? ==>
          && !(g.forbidAdjacent && t.Then? && t.last.Hole?)
          && !(g.forceFrenchPrefix && t.Then? && e.p.x in g.prefixLabels))
  }

  /** Some phrase starts here. */
  predicate Starts(g: Task, i: nat) {
    exists k :: 0 <= k < |g.phrases| && g.phrases[k].box.i1 == i
  }

  /** Words and holes tile i1..i2 with so many holes, within the limits. */
  predicate IsReading(g: Task, i1: nat, i2: nat, holes: nat, t: Reading)
    decreases t
  {
    match t
    case Empty => i1 == i2 && holes == 0 && Starts(g, i1)
    case Then(p, Word(i)) => i1 <= i && i + 1 == i2 && Length(t) <= g.maxlen && IsReading(g, i1, i, holes, p)
    case Then(p, Hole(s)) =>
      && s in g.phrases && i1 <= s.box.i1 && s.box.i2 == i2 && s.box.i2 - s.box.i1 >= g.minhole
      && Length(t) <= g.maxlen
      && (g.forbidAdjacent ==> p.Empty? || p.last.Word?)
      && (g.forceFrenchPrefix && s.x in g.prefixLabels ==> p.Empty?)
      && holes > 0 && IsReading(g, i1, s.box.i1, holes - 1, p)
  }

  // ----- the cells of the chart, in the order they are filled

  /** The first `n` readings extended by one piece where it fits. */
  function Extended(g: Task, ts: seq<Reading>, e: Piece, n: nat): seq<Reading>
    requires n <= |ts|
  {
    if n == 0 then [] else Extended(g, ts, e, n - 1) + (if Fits(g, ts[n - 1], e) then [Then(ts[n - 1], e)] else [])
  }

  /** By those of the first `m` phrases that end here and are large enough. */
  function ByPhrases(g: Subtractable, i1: nat, i2: nat, holes: nat, m: nat): seq<Reading>
    requires m <= |g.phrases|
    decreases i2, 0, m
  {
    if m == 0 then []
    else
      var s := g.phrases[m - 1];
      if s.box.i2 == i2 && i2 - s.box.i1 >= g.minhole && holes > 0 then
        var ts := Cell(g, i1, s.box.i1, holes - 1);
        ByPhrases(g, i1, i2, holes, m - 1) + Extended(g, ts, Hole(s), |ts|)
      else ByPhrases(g, i1, i2, holes, m - 1)
  }

  function Cell(g: Subtractable, i1: nat, i2: nat, holes: nat): seq<Reading>
    decreases i2, 1
  {
    if i2 < i1 then []
    else if i1 == i2 then if holes == 0 && Starts(g, i1) then [Empty] else []
    else
      var ts := Cell(g, i1, i2 - 1, holes);
      ByPhrases(g, i1, i2, holes, |g.phrases|) + Extended(g, ts, Word(i2 - 1), |ts|)
  }

  lemma {:induction false} ExtendedHas(g: Task, ts: seq<Reading>, e: Piece, n: nat, u: Reading)
    requires n <= |ts|
    ensures u in Extended(g, ts, e, n) <==> u.Then? && u.last == e && u.prior in ts[..n] && Fits(g, u.prior, e)
  {
    if n > 0 { ExtendedHas(g, ts, e, n - 1, u); }
  }

  lemma {:induction false} ByPhrasesHas(g: Subtractable, i1: nat, i2: nat, holes: nat, m: nat, u: Reading)
    requires m <= |g.phrases|
    ensures u in ByPhrases(g, i1, i2, holes, m) <==>
              u.Then? && u.last.Hole? && holes > 0 && u.last.p in g.phrases[..m] && u.last.p.box.i2 == i2
              && i2 - u.last.p.box.i1 >= g.minhole && Fits(g, u.prior, u.last)
              && u.prior in Cell(g, i1, u.last.p.box.i1, holes - 1)
  {
    hide Cell, Fits;
    if m > 0 {
      ByPhrasesHas(g, i1, i2, holes, m - 1, u);
      var s := g.phrases[m - 1];
      if s.box.i2 == i2 && i2 - s.box.i1 >= g.minhole && holes > 0 {
        var ts := Cell(g, i1, s.box.i1, holes - 1);
        ExtendedHas(g, ts, Hole(s), |ts|, u);
        assert ts[..|ts|] == ts;
      }
    }
  }

  lemma {:induction false} ReadingGoesRight(g: Subtractable, i1: nat, i2: nat, holes: nat, u: Reading)
    requires IsReading(g, i1, i2, holes, u)
    ensures i1 <= i2 && (u.Then? ==> i1 < i2)
  {
    if u.Then? && u.last.Hole? { ReadingGoesRight(g, i1, u.last.p.box.i1, holes - 1, u.prior); }
  }

  /** The reading ends as a reading of this cell may, and what comes before is
      in the cell it should be. */
  predicate EndsIn(g: Subtractable, i1: nat, i2: nat, holes: nat, u: Reading)
    requires 0 < i2
  {
    && u.Then? && Fits(g, u.prior, u.last)
    && match u.last
       case Word(i) => i == i2 - 1 && u.prior in Cell(g, i1, i2 - 1, holes)
       case Hole(s) =>
         holes > 0 && s in g.phrases && s.box.i2 == i2 && i2 - s.box.i1 >= g.minhole && u.prior in Cell(g, i1, s.box.i1, holes - 1)
  }

  lemma CellIs(g: Subtractable, i1: nat, i2: nat, holes: nat, u: Reading)
    requires i1 < i2
    ensures u in Cell(g, i1, i2, holes) <==> EndsIn(g, i1, i2, holes, u)
  {
    hide Fits, ByPhrases, Extended;
    ByPhrasesHas(g, i1, i2, holes, |g.phrases|, u);
    assert g.phrases[..|g.phrases|] == g.phrases;
    var ts := Cell(g, i1, i2 - 1, holes);
    ExtendedHas(g, ts, Word(i2 - 1), |ts|, u);
    assert ts[..|ts|] == ts;
    assert Cell(g, i1, i2, holes) == ByPhrases(g, i1, i2, holes, |g.phrases|) + Extended(g, ts, Word(i2 - 1), |ts|);
  }

  lemma ByWordHas(g: Subtractable, i1: nat, i2: nat, holes: nat, u: Reading)
    requires i1 < i2 && u.Then? && u.last.Word?
    requires u.prior in Cell(g, i1, i2 - 1, holes) <==> IsReading(g, i1, i2 - 1, holes, u.prior)
    ensures u in Cell(g, i1, i2, holes) <==> IsReading(g, i1, i2, holes, u)
  {
    hide Cell;
    CellIs(g, i1, i2, holes, u);
  }

  lemma ByHoleHas(g: Subtractable, i1: nat, i2: nat, holes: nat, u: Reading)
    requires i1 < i2 && u.Then? && u.last.Hole?
    requires holes > 0 ==> (u.prior in Cell(g, i1, u.last.p.box.i1, holes - 1) <==> IsReading(g, i1, u.last.p.box.i1, holes - 1, u.prior))
    ensures u in Cell(g, i1, i2, holes) <==> IsReading(g, i1, i2, holes, u)
  {
    hide Cell;
    CellIs(g, i1, i2, holes, u);
    if holes > 0 && u.prior in Cell(g, i1, u.last.p.box.i1, holes - 1) {
      InCellGoesRight(g, i1, u.last.p.box.i1, holes - 1, u.prior);
    }
  }

  lemma ShortHas(g: Subtractable, i1: nat, i2: nat, holes: nat, u: Reading)
    requires i2 <= i1 || u.Empty?
    ensures u in Cell(g, i1, i2, holes) <==> IsReading(g, i1, i2, holes, u)
  {
    if IsReading(g, i1, i2, holes, u) { ReadingGoesRight(g, i1, i2, holes, u); }
    if i1 < i2 { CellIs(g, i1, i2, holes, u); }
  }

  /** A cell has exactly the readings of its stretch with its number of holes. */
  lemma {:induction false} CellHas(g: Subtractable, i1: nat, i2: nat, holes: nat, u: Reading)
    ensures u in Cell(g, i1, i2, holes) <==> IsReading(g, i1, i2, holes, u)
    decreases u
  {
    hide Cell, IsReading, Fits;
    if i2 <= i1 || u.Empty? {
      ShortHas(g, i1, i2, holes, u);
    } else if u.last.Word? {
      CellHas(g, i1, i2 - 1, holes, u.prior);
      ByWordHas(g, i1, i2, holes, u);
    } else {
      if holes > 0 { CellHas(g, i1, u.last.p.box.i1, holes - 1, u.prior); }
      ByHoleHas(g, i1, i2, holes, u);
    }
  }

  lemma InCellGoesRight(g: Subtractable, i1: nat, i2: nat, holes: nat, u: Reading)
    requires u in Cell(g, i1, i2, holes)
    ensures i1 <= i2
  {
  }

  // ----- no reading twice

  lemma {:induction false} ExtendedOnce(g: Task, ts: seq<Reading>, e: Piece, n: nat)
    requires n <= |ts| && NoRepeat(ts)
    ensures NoRepeat(Extended(g, ts, e, n))
  {
    if n > 0 {
      ExtendedOnce(g, ts, e, n - 1);
      var a, b := Extended(g, ts, e, n - 1), if Fits(g, ts[n - 1], e) then [Then(ts[n - 1], e)] else [];
      forall u | u in a ensures u !in b { ExtendedHas(g, ts, e, n - 1, u); }
      JoinNoRepeat(a, b);
    }
  }

  lemma {:induction false} ByPhrasesOnce(g: Subtractable, i1: nat, i2: nat, holes: nat, m: nat)
    requires m <= |g.phrases| && NoRepeat(g.phrases)
    ensures NoRepeat(ByPhrases(g, i1, i2, holes, m))
    decreases i2, 0, m
  {
    hide Cell, Fits, Extended;
    if m > 0 {
      ByPhrasesOnce(g, i1, i2, holes, m - 1);
      var s := g.phrases[m - 1];
      if s.box.i2 == i2 && i2 - s.box.i1 >= g.minhole && holes > 0 {
        CellOnce(g, i1, s.box.i1, holes - 1);
        var ts := Cell(g, i1, s.box.i1, holes - 1);
        ExtendedOnce(g, ts, Hole(s), |ts|);
        var a, b := ByPhrases(g, i1, i2, holes, m - 1), Extended(g, ts, Hole(s), |ts|);
        forall u | u in a ensures u !in b { OtherPhrase(g, i1, i2, holes, m - 1, u, ts); }
        JoinNoRepeat(a, b);
      }
    }
  }

  lemma OtherPhrase(g: Subtractable, i1: nat, i2: nat, holes: nat, m: nat, u: Reading, ts: seq<Reading>)
    requires m < |g.phrases| && NoRepeat(g.phrases) && u in ByPhrases(g, i1, i2, holes, m)
    ensures u !in Extended(g, ts, Hole(g.phrases[m]), |ts|)
  {
    hide Cell, Fits, ByPhrases;
    ByPhrasesHas(g, i1, i2, holes, m, u);
    ExtendedHas(g, ts, Hole(g.phrases[m]), |ts|, u);
    var k :| 0 <= k < m && g.phrases[k] == u.last.p;
    assert g.phrases[k] != g.phrases[m];
  }

  /** From distinct phrases no reading comes twice. */
  lemma {:induction false} CellOnce(g: Subtractable, i1: nat, i2: nat, holes: nat)
    requires NoRepeat(g.phrases)
    ensures NoRepeat(Cell(g, i1, i2, holes))
    decreases i2, 1
  {
    if i1 < i2 {
      ByPhrasesOnce(g, i1, i2, holes, |g.phrases|);
      CellOnce(g, i1, i2 - 1, holes);
      var ts := Cell(g, i1, i2 - 1, holes);
      ExtendedOnce(g, ts, Word(i2 - 1), |ts|);
      var a, b := ByPhrases(g, i1, i2, holes, |g.phrases|), Extended(g, ts, Word(i2 - 1), |ts|);
      hide ByPhrases, Extended;
      forall u | u in a ensures u !in b {
        ByPhrasesHas(g, i1, i2, holes, |g.phrases|, u);
        ExtendedHas(g, ts, Word(i2 - 1), |ts|, u);
      }
      JoinNoRepeat(a, b);
    }
  }

  // ----- the chart

  type Cells = map<(nat, nat, nat), seq<Reading>>

  function At(chart: Cells, i1: nat, i2: nat, holes: nat): seq<Reading> {
    if (i1, i2, holes) in chart then chart[(i1, i2, holes)] else []
  }

  /** Only the cells of one stretch are different. */
  ghost predicate OnlyStretch(a: Cells, b: Cells, i1: nat, i2: nat) {
    forall k: nat, m: nat, h: nat {:trigger At(b, k, m, h)} :: (k, m) != (i1, i2) ==> At(b, k, m, h) == At(a, k, m, h)
  }

  lemma OnlyStretchOn(a: Cells, b: Cells, c: Cells, i1: nat, i2: nat)
    requires OnlyStretch(a, b, i1, i2) && OnlyStretch(b, c, i1, i2)
    ensures OnlyStretch(a, c, i1, i2)
  {
  }

  lemma SetStretch(a: Cells, b: Cells, i1: nat, i2: nat, h: nat, v: seq<Reading>)
    requires OnlyStretch(a, b, i1, i2)
    ensures OnlyStretch(a, b[(i1, i2, h) := v], i1, i2)
  {
    forall k: nat, m: nat, x: nat | (k, m) != (i1, i2) ensures At(b[(i1, i2, h) := v], k, m, x) == At(a, k, m, x) {
      assert At(b, k, m, x) == At(a, k, m, x);
    }
  }

  lemma SameStretch(a: Cells, i1: nat, i2: nat)
    ensures OnlyStretch(a, a, i1, i2)
  {
  }

  class SubtractionChart {
    const g: Subtractable
    var chart: Cells

    constructor (g: Subtractable)
      ensures this.g == g && chart == map[]
    {
      this.g, chart := g, map[];
    }

    /** Extends all readings of one cell by one piece, into another cell. */
    method Extend(i1: nat, k: nat, from_: nat, i2: nat, to: nat, e: Piece, ghost ts: seq<Reading>)
      requires k < i2 && At(chart, i1, k, from_) == ts
      modifies this
      ensures At(chart, i1, i2, to) == At(old(chart), i1, i2, to) + Extended(g, ts, e, |ts|)
      ensures forall h: nat :: h != to ==> At(chart, i1, i2, h) == At(old(chart), i1, i2, h)
      ensures OnlyStretch(old(chart), chart, i1, i2)
    {
      hide Fits;
      var items := At(chart, i1, k, from_);
      ghost var c0 := chart;
      for d := 0 to |items|
        invariant At(chart, i1, i2, to) == At(c0, i1, i2, to) + Extended(g, ts, e, d)
        invariant forall h: nat :: h != to ==> At(chart, i1, i2, h) == At(c0, i1, i2, h)
        invariant OnlyStretch(c0, chart, i1, i2)
      {
        if Fits(g, items[d], e) {
          SetStretch(c0, chart, i1, i2, to, At(chart, i1, i2, to) + [Then(items[d], e)]);
          chart := chart[(i1, i2, to) := At(chart, i1, i2, to) + [Then(items[d], e)]];
        }
      }
    }

    /** The stretch's cells after its words or phrases so far. */
    ghost predicate Partly(i1: nat, i2: nat, m: nat, h0: nat)
      requires m < |g.phrases|
      reads this
    {
      forall h: nat {:trigger At(chart, i1, i2, h)} :: h <= g.maxvars ==>
        At(chart, i1, i2, h) == ByPhrases(g, i1, i2, h, if h <= h0 then m + 1 else m)
    }

    /** All shorter stretches from here are final. */
    ghost predicate Shorter(i1: nat, i2: nat)
      reads this
    {
      forall k: nat, h: nat {:trigger At(chart, i1, k, h)} :: k < i2 && h <= g.maxvars ==> At(chart, i1, k, h) == Cell(g, i1, k, h)
    }

    /** One phrase that ends here, as the last piece. */
    method ByPhrase(i1: nat, i2: nat, m: nat)
      requires i1 < i2 && m < |g.phrases| && Shorter(i1, i2)
      requires forall h: nat {:trigger At(chart, i1, i2, h)} :: h <= g.maxvars ==> At(chart, i1, i2, h) == ByPhrases(g, i1, i2, h, m)
      modifies this
      ensures forall h: nat {:trigger At(chart, i1, i2, h)} :: h <= g.maxvars ==> At(chart, i1, i2, h) == ByPhrases(g, i1, i2, h, m + 1)
      ensures OnlyStretch(old(chart), chart, i1, i2)
    {
      hide Extended, Cell, OnlyStretch;
      ghost var c0 := chart;
      SameStretch(chart, i1, i2);
      var s := g.phrases[m];
      if s.box.i2 == i2 && s.box.i2 - s.box.i1 >= g.minhole {
        for h := 0 to g.maxvars
          invariant Partly(i1, i2, m, h) && OnlyStretch(c0, chart, i1, i2)
        {
          ghost var c1 := chart;
          StillShorter(c0, c1, i1, i2, s.box.i1, h);
          ghost var ts := Cell(g, i1, s.box.i1, h);
          Extend(i1, s.box.i1, h, i2, h + 1, Hole(s), ts);
          OnlyStretchOn(c0, c1, chart, i1, i2);
          assert Partly(i1, i2, m, h + 1) by {
            forall x: nat | x <= g.maxvars
              ensures At(chart, i1, i2, x) == ByPhrases(g, i1, i2, x, if x <= h + 1 then m + 1 else m)
            {
              if x == h + 1 { assert At(c1, i1, i2, x) == ByPhrases(g, i1, i2, x, m); }
              else { assert At(c1, i1, i2, x) == ByPhrases(g, i1, i2, x, if x <= h then m + 1 else m); }
            }
          }
        }
      }
    }

    lemma StillShorter(c0: Cells, c1: Cells, i1: nat, i2: nat, k: nat, h: nat)
      requires OnlyStretch(c0, c1, i1, i2) && k < i2 && h <= g.maxvars
      requires forall k: nat, h: nat {:trigger At(c0, i1, k, h)} :: k < i2 && h <= g.maxvars ==> At(c0, i1, k, h) == Cell(g, i1, k, h)
      ensures At(c1, i1, k, h) == Cell(g, i1, k, h)
    {
    }

    /** All readings of one stretch, by phrases and then by a last word. */
    method FillStretch(i1: nat, i2: nat)
      requires i1 < i2 && Shorter(i1, i2)
      requires forall h: nat {:trigger At(chart, i1, i2, h)} :: h <= g.maxvars ==> At(chart, i1, i2, h) == []
      modifies this
      ensures Shorter(i1, i2 + 1) && OnlyStretch(old(chart), chart, i1, i2)
    {
      hide OnlyStretch, ByPhrases, Extended;
      ghost var c0 := chart;
      SameStretch(chart, i1, i2);
      forall h: nat ensures ByPhrases(g, i1, i2, h, 0) == [] { NoPhrase(i1, i2, h); }
      for m := 0 to |g.phrases|
        invariant forall h: nat {:trigger At(chart, i1, i2, h)} :: h <= g.maxvars ==> At(chart, i1, i2, h) == ByPhrases(g, i1, i2, h, m)
        invariant OnlyStretch(c0, chart, i1, i2)
      {
        ghost var c1 := chart;
        StayShorter(c0, c1, i1, i2);
        ByPhrase(i1, i2, m);
        OnlyStretchOn(c0, c1, chart, i1, i2);
      }
      for h := 0 to g.maxvars + 1
        invariant forall x: nat {:trigger At(chart, i1, i2, x)} :: x <= g.maxvars ==>
                    At(chart, i1, i2, x) == if x < h then Cell(g, i1, i2, x) else ByPhrases(g, i1, i2, x, |g.phrases|)
        invariant OnlyStretch(c0, chart, i1, i2)
      {
        ghost var c1 := chart;
        StillShorter(c0, c1, i1, i2, i2 - 1, h);
        Extend(i1, i2 - 1, h, i2, h, Word(i2 - 1), Cell(g, i1, i2 - 1, h));
        OnlyStretchOn(c0, c1, chart, i1, i2);
        forall x: nat | x <= g.maxvars
          ensures At(chart, i1, i2, x) == if x < h + 1 then Cell(g, i1, i2, x) else ByPhrases(g, i1, i2, x, |g.phrases|)
        {
          assert At(c1, i1, i2, x) == if x < h then Cell(g, i1, i2, x) else ByPhrases(g, i1, i2, x, |g.phrases|);
        }
      }
      hide Cell;
      forall k: nat, h: nat | k < i2 + 1 && h <= g.maxvars ensures At(chart, i1, k, h) == Cell(g, i1, k, h) {
        if k < i2 { StillShorter(c0, chart, i1, i2, k, h); }
      }
    }

    lemma NoPhrase(i1: nat, i2: nat, h: nat)
      ensures ByPhrases(g, i1, i2, h, 0) == []
    {
    }

    lemma StayShorter(c0: Cells, c1: Cells, i1: nat, i2: nat)
      requires OnlyStretch(c0, c1, i1, i2)
      requires forall k: nat, h: nat {:trigger At(c0, i1, k, h)} :: k < i2 && h <= g.maxvars ==> At(c0, i1, k, h) == Cell(g, i1, k, h)
      ensures forall k: nat, h: nat {:trigger At(c1, i1, k, h)} :: k < i2 && h <= g.maxvars ==> At(c1, i1, k, h) == Cell(g, i1, k, h)
    {
    }

    /** The stretches up to length l, and of length l from starts below i, have
        been filled; no other has. */
    ghost predicate Filled(l: nat, i: nat)
      reads this
    {
      forall a: nat, b: nat, h: nat {:trigger At(chart, a, b, h)} :: h <= g.maxvars && b <= g.n ==>
        At(chart, a, b, h) == if Starts(g, a) && (b < a + l || (b == a + l && a < i)) then Cell(g, a, b, h) else []
    }

    /** The empty reading where phrases start. */
    method Start()
      requires chart == map[]
      modifies this
      ensures Filled(1, 0)
    {
      for i := 0 to g.n + 1
        invariant forall a: nat, b: nat, h: nat {:trigger At(chart, a, b, h)} ::
                    At(chart, a, b, h) == if a == b < i && Starts(g, a) && h == 0 then [Empty] else []
      {
        if Starts(g, i) {
          ghost var c0 := chart;
          chart := chart[(i, i, 0) := [Empty]];
          forall a: nat, b: nat, h: nat
            ensures At(chart, a, b, h) == if a == b < i + 1 && Starts(g, a) && h == 0 then [Empty] else []
          {
            assert (a, b, h) != (i, i, 0) ==> At(chart, a, b, h) == At(c0, a, b, h);
          }
        }
      }
    }

    method FillNext(l: nat, i: nat)
      requires l > 0 && i + l <= g.n && Starts(g, i) && Filled(l, i)
      modifies this
      ensures Filled(l, i + 1)
    {
      hide Cell, OnlyStretch;
      ghost var c0 := chart;
      FillStretch(i, i + l);
      forall a: nat, b: nat, h: nat | h <= g.maxvars && b <= g.n
        ensures At(chart, a, b, h) == if Starts(g, a) && (b < a + l || (b == a + l && a < i + 1)) then Cell(g, a, b, h) else []
      {
        if (a, b) != (i, i + l) { OtherStretch(c0, chart, i, i + l, a, b, h); }
      }
    }

    lemma OtherStretch(a: Cells, b: Cells, i1: nat, i2: nat, k: nat, m: nat, h: nat)
      requires OnlyStretch(a, b, i1, i2) && (k, m) != (i1, i2)
      ensures At(b, k, m, h) == At(a, k, m, h)
    {
    }

    lemma SkipNext(l: nat, i: nat)
      requires !Starts(g, i) && Filled(l, i)
      ensures Filled(l, i + 1)
    {
      hide Cell;
    }

    lemma NextLength(l: nat)
      requires l <= g.n && Filled(l, g.n - l + 1)
      ensures Filled(l + 1, 0)
    {
      hide Cell;
    }

    /** All readings of all stretches up to the given length from where phrases
        start. */
    method Fill(maxabslen: nat)
      requires chart == map[]
      modifies this
      ensures forall a: nat, b: nat, h: nat :: Starts(g, a) && a <= b <= g.n && b - a <= maxabslen && h <= g.maxvars ==>
                At(chart, a, b, h) == Cell(g, a, b, h)
    {
      hide Cell;
      Start();
      var k := if maxabslen < g.n then maxabslen else g.n;
      for l := 1 to k + 1
        invariant Filled(l, 0)
      {
        for i := 0 to g.n - l + 1
          invariant Filled(l, i)
        {
          if Starts(g, i) {
            FillNext(l, i);
          } else {
            SkipNext(l, i);
          }
        }
        NextLength(l);
      }
    }
  }
}
