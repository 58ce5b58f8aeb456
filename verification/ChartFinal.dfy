/** What holds of a span of the chart once it is finished, and that it goes on
    holding while other spans are filled. */
module ChartFinal {
  import opened Wrappers
  import opened Beams
  import opened Cubes
  import opened CellExpansion
  import opened ChartCubes
  import D = DotCharts

  /** The models, the rules of the trie nodes, what each span is seeded with,
      the limit and the threshold of bins, and the limit of expansions. */
  datatype Setup = Setup(s: Scoring, rules: Rules, seeds: map<(nat, nat), seq<Way>>, limit: Option<nat>, threshold: Option<real>,
                         popLimit: Option<nat>)

  /** Limits that leave room for an item, and a threshold that the best meets. */
  predicate LimitsOk(u: Setup) {
    (u.limit.Some? ==> u.limit.value > 0) && (u.threshold.Some? ==> u.threshold.value > 0.0)
  }

  /** A finished bin: what it holds, the lowest costs of all that was offered,
      and the cells tried. */
  datatype Final = Final(index: Index, low: map<Signature, real>, tried: seq<Cell>)

  datatype State = State(g: D.Grammar, shelves: Shelves, finals: map<(nat, nat), Final>)

  function SeedsAt(u: Setup, i: nat, j: nat): seq<Way> {
    if (i, j) in u.seeds then u.seeds[(i, j)] else []
  }

  /** The dot items that a span's bin is filled from. */
  function DotItems(g: D.Grammar, i: nat, j: nat): seq<D.DotItem> {
    D.Items(g, i, j, D.Early(g, i, j))
  }

  /** What is offered before the cubes: seeds, and rules without antecedents. */
  function Base(u: Setup, g: D.Grammar, i: nat, j: nat): seq<Way> {
    var items := DotItems(g, i, j);
    SeedsAt(u, i, j) + AloneOf(u.s, u.rules, items, i, j, |items|)
  }

  function CubesAt(u: Setup, st: State, i: nat, j: nat): seq<Cube> {
    var items := DotItems(st.g, i, j);
    CubesOf(u.s, u.rules, st.shelves, items, |items|)
  }

  /** The way is one offered before the cubes or that of a cell tried. */
  predicate Proposed(base: seq<Way>, tried: seq<Cell>, info: Cell -> Way, x: Signature, d: Derivation) {
    || (exists k :: 0 <= k < |base| && base[k].item == x && base[k].ded == d)
    || (exists k :: 0 <= k < |tried| && info(tried[k]).item == x && info(tried[k]).ded == d)
  }

  /** Every derivation held was offered. */
  ghost predicate DedsProposed(base: seq<Way>, tried: seq<Cell>, info: Cell -> Way, index: Index) {
    forall x, d {:trigger Proposed(base, tried, info, x, d)} :: x in index && d in index[x].deds ==> Proposed(base, tried, info, x, d)
  }

  /** The way is one offered before the cubes, or that of a cell tried. */
  predicate WayProposed(base: seq<Way>, tried: seq<Cell>, info: Cell -> Way, w: Way) {
    w in base || exists k :: 0 <= k < |tried| && info(tried[k]) == w
  }

  /** The first derivation of every item held was offered at the item's cost. */
  ghost predicate FirstProposed(base: seq<Way>, tried: seq<Cell>, info: Cell -> Way, index: Index) {
    forall x :: x in index ==> index[x].deds != [] && WayProposed(base, tried, info, Way(index[x].cost, x, index[x].deds[0]))
  }

  /** The bin was filled from these ways and cubes: best first, within the
      limits, keeping the cheapest items near the best. */
  ghost predicate FilledFrom(u: Setup, base: seq<Way>, cubes: seq<Cube>, i: nat, j: nat, fin: Final) {
    var info := Info(u.s, cubes, i, j);
    && Holds(fin.index, fin.low, u.limit, u.threshold)
    && LowestOver(Lowest(base, |base|), SetOf(fin.tried), info, fin.low)
    && BestFirst(Dims(cubes), info, fin.tried)
    && (u.popLimit.Some? ==> |fin.tried| <= u.popLimit.value)
    && (u.popLimit.None? || |fin.tried| < u.popLimit.value ==> SetOf(fin.tried) == AllCells(Dims(cubes)))
    && DedsProposed(base, fin.tried, info, fin.index) && FirstProposed(base, fin.tried, info, fin.index)
  }

  /** The span is finished: its shelf has what its bin holds, its nonterminals
      are those of the items held, and the bin was filled from finished bins. */
  ghost predicate FinalOk(u: Setup, st: State, i: nat, j: nat) {
    && (i, j) in st.finals && (i, j) in st.shelves
    && ShelfOf(st.shelves[(i, j)], st.finals[(i, j)].index)
    && D.Vars(st.g, i, j) == VarsOf(u.s, st.shelves[(i, j)], |st.shelves[(i, j)]|)
    && FilledFrom(u, Base(u, st.g, i, j), CubesAt(u, st, i, j), i, j, st.finals[(i, j)])
  }

  /** The state with one more finished span. */
  function WithSpan(u: Setup, st: State, i: nat, j: nat, shelf: Shelf, fin: Final): State
    requires NoRepeat(VarsOf(u.s, shelf, |shelf|))
  {
    State(D.Finished(st.g, i, j, VarsOf(u.s, shelf, |shelf|)), st.shelves[(i, j) := shelf], st.finals[(i, j) := fin])
  }

  lemma DotItemsSame(g: D.Grammar, i: nat, j: nat, ys: seq<nat>, a: nat, b: nat)
    requires NoRepeat(ys) && ((a <= i && j <= b) ==> (a, b) == (i, j))
    ensures DotItems(D.Finished(g, i, j, ys), a, b) == DotItems(g, a, b)
  {
    hide D.Items, D.Early;
    var h := D.Finished(g, i, j, ys);
    assert D.Agree(g, h, a, b);
    D.EarlySame(g, h, a, b);
    D.ItemsSame(g, h, a, b, D.Early(g, a, b));
  }

  lemma SidesSame(g: D.Grammar, shelves: Shelves, i: nat, j: nat, shelf: Shelf, a: nat, b: nat, k: nat)
    requires ((a <= i && j <= b) ==> (a, b) == (i, j)) && k < |D.Early(g, a, b)|
    ensures SameSides(shelves, shelves[(i, j) := shelf], DotItems(g, a, b)[k])
  {
    hide D.Early;
    var t := D.Early(g, a, b)[k];
    assert DotItems(g, a, b)[k] == D.ItemOf(g, a, b, t);
    forall m | 0 <= m < |D.BinsUsed(t)|
      ensures ShelfAt(shelves, D.BinsUsed(t)[m].1, D.BinsUsed(t)[m].2)
           == ShelfAt(shelves[(i, j) := shelf], D.BinsUsed(t)[m].1, D.BinsUsed(t)[m].2)
    {
      D.EarlyBins(g, a, b, t, D.BinsUsed(t)[m]);
    }
  }

  /** Finishing a span changes neither what a span not around it is filled from,
      nor what it is itself filled from. */
  lemma SourcesSame(u: Setup, st: State, i: nat, j: nat, shelf: Shelf, fin: Final, a: nat, b: nat)
    requires NoRepeat(VarsOf(u.s, shelf, |shelf|)) && ((a <= i && j <= b) ==> (a, b) == (i, j))
    ensures Base(u, WithSpan(u, st, i, j, shelf, fin).g, a, b) == Base(u, st.g, a, b)
    ensures CubesAt(u, WithSpan(u, st, i, j, shelf, fin), a, b) == CubesAt(u, st, a, b)
  {
    hide VarsOf, AloneOf, CubesOf, SameSides;
    DotItemsSame(st.g, i, j, VarsOf(u.s, shelf, |shelf|), a, b);
    var items := DotItems(st.g, a, b);
    forall k | 0 <= k < |items| ensures SameSides(st.shelves, st.shelves[(i, j) := shelf], items[k]) {
      SidesSame(st.g, st.shelves, i, j, shelf, a, b, k);
    }
    CubesSame(u.s, u.rules, st.shelves, st.shelves[(i, j) := shelf], items, |items|);
  }

  /** A finished span stays finished. */
  lemma FinalStays(u: Setup, st: State, i: nat, j: nat, shelf: Shelf, fin: Final, a: nat, b: nat)
    requires NoRepeat(VarsOf(u.s, shelf, |shelf|)) && !(a <= i && j <= b)
    requires FinalOk(u, st, a, b)
    ensures FinalOk(u, WithSpan(u, st, i, j, shelf, fin), a, b)
  {
    hide VarsOf, FilledFrom, ShelfOf, Base, CubesAt;
    SourcesSame(u, st, i, j, shelf, fin, a, b);
  }

  /** A span that has just been filled is finished. */
  lemma FinalHere(u: Setup, st: State, i: nat, j: nat, shelf: Shelf, fin: Final)
    requires NoRepeat(VarsOf(u.s, shelf, |shelf|)) && ShelfOf(shelf, fin.index)
    requires FilledFrom(u, Base(u, st.g, i, j), CubesAt(u, st, i, j), i, j, fin)
    ensures FinalOk(u, WithSpan(u, st, i, j, shelf, fin), i, j)
  {
    hide VarsOf, FilledFrom, ShelfOf, Base, CubesAt;
    SourcesSame(u, st, i, j, shelf, fin, i, j);
  }

  // ----- all spans before a place

  ghost predicate FinalBefore(u: Setup, st: State, l: nat, i: nat) {
    forall a: nat, b: nat {:trigger D.Before(a, b, l, i)} :: a < b < st.g.n && D.Before(a, b, l, i) ==> FinalOk(u, st, a, b)
  }

  lemma FinalNext(u: Setup, st: State, l: nat, i: nat, shelf: Shelf, fin: Final)
    requires 0 < l && NoRepeat(VarsOf(u.s, shelf, |shelf|)) && ShelfOf(shelf, fin.index) && FinalBefore(u, st, l, i)
    requires FilledFrom(u, Base(u, st.g, i, i + l), CubesAt(u, st, i, i + l), i, i + l, fin)
    ensures FinalBefore(u, WithSpan(u, st, i, i + l, shelf, fin), l, i + 1)
  {
    hide VarsOf, FilledFrom, ShelfOf, Base, CubesAt, FinalOk;
    var st' := WithSpan(u, st, i, i + l, shelf, fin);
    forall a: nat, b: nat | a < b < st'.g.n && D.Before(a, b, l, i + 1) ensures FinalOk(u, st', a, b) {
      if (a, b) == (i, i + l) {
        FinalHere(u, st, i, i + l, shelf, fin);
      } else {
        assert D.Before(a, b, l, i);
        FinalStays(u, st, i, i + l, shelf, fin, a, b);
      }
    }
  }

  lemma FinalNextLength(u: Setup, st: State, l: nat)
    requires l < st.g.n && FinalBefore(u, st, l, st.g.n - l)
    ensures FinalBefore(u, st, l + 1, 0)
  {
    hide FinalOk;
    forall a: nat, b: nat | a < b < st.g.n && D.Before(a, b, l + 1, 0) ensures FinalOk(u, st, a, b) {
      assert D.Before(a, b, l, st.g.n - l);
    }
  }

  /** All spans are finished. */
  ghost predicate Complete(u: Setup, st: State) {
    forall a: nat, b: nat {:trigger FinalOk(u, st, a, b)} :: a < b < st.g.n ==> FinalOk(u, st, a, b)
  }
}
