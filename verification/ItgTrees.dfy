/** The permutation parser behind the ITG binarizer, on values: trees over
    straight and inverted nodes, the greedy shift-reduce run, and the
    confluence argument that makes the greedy run complete. */
module ItgTrees {

  /** A binary straight/inverted tree whose leaves are permutation values. */
  datatype Tree =
    | Leaf(value: int)
    | Straight(left: Tree, right: Tree)
    | Inverted(left: Tree, right: Tree)

  /** An interval of values, as a stack entry carries it. */
  datatype Span = Span(lo: int, hi: int)

  function Yield(t: Tree): (y: seq<int>)
    ensures |y| > 0
  {
    match t
    case Leaf(v) => [v]
    case Straight(l, r) => Yield(l) + Yield(r)
    case Inverted(l, r) => Yield(l) + Yield(r)
  }

  function SpanOf(t: Tree): Span {
    match t
    case Leaf(v) => Span(v, v)
    case Straight(l, r) => Span(SpanOf(l).lo, SpanOf(r).hi)
    case Inverted(l, r) => Span(SpanOf(r).lo, SpanOf(l).hi)
  }

  predicate StraightPair(a: Span, b: Span) {
    a.hi == b.lo - 1
  }

  predicate InvertedPair(a: Span, b: Span) {
    a.lo == b.hi + 1
  }

  predicate Combinable(a: Span, b: Span) {
    StraightPair(a, b) || InvertedPair(a, b)
  }

  function Join(a: Span, b: Span): Span {
    if StraightPair(a, b) then Span(a.lo, b.hi) else Span(b.lo, a.hi)
  }

  /** Children are contiguous in value, in the order their node's tag says. */
  predicate WellFormed(t: Tree) {
    match t
    case Leaf(v) => true
    case Straight(l, r) => WellFormed(l) && WellFormed(r) && StraightPair(SpanOf(l), SpanOf(r))
    case Inverted(l, r) => WellFormed(l) && WellFormed(r) && InvertedPair(SpanOf(l), SpanOf(r))
  }

  /** A permutation is binarizable when some well-formed tree has it as yield. */
  ghost predicate Binarizable(a: seq<int>) {
    exists t :: WellFormed(t) && Yield(t) == a
  }

  // ----- what a well-formed tree covers

  lemma {:induction false} YieldFillsSpan(t: Tree)
    requires WellFormed(t)
    ensures SpanOf(t).lo <= SpanOf(t).hi
    ensures |Yield(t)| == SpanOf(t).hi - SpanOf(t).lo + 1
    ensures forall v :: v in Yield(t) <==> SpanOf(t).lo <= v <= SpanOf(t).hi
  {
    match t
    case Leaf(v) =>
    case Straight(l, r) => YieldFillsSpan(l); YieldFillsSpan(r);
    case Inverted(l, r) => YieldFillsSpan(l); YieldFillsSpan(r);
  }

  // ----- the greedy run over spans

  /** The parser's stack, bottom first. */
  datatype Stack<T> = Empty | Push(below: Stack<T>, top: T)

  function Height<T>(s: Stack<T>): nat {
    match s
    case Empty => 0
    case Push(b, _) => Height(b) + 1
  }

  /** Push a span, then combine the two top entries for as long as they are
      contiguous. */
  function Settle(s: Stack<Span>, y: Span): (r: Stack<Span>)
    ensures r.Push?
    decreases s
  {
    match s
    case Empty => Push(s, y)
    case Push(b, x) => if Combinable(x, y) then Settle(b, Join(x, y)) else Push(s, y)
  }

  /** Shift every value in turn, reducing after each shift. */
  function Run(a: seq<int>, s: Stack<Span>): Stack<Span>
    decreases |a|
  {
    if a == [] then s else Run(a[1..], Settle(s, Span(a[0], a[0])))
  }

  /** No two neighbours on the stack can be combined. */
  predicate Irreducible(s: Stack<Span>) {
    match s
    case Push(Push(b, x), y) => !Combinable(x, y) && Irreducible(s.below)
    case _ => true
  }

  predicate Disjoint(a: Span, b: Span) {
    a.hi < b.lo || b.hi < a.lo
  }

  /** The span shares no value with any entry of the stack. */
  predicate Apart(s: Stack<Span>, b: Span) {
    match s
    case Empty => true
    case Push(r, x) => x.lo <= x.hi && Disjoint(x, b) && Apart(r, b)
  }

  predicate PairwiseDisjoint(s: Stack<Span>) {
    match s
    case Empty => true
    case Push(r, x) => Apart(r, x) && PairwiseDisjoint(r)
  }

  lemma {:induction false} RunConcat(a: seq<int>, b: seq<int>, s: Stack<Span>)
    ensures Run(a + b, s) == Run(b, Run(a, s))
    decreases |a|
  {
    if a == [] {
      assert a + b == b;
    } else {
      assert (a + b)[1..] == a[1..] + b;
      RunConcat(a[1..], b, Settle(s, Span(a[0], a[0])));
    }
  }

  lemma {:induction false} SettleIrreducible(s: Stack<Span>, y: Span)
    requires Irreducible(s)
    ensures Irreducible(Settle(s, y))
    decreases s
  {
    if s.Push? && Combinable(s.top, y) {
      SettleIrreducible(s.below, Join(s.top, y));
    }
  }

  lemma {:induction false} ApartJoin(s: Stack<Span>, x: Span, y: Span)
    requires Apart(s, x) && Apart(s, y) && x.lo <= x.hi && y.lo <= y.hi && Combinable(x, y)
    ensures Apart(s, Join(x, y))
    decreases s
  {
    if s.Push? { ApartJoin(s.below, x, y); }
  }

  lemma {:induction false} ApartHalves(s: Stack<Span>, x: Span, y: Span)
    requires Apart(s, Join(x, y)) && x.lo <= x.hi && y.lo <= y.hi && Combinable(x, y)
    ensures Apart(s, x) && Apart(s, y)
    decreases s
  {
    if s.Push? { ApartHalves(s.below, x, y); }
  }

  /** Settling keeps the entries apart from each other and from `b`. */
  lemma {:induction false} SettleApart(s: Stack<Span>, y: Span, b: Span)
    requires Apart(s, b) && Apart(s, y) && PairwiseDisjoint(s) && b.lo <= b.hi && y.lo <= y.hi && Disjoint(y, b)
    ensures Apart(Settle(s, y), b) && PairwiseDisjoint(Settle(s, y))
    decreases s
  {
    if s.Push? && Combinable(s.top, y) {
      ApartJoin(s.below, s.top, y);
      SettleApart(s.below, Join(s.top, y), b);
    }
  }

  /** Confluence, one step: pushing the two halves of a contiguous block one
      after the other leaves the stack that pushing the block whole leaves. */
  lemma {:induction false} Absorb(s: Stack<Span>, l: Span, r: Span)
    requires Irreducible(s) && PairwiseDisjoint(s) && Apart(s, l) && Apart(s, r)
    requires l.lo <= l.hi && r.lo <= r.hi && Combinable(l, r)
    ensures Settle(Settle(s, l), r) == Settle(s, Join(l, r))
    decreases s
  {
    if s.Push? && Combinable(s.top, l) {
      var al := Join(s.top, l);
      ApartJoin(s.below, s.top, l);
      Absorb(s.below, al, r);
      assert Join(al, r) == Join(s.top, Join(l, r)) && Combinable(s.top, Join(l, r));
    }
  }

  /** Confluence: reading the leaves of a separable block one by one gives the
      stack that pushing the block's span gives. */
  lemma {:induction false} RunIsPush(t: Tree, s: Stack<Span>)
    requires WellFormed(t) && Irreducible(s) && PairwiseDisjoint(s) && Apart(s, SpanOf(t))
    ensures Run(Yield(t), s) == Settle(s, SpanOf(t))
    decreases t
  {
    if t.Leaf? {
      assert Yield(t)[1..] == [];
    } else {
      var l, r := t.left, t.right;
      YieldFillsSpan(l);
      YieldFillsSpan(r);
      RunConcat(Yield(l), Yield(r), s);
      ApartHalves(s, SpanOf(l), SpanOf(r));
      RunIsPush(l, s);
      SettleIrreducible(s, SpanOf(l));
      SettleApart(s, SpanOf(l), SpanOf(r));
      RunIsPush(r, Settle(s, SpanOf(l)));
      Absorb(s, SpanOf(l), SpanOf(r));
    }
  }

  // ----- the same run carrying trees, as the node table does

  function Spans(s: Stack<Tree>): (r: Stack<Span>)
    ensures Height(r) == Height(s)
  {
    match s
    case Empty => Empty
    case Push(b, t) => Push(Spans(b), SpanOf(t))
  }

  function Yields(s: Stack<Tree>): seq<int> {
    match s
    case Empty => []
    case Push(b, t) => Yields(b) + Yield(t)
  }

  function Pair(a: Tree, b: Tree): Tree {
    if StraightPair(SpanOf(a), SpanOf(b)) then Straight(a, b) else Inverted(a, b)
  }

  function SettleTrees(s: Stack<Tree>, y: Tree): (r: Stack<Tree>)
    ensures r.Push?
    decreases s
  {
    match s
    case Empty => Push(s, y)
    case Push(b, x) => if Combinable(SpanOf(x), SpanOf(y)) then SettleTrees(b, Pair(x, y)) else Push(s, y)
  }

  function RunTrees(a: seq<int>, s: Stack<Tree>): Stack<Tree>
    decreases |a|
  {
    if a == [] then s else RunTrees(a[1..], SettleTrees(s, Leaf(a[0])))
  }

  predicate AllWellFormed(s: Stack<Tree>) {
    match s
    case Empty => true
    case Push(b, t) => WellFormed(t) && AllWellFormed(b)
  }

  lemma {:induction false} SettleTreesSound(s: Stack<Tree>, y: Tree)
    requires AllWellFormed(s) && WellFormed(y)
    ensures AllWellFormed(SettleTrees(s, y))
    ensures Yields(SettleTrees(s, y)) == Yields(s) + Yield(y)
    ensures Spans(SettleTrees(s, y)) == Settle(Spans(s), SpanOf(y))
    decreases s
  {
    if s.Push? && Combinable(SpanOf(s.top), SpanOf(y)) {
      assert (Yields(s.below) + Yield(s.top)) + Yield(y) == Yields(s.below) + (Yield(s.top) + Yield(y));
      SettleTreesSound(s.below, Pair(s.top, y));
    }
  }

  lemma {:induction false} RunTreesSound(a: seq<int>, s: Stack<Tree>)
    requires AllWellFormed(s)
    ensures AllWellFormed(RunTrees(a, s))
    ensures Yields(RunTrees(a, s)) == Yields(s) + a
    ensures Spans(RunTrees(a, s)) == Run(a, Spans(s))
    decreases |a|
  {
    if a != [] {
      SettleTreesSound(s, Leaf(a[0]));
      RunTreesSound(a[1..], SettleTrees(s, Leaf(a[0])));
      assert (Yields(s) + [a[0]]) + a[1..] == Yields(s) + a;
    }
  }

  lemma RunTreesYield(a: seq<int>)
    ensures Yields(RunTrees(a, Empty)) == a
  {
    RunTreesSound(a, Empty);
    assert Yields(Empty) + a == a;
  }

  lemma {:induction false} RunTreesConcat(a: seq<int>, b: seq<int>, s: Stack<Tree>)
    ensures RunTrees(a + b, s) == RunTrees(b, RunTrees(a, s))
    decreases |a|
  {
    if a == [] {
      assert a + b == b;
    } else {
      assert (a + b)[1..] == a[1..] + b;
      RunTreesConcat(a[1..], b, SettleTrees(s, Leaf(a[0])));
    }
  }

  /** After some values the stack still fits the values that are left. */
  lemma PrefixRun(a: seq<int>, i: nat)
    requires i < |a|
    ensures RunTrees(a[..i + 1], Empty) == SettleTrees(RunTrees(a[..i], Empty), Leaf(a[i]))
    ensures Height(RunTrees(a[..i], Empty)) <= i
  {
    assert a[..i + 1] == a[..i] + [a[i]] && [a[i]][1..] == [];
    RunTreesConcat(a[..i], [a[i]], Empty);
    RunTreesSound(a[..i], Empty);
    HeightBound(RunTrees(a[..i], Empty));
    assert Yields(Empty) + a[..i] == a[..i];
  }

  lemma {:induction false} HeightBound(s: Stack<Tree>)
    ensures Height(s) <= |Yields(s)|
  {
    if s.Push? { HeightBound(s.below); }
  }

  /** The run ends with an entry when there is a value, and with none else. */
  lemma ParseHeight(a: seq<int>)
    ensures Height(RunTrees(a, Empty)) == 0 <==> a == []
  {
    RunTreesYield(a);
    HeightBound(RunTrees(a, Empty));
    if a != [] {
      assert RunTrees(a, Empty).Push?;
    }
  }

  /** Main theorem of the parser: on every nonempty input the greedy run ends
      with one entry exactly when some binary tree exists, and that entry is
      such a tree. */
  lemma GreedyIsComplete(a: seq<int>)
    requires a != []
    ensures Height(RunTrees(a, Empty)) == 1 <==> Binarizable(a)
    ensures Height(RunTrees(a, Empty)) == 1 ==>
              WellFormed(RunTrees(a, Empty).top) && Yield(RunTrees(a, Empty).top) == a
  {
    var s := RunTrees(a, Empty);
    RunTreesSound(a, Empty);
    assert Yields(Empty) + a == a;
    if Height(s) == 1 {
      assert Yields(s.below) == [] && Yields(s) == Yield(s.top);
    }
    if Binarizable(a) {
      var t :| WellFormed(t) && Yield(t) == a;
      RunIsPush(t, Empty);
      assert Height(Spans(s)) == 1;
    }
  }

  /** Between shifts no two neighbours on the stack can be combined. */
  lemma {:induction false} RunTreesIrreducible(a: seq<int>, s: Stack<Tree>)
    requires AllWellFormed(s) && Irreducible(Spans(s))
    ensures Irreducible(Spans(RunTrees(a, s)))
    decreases |a|
  {
    if a != [] {
      SettleTreesSound(s, Leaf(a[0]));
      SettleIrreducible(Spans(s), Span(a[0], a[0]));
      RunTreesIrreducible(a[1..], SettleTrees(s, Leaf(a[0])));
    }
  }
}
