/** What the emitter establishes for a row of the node table: the source block
    and the target interval that the row's rules expand to. */
module ItgEmit {
  import opened Wrappers
  import opened ItgRules
  import opened ItgNodes

  /** Number of variables below a node. */
  function Width(nd: Node): int {
    nd.right - nd.left + 1
  }

  // ----- a variable with the words around it

  /** A symbol standing for variable `p` with the source words around it. */
  predicate Associated(x: Rule, tbl: Table, sym: Sym, p: nat, from: int, to: int)
    requires p < |x.rhsIdx|
  {
    && Known(tbl, sym) && (sym.Rt? || sym.Vt?) && Vars(tbl, sym) == 1 && 0 <= from <= to <= |x.rhs|
    && SymSource(tbl, sym, p) == SourceCut(x, from, to)
    && SymTarget(tbl, sym, p) == LeafVar(x, p)
  }

  lemma AssociatedBare(x: Rule, tbl: Table, p: nat)
    requires p < |x.rhsIdx|
    ensures Associated(x, tbl, Rt(x.rhs[x.rhsIdx[p]]), p, x.rhsIdx[p], x.rhsIdx[p] + 1)
  {
    SourceVar(x, p);
    assert SourceCut(x, x.rhsIdx[p] + 1, x.rhsIdx[p] + 1) == Nil;
  }

  /** The rule that joins the next word on the left or right. */
  function WordRule(x: Rule, sym: Sym, i: nat, leftward: bool): VRule
    requires i < |x.rhs|
  {
    if leftward then VRule(Cw(x.rhs[i]), sym, [Ix(0)], false) else VRule(sym, Cw(x.rhs[i]), [Ix(0)], false)
  }

  lemma AssociatedLeft(x: Rule, tbl: Table, tbl': Table, sym: Sym, id: nat, p: nat, from: int, to: int)
    requires p < |x.rhsIdx| && 0 < from && from - 1 !in x.rhsIdx
    requires Associated(x, tbl, sym, p, from, to) && tbl <= tbl'
    requires id < |tbl'| && tbl'[id] == WordRule(x, sym, from - 1, true)
    ensures Associated(x, tbl', Vt(id), p, from - 1, to)
  {
    GrowthKeepsSym(tbl, tbl', sym, p);
    SourceWord(x, from - 1);
    AssocExpands(tbl', tbl'[id], p);
    RowOf(tbl', id, p);
  }

  lemma AssociatedRight(x: Rule, tbl: Table, tbl': Table, sym: Sym, id: nat, p: nat, from: int, to: int)
    requires p < |x.rhsIdx| && 0 <= to < |x.rhs| && to !in x.rhsIdx
    requires Associated(x, tbl, sym, p, from, to) && tbl <= tbl'
    requires id < |tbl'| && tbl'[id] == WordRule(x, sym, to, false)
    ensures Associated(x, tbl', Vt(id), p, from, to + 1)
  {
    GrowthKeepsSym(tbl, tbl', sym, p);
    SourceWord(x, to);
    AssocExpands(tbl', tbl'[id], p);
    RowOf(tbl', id, p);
    SourceCutJoin(x, from, to, to + 1);
    assert SourceCut(x, to, to + 1) == Cons(SourceAt(x, to), Nil);
  }

  /** The kids of the top rule of a rule with one variable: at most one word is
      not yet joined to the variable. */
  predicate OneVariableKids(x: Rule, sym: Sym, from: int, to: int, r: VRule) {
    || (from == 1 && to == |x.rhs| && r.kid0 == Cw(x.rhs[0]) && r.kid1 == sym)
    || (from == 0 && to == |x.rhs| - 1 && r.kid0 == sym && r.kid1 == Cw(x.rhs[|x.rhs| - 1]))
    || (from == 0 && to == |x.rhs| && r.kid0 == sym && r.kid1 == Nu)
  }

  lemma OneVariableRestores(x: Rule, tbl: Table, sym: Sym, from: int, to: int, r: VRule)
    requires |x.alignment| == 1 && from <= x.rhsIdx[0] < to && Associated(x, tbl, sym, 0, from, to)
    requires r.lm == LeafLm(x, 1, 0, |x.lhs| - 1, 0) && OneVariableKids(x, sym, from, to, r)
    ensures Restores(tbl, r, x)
  {
    OneVariableSource(x, tbl, sym, from, to, r);
    var e0, e1 := SymTarget(tbl, r.kid0, 0), SymTarget(tbl, r.kid1, 0 + Vars(tbl, r.kid0));
    AppendNil(e0);
    LeafLmSpells(x, 0, 0, |x.lhs| - 1, 0, r.kid0.Cw? || r.kid1.Cw?, e0, e1);
  }

  lemma OneVariableSource(x: Rule, tbl: Table, sym: Sym, from: int, to: int, r: VRule)
    requires |x.alignment| == 1 && from <= x.rhsIdx[0] < to && Associated(x, tbl, sym, 0, from, to)
    requires OneVariableKids(x, sym, from, to, r)
    ensures KnownRule(tbl, r) && RuleSource(tbl, r, 0) == SourceSide(x)
  {
    if from == 1 {
      SourceWord(x, 0);
      AppendOne(SourceAt(x, 0), SourceCut(x, 1, |x.rhs|));
    } else if to == |x.rhs| - 1 {
      SourceWord(x, to);
      SourceCutJoin(x, 0, to, to + 1);
      assert SourceCut(x, to, to + 1) == Cons(SourceAt(x, to), Nil);
    }
    AppendNil(SymSource(tbl, sym, 0));
  }

  // ----- rules without variables

  /** A symbol standing for the first `i` source words; from the second word on
      it carries the whole target side. */
  predicate Lexical(x: Rule, tbl: Table, label0: Sym, i: nat) {
    && 1 <= i <= |x.rhs| && Known(tbl, label0) && Vars(tbl, label0) == 0
    && SymSource(tbl, label0, 0) == SourceCut(x, 0, i)
    && if i == 1 then label0 == Cw(x.rhs[0]) else label0.Vt? && SymTarget(tbl, label0, 0) == TargetSide(x)
  }

  lemma LexicalStart(x: Rule, tbl: Table)
    requires x.alignment == []
    ensures Lexical(x, tbl, Cw(x.rhs[0]), 1)
  {
    SourceWord(x, 0);
    assert SourceCut(x, 1, 1) == Nil;
  }

  /** The rule that joins the next word, the first of them with all target
      words. */
  function LexRule(x: Rule, label0: Sym, i: nat): VRule
    requires i < |x.rhs|
  {
    VRule(label0, Cw(x.rhs[i]), if i == 1 then AllWords(x, 0) else [Ix(0)], false)
  }

  lemma LexRuleExpands(x: Rule, tbl: Table, label0: Sym, i: nat)
    requires x.alignment == [] && Lexical(x, tbl, label0, i) && i < |x.rhs|
    ensures RuleSource(tbl, LexRule(x, label0, i), 0) == SourceCut(x, 0, i + 1)
    ensures RuleTarget(tbl, LexRule(x, label0, i), 0) == TargetSide(x)
  {
    var r := LexRule(x, label0, i);
    SourceWord(x, i);
    SourceCutJoin(x, 0, i, i + 1);
    assert SourceCut(x, i, i + 1) == Cons(SourceAt(x, i), Nil);
    if i == 1 {
      WordsOnly(x, 0, true, SymTarget(tbl, label0, 0), Nil);
    } else {
      AssocExpands(tbl, r, 0);
    }
  }

  lemma LexicalStep(x: Rule, tbl: Table, tbl': Table, label0: Sym, id: nat, i: nat)
    requires x.alignment == [] && Lexical(x, tbl, label0, i) && i < |x.rhs|
    requires tbl <= tbl' && id < |tbl'| && tbl'[id] == LexRule(x, label0, i)
    ensures Lexical(x, tbl', Vt(id), i + 1)
  {
    LexRuleExpands(x, tbl, label0, i);
    GrowthKeepsRule(tbl, tbl', tbl'[id], 0);
    RowOf(tbl', id, 0);
  }

  /** A rule of a single source word. */
  lemma OneWordRestores(x: Rule, tbl: Table)
    requires x.alignment == [] && |x.rhs| == 1
    ensures Restores(tbl, VRule(Cw(x.rhs[0]), Nu, AllWords(x, 0), false), x)
  {
    SourceWord(x, 0);
    WordsOnly(x, 0, true, Nil, Nil);
    AppendNil(Cons(Word(x.rhs[0]), Nil));
  }

  // ----- an emitted row

  /** The row has a symbol for its variables, `p` being the first. */
  predicate Sized(x: Rule, tbl: Table, nd: Node, p: int) {
    && Known(tbl, nd.sym) && (nd.sym.Rt? || nd.sym.Vt?) && nd.virt == nd.sym.Vt?
    && 1 <= nd.left <= nd.right && 0 <= p && p + Width(nd) <= |x.alignment|
    && Vars(tbl, nd.sym) == Width(nd)
  }

  /** The symbol expands to the block of source positions its variables take. */
  predicate SpellsSource(x: Rule, tbl: Table, nd: Node, p: int) {
    SymSource(tbl, nd.sym, p) == SourceCut(x, CLo(x, p), CHi(x, p + Width(nd) - 1))
  }

  /** A leaf's target side is its variable alone, any other node's is the
      target interval recorded in the row. */
  predicate SpellsTarget(x: Rule, tbl: Table, nd: Node, p: int) {
    if IsLeaf(nd) then
      && 0 <= p < |x.alignment| && x.alignment[p] == nd.left
      && SymTarget(tbl, nd.sym, p) == LeafVar(x, p)
    else SymTarget(tbl, nd.sym, p) == TargetCut(x, nd.eLeft, nd.eRight + 1)
  }

  predicate Emitted(x: Rule, tbl: Table, nd: Node, p: int) {
    Sized(x, tbl, nd, p) && SpellsSource(x, tbl, nd, p) && SpellsTarget(x, tbl, nd, p)
  }

  lemma GrowthKeepsEmitted(x: Rule, tbl: Table, tbl': Table, nd: Node, p: int)
    requires Emitted(x, tbl, nd, p) && tbl <= tbl'
    ensures Emitted(x, tbl', nd, p)
  {
    GrowthKeepsSym(tbl, tbl', nd.sym, p);
  }

  // ----- target intervals

  /** Whether the anchor of rank `k + 1` is marked. */
  function Covered(x: Rule, mask: seq<bool>, k: int): bool {
    if 0 <= Anchor(x, k) < |mask| then mask[Anchor(x, k)] else false
  }

  /** Where a block starting at rank `lo` reaches to the left: back to the
      previous anchor while that anchor is not covered yet, else not at all. */
  function ELo(x: Rule, lo: int, mask: seq<bool>): int {
    if lo > 1 then if Covered(x, mask, lo - 2) then Anchor(x, lo - 1) else Anchor(x, lo - 2) + 1 else 0
  }

  function EHi(x: Rule, hi: int, mask: seq<bool>): int {
    if hi < |x.lhsIdx| then if Covered(x, mask, hi) then Anchor(x, hi - 1) else Anchor(x, hi) - 1 else |x.lhs| - 1
  }

  /** `mask` is `m0` with the anchors of ranks lo..hi marked as well. */
  predicate MaskAfter(x: Rule, m0: seq<bool>, mask: seq<bool>, lo: int, hi: int) {
    && |m0| == |x.lhs| && |mask| == |x.lhs|
    && forall k {:trigger Covered(x, mask, k)} :: 0 <= k < |x.lhsIdx| ==>
         Covered(x, mask, k) == (Covered(x, m0, k) || lo <= k + 1 <= hi)
  }

  predicate Uncovered(x: Rule, mask: seq<bool>, lo: int, hi: int) {
    && |mask| == |x.lhs|
    && forall k {:trigger Covered(x, mask, k)} :: 0 <= k < |x.lhsIdx| && lo <= k + 1 <= hi ==> !Covered(x, mask, k)
  }

  /** No anchor other than that of rank `v` lies in the interval. */
  predicate OwnAnchorOnly(x: Rule, v: int, eLeft: int, eRight: int) {
    && 0 <= eLeft <= Anchor(x, v - 1) <= eRight < |x.lhs|
    && forall k {:trigger x.lhsIdx[k]} :: 0 <= k < |x.lhsIdx| && eLeft <= x.lhsIdx[k] <= eRight ==> k == v - 1
  }

  /** An interval between the neighbouring anchors holds its own anchor only. */
  lemma BetweenAnchors(x: Rule, v: int, eLeft: int, eRight: int)
    requires 1 <= v <= |x.lhsIdx| && 0 <= eLeft <= x.lhsIdx[v - 1] <= eRight < |x.lhs|
    requires v > 1 ==> x.lhsIdx[v - 2] < eLeft
    requires v < |x.lhsIdx| ==> eRight < x.lhsIdx[v]
    ensures OwnAnchorOnly(x, v, eLeft, eRight)
  {
    forall k | v < k < |x.lhsIdx| ensures x.lhsIdx[v] < x.lhsIdx[k] { assert Before(x.lhsIdx, v, k); }
    forall k | 0 <= k < v - 2 ensures x.lhsIdx[k] < x.lhsIdx[v - 2] { assert Before(x.lhsIdx, k, v - 2); }
  }

  /** The row's target interval is usable by its parent. */
  predicate Placed(x: Rule, nd: Node) {
    if IsLeaf(nd) then OwnAnchorOnly(x, nd.left, nd.eLeft, nd.eRight)
    else 0 <= nd.eLeft <= nd.eRight + 1 <= |x.lhs|
  }

  /** A node's contribution to its parent's target string. */
  function NodeLm(x: Rule, nd: Node, ord: nat): seq<LmSym> {
    if IsLeaf(nd) then LeafLm(x, nd.left, nd.eLeft, nd.eRight, ord) else [Ix(ord)]
  }

  lemma NodeLmSpells(x: Rule, tbl: Table, nd: Node, p: int, ord: nat, e0: List<Out>, e1: List<Out>)
    requires SpellsTarget(x, tbl, nd, p) && Placed(x, nd) && ord < 2
    requires (if ord == 0 then e0 else e1) == SymTarget(tbl, nd.sym, p)
    ensures ExpandLm(NodeLm(x, nd, ord), false, e0, e1) == TargetCut(x, nd.eLeft, nd.eRight + 1)
  {
    if IsLeaf(nd) {
      LeafLmSpells(x, p, nd.eLeft, nd.eRight, ord, false, e0, e1);
    } else {
      assert [Ix(ord)][1..] == [];
      AppendNil(SymTarget(tbl, nd.sym, p));
    }
  }

  /** The rule a binary node gives rise to. */
  function PairRule(x: Rule, l: Node, r: Node, inverted: bool): VRule {
    VRule(l.sym, r.sym,
          if inverted then NodeLm(x, r, 1) + NodeLm(x, l, 0) else NodeLm(x, l, 0) + NodeLm(x, r, 1), inverted)
  }

  /** The rule has as many variables as ranks, all of them in the rule. */
  predicate SpanFits(x: Rule, tbl: Table, v: VRule, left: int, right: int, p: int) {
    && KnownRule(tbl, v) && Vars(tbl, v.kid0) + Vars(tbl, v.kid1) == right - left + 1
    && 1 <= left <= right && 0 <= p && p + right - left < |x.alignment|
  }

  /** The rule expands to one block of source positions and to the target
      interval that a block of these ranks reaches. */
  predicate Spans(x: Rule, tbl: Table, v: VRule, left: int, right: int, p: int, m0: seq<bool>) {
    && SpanFits(x, tbl, v, left, right, p)
    && RuleSource(tbl, v, p) == SourceCut(x, CLo(x, p), CHi(x, p + right - left))
    && RuleTarget(tbl, v, p) == TargetCut(x, ELo(x, left, m0), EHi(x, right, m0) + 1)
  }

  /** The source blocks of neighbouring runs of variables are neighbours. */
  lemma BlocksMeet(x: Rule, p: int, m: int, q: int)
    requires 0 <= p <= m < q < |x.rhsIdx|
    ensures 0 <= CLo(x, p) <= CHi(x, m) == CLo(x, m + 1) <= CHi(x, q) <= |x.rhs|
  {
    LeafSegment(x, p);
    LeafSegment(x, q);
    assert p < m ==> Before(x.rhsIdx, p, m);
    assert Before(x.rhsIdx, m, m + 1);
    assert m + 1 < q ==> Before(x.rhsIdx, m + 1, q);
  }

  lemma PairRuleSource(x: Rule, tbl: Table, l: Node, r: Node, p: int, v: VRule, q: int)
    requires Sized(x, tbl, l, p) && Sized(x, tbl, r, p + Width(l))
    requires SpellsSource(x, tbl, l, p) && SpellsSource(x, tbl, r, p + Width(l))
    requires v.kid0 == l.sym && v.kid1 == r.sym && q == p + Width(l) + Width(r) - 1
    ensures RuleSource(tbl, v, p) == SourceCut(x, CLo(x, p), CHi(x, q))
  {
    var m := p + Width(l) - 1;
    BlocksMeet(x, p, m, q);
    SourceCutJoin(x, CLo(x, p), CHi(x, m), CHi(x, q));
  }

  /** When the two children's target intervals meet, the rule of a straight
      node expands to one target interval. */
  lemma StraightTarget(x: Rule, tbl: Table, l: Node, r: Node, p: int)
    requires Placed(x, l) && Placed(x, r) && l.eRight + 1 == r.eLeft
    requires Sized(x, tbl, l, p) && Sized(x, tbl, r, p + Width(l))
    requires SpellsTarget(x, tbl, l, p) && SpellsTarget(x, tbl, r, p + Width(l))
    ensures RuleTarget(tbl, PairRule(x, l, r, false), p) == TargetCut(x, l.eLeft, r.eRight + 1)
  {
    hide SymSource, SymTarget, Vars, ExpandLm, NodeLm, TargetCut;
    var e0, e1 := SymTarget(tbl, l.sym, p), SymTarget(tbl, r.sym, p + Width(l));
    NodeLmSpells(x, tbl, l, p, 0, e0, e1);
    NodeLmSpells(x, tbl, r, p + Width(l), 1, e0, e1);
    ExpandLmConcat(NodeLm(x, l, 0), NodeLm(x, r, 1), false, e0, e1);
    TargetCutJoin(x, l.eLeft, r.eLeft, r.eRight + 1);
  }

  /** The same for an inverted node. */
  lemma InvertedTarget(x: Rule, tbl: Table, l: Node, r: Node, p: int)
    requires Placed(x, l) && Placed(x, r) && r.eRight + 1 == l.eLeft
    requires Sized(x, tbl, l, p) && Sized(x, tbl, r, p + Width(l))
    requires SpellsTarget(x, tbl, l, p) && SpellsTarget(x, tbl, r, p + Width(l))
    ensures RuleTarget(tbl, PairRule(x, l, r, true), p) == TargetCut(x, r.eLeft, l.eRight + 1)
  {
    hide SymSource, SymTarget, Vars, ExpandLm, NodeLm, TargetCut;
    var e0, e1 := SymTarget(tbl, l.sym, p), SymTarget(tbl, r.sym, p + Width(l));
    NodeLmSpells(x, tbl, l, p, 0, e0, e1);
    NodeLmSpells(x, tbl, r, p + Width(l), 1, e0, e1);
    ExpandLmConcat(NodeLm(x, r, 1), NodeLm(x, l, 0), false, e0, e1);
    TargetCutJoin(x, r.eLeft, l.eLeft, l.eRight + 1);
  }

  // ----- two neighbouring children

  /** A child's marks: all its anchors if it is an inner node, none if a leaf,
      since a leaf is marked only when its parent is visited. */
  predicate ChildMarks(x: Rule, m0: seq<bool>, mask: seq<bool>, nd: Node) {
    MaskAfter(x, m0, mask, nd.left, if IsLeaf(nd) then nd.left - 1 else nd.right)
  }

  /** An inner node's target interval is in range and reaches as far as the
      mask it started with lets it. */
  predicate Reaches(x: Rule, nd: Node, m: seq<bool>) {
    IsLeaf(nd) || (Placed(x, nd) && nd.eLeft == ELo(x, nd.left, m) && nd.eRight == EHi(x, nd.right, m))
  }

  /** Two children that are neighbours in rank, low one first. */
  predicate Neighbours(x: Rule, low: Node, high: Node) {
    1 <= low.left <= low.right && low.right + 1 == high.left && high.left <= high.right <= |x.lhsIdx|
  }

  /** The target interval a leaf gets as the low child. */
  function LowInterval(x: Rule, low: Node, high: Node, mask: seq<bool>): (int, int) {
    (ELo(x, low.left, mask), if IsLeaf(high) then Anchor(x, high.left - 1) - 1 else Anchor(x, low.left - 1))
  }

  /** The target interval a leaf gets as the high child. */
  function HighInterval(x: Rule, high: Node, mask: seq<bool>): (int, int) {
    (Anchor(x, high.left - 1), EHi(x, high.left, mask))
  }

  function PlaceLow(x: Rule, low: Node, high: Node, mask: seq<bool>): Node {
    if IsLeaf(low) then
      var (l, r) := LowInterval(x, low, high, mask);
      low.(eLeft := l, eRight := r)
    else low
  }

  function PlaceHigh(x: Rule, high: Node, mask: seq<bool>): Node {
    if IsLeaf(high) then
      var (l, r) := HighInterval(x, high, mask);
      high.(eLeft := l, eRight := r)
    else high
  }

  /** The mask once a child has been placed. */
  function Mark(x: Rule, nd: Node, mask: seq<bool>): (m: seq<bool>)
    ensures |m| == |mask|
  {
    if IsLeaf(nd) && 0 <= Anchor(x, nd.left - 1) < |mask| then mask[Anchor(x, nd.left - 1) := true] else mask
  }

  lemma MarkAt(x: Rule, nd: Node, mask: seq<bool>, k: int)
    requires 1 <= nd.left <= |x.lhsIdx| && |mask| == |x.lhs| && 0 <= k < |x.lhsIdx|
    ensures Covered(x, Mark(x, nd, mask), k) == (Covered(x, mask, k) || (IsLeaf(nd) && k + 1 == nd.left))
  {
    if x.lhsIdx[k] == x.lhsIdx[nd.left - 1] {
      SamePlace(x.lhsIdx, k, nd.left - 1);
    }
  }

  /** How the intervals of a low and a high child stand to each other before
      their parent places those of the two that are leaves. */
  predicate Facing(x: Rule, low: Node, high: Node, m0: seq<bool>) {
    && (!IsLeaf(low) ==> Placed(x, low) && low.eLeft == ELo(x, low.left, m0))
    && (!IsLeaf(high) ==> Placed(x, high) && high.eRight == EHi(x, high.right, m0))
    && (!IsLeaf(low) && !IsLeaf(high) ==> low.eRight + 1 == high.eLeft)
    && (!IsLeaf(low) && IsLeaf(high) ==> low.eRight + 1 == Anchor(x, high.left - 1))
    && (IsLeaf(low) && !IsLeaf(high) ==> high.eLeft == Anchor(x, low.right - 1) + 1)
  }

  /** The mask once the inner nodes among two children have been emitted. */
  predicate PairMarks(x: Rule, m0: seq<bool>, mask: seq<bool>, low: Node, high: Node) {
    && |m0| == |x.lhs| && |mask| == |x.lhs|
    && forall k {:trigger Covered(x, mask, k)} :: 0 <= k < |x.lhsIdx| ==>
         Covered(x, mask, k) == (Covered(x, m0, k) || (!IsLeaf(low) && low.left <= k + 1 <= low.right)
                                                    || (!IsLeaf(high) && high.left <= k + 1 <= high.right))
  }

  /** Whichever child was emitted first, the two face each other. */
  lemma ChildrenFace(x: Rule, low: Node, high: Node, lowFirst: bool, m0: seq<bool>, m1: seq<bool>, mask: seq<bool>)
    requires Neighbours(x, low, high) && Uncovered(x, m0, low.left, high.right)
    requires ChildMarks(x, m0, m1, if lowFirst then low else high)
    requires ChildMarks(x, m1, mask, if lowFirst then high else low)
    requires Reaches(x, if lowFirst then low else high, m0)
    requires Reaches(x, if lowFirst then high else low, m1)
    ensures Facing(x, low, high, m0) && PairMarks(x, m0, mask, low, high)
  {
    var k := low.right;
    assert Covered(x, m1, k - 1) == (lowFirst && !IsLeaf(low));
    assert Covered(x, m1, k) == (!lowFirst && !IsLeaf(high));
    assert !Covered(x, m0, k - 1) && !Covered(x, m0, k);
    assert high.right < |x.lhsIdx| ==> Covered(x, m1, high.right) == Covered(x, m0, high.right);
    assert low.left > 1 ==> Covered(x, m1, low.left - 2) == Covered(x, m0, low.left - 2);
  }

  /** The low child after placing: its interval ends where the high child's
      starts, and reaches as far to the left as a block would. */
  lemma LowMeets(x: Rule, low: Node, high: Node, m0: seq<bool>, mask: seq<bool>, low': Node)
    requires Neighbours(x, low, high) && PairMarks(x, m0, mask, low, high) && Facing(x, low, high, m0)
    requires low' == PlaceLow(x, low, high, mask)
    ensures Placed(x, low') && low'.eLeft == ELo(x, low.left, m0)
    ensures low'.eRight + 1 == if IsLeaf(high) then Anchor(x, high.left - 1) else high.eLeft
  {
    assert low.left > 1 ==> Covered(x, mask, low.left - 2) == Covered(x, m0, low.left - 2)
                            && Before(x.lhsIdx, low.left - 2, low.left - 1);
    assert Before(x.lhsIdx, low.right - 1, low.right);
    if IsLeaf(low) { BetweenAnchors(x, low.left, low'.eLeft, low'.eRight); }
  }

  /** The high child after placing. */
  lemma HighMeets(x: Rule, low: Node, high: Node, m0: seq<bool>, mask: seq<bool>, high': Node)
    requires Neighbours(x, low, high) && PairMarks(x, m0, mask, low, high) && Facing(x, low, high, m0)
    requires high' == PlaceHigh(x, high, Mark(x, low, mask))
    ensures Placed(x, high') && high'.eRight == EHi(x, high.right, m0)
    ensures high'.eLeft == if IsLeaf(high) then Anchor(x, high.left - 1) else high.eLeft
  {
    assert Before(x.lhsIdx, low.right - 1, low.right);
    if high.right < |x.lhsIdx| {
      MarkAt(x, low, mask, high.right);
      assert Covered(x, mask, high.right) == Covered(x, m0, high.right);
      assert Before(x.lhsIdx, high.right - 1, high.right);
    }
    if IsLeaf(high) { BetweenAnchors(x, high.left, high'.eLeft, high'.eRight); }
  }

  lemma ChildrenMarked(x: Rule, low: Node, high: Node, m0: seq<bool>, mask: seq<bool>)
    requires Neighbours(x, low, high) && PairMarks(x, m0, mask, low, high)
    ensures MaskAfter(x, m0, Mark(x, high, Mark(x, low, mask)), low.left, high.right)
  {
    var m := Mark(x, high, Mark(x, low, mask));
    forall k | 0 <= k < |x.lhsIdx|
      ensures Covered(x, m, k) == (Covered(x, m0, k) || low.left <= k + 1 <= high.right)
    {
      MarkAt(x, low, mask, k);
      MarkAt(x, high, Mark(x, low, mask), k);
      assert Covered(x, mask, k) == Covered(x, mask, k);
    }
  }

  // ----- a binary row

  /** What a subtree's emission, started with mask `m0` at variable `p`, has
      established for its row. */
  predicate NodeDone(x: Rule, tbl: Table, nd: Node, p: int, m0: seq<bool>, mask: seq<bool>) {
    Emitted(x, tbl, nd, p) && Reaches(x, nd, m0) && ChildMarks(x, m0, mask, nd)
  }

  /** A row that differs at most in a leaf's target interval. */
  predicate Moved(nd: Node, nd': Node) {
    nd' == if IsLeaf(nd) then nd.(eLeft := nd'.eLeft, eRight := nd'.eRight) else nd
  }

  lemma MovedIsEmitted(x: Rule, tbl: Table, nd: Node, nd': Node, p: int)
    requires Emitted(x, tbl, nd, p) && Moved(nd, nd')
    ensures Emitted(x, tbl, nd', p)
  {
  }

  /** The rule made for two placed children, low one on the left. */
  lemma StraightSpans(x: Rule, tbl: Table, l: Node, r: Node, p: int, m0: seq<bool>)
    requires Placed(x, l) && Placed(x, r) && l.right + 1 == r.left && l.eRight + 1 == r.eLeft
    requires Emitted(x, tbl, l, p) && Emitted(x, tbl, r, p + Width(l))
    requires l.eLeft == ELo(x, l.left, m0) && r.eRight == EHi(x, r.right, m0)
    ensures Spans(x, tbl, PairRule(x, l, r, false), l.left, r.right, p, m0)
  {
    hide SymSource, SymTarget, RuleSource, RuleTarget, Vars, ExpandLm, NodeLm, SourceCut, TargetCut;
    PairRuleSource(x, tbl, l, r, p, PairRule(x, l, r, false), p + r.right - l.left);
    StraightTarget(x, tbl, l, r, p);
  }

  /** The rule made for two placed children, low one on the right. */
  lemma InvertedSpans(x: Rule, tbl: Table, l: Node, r: Node, p: int, m0: seq<bool>)
    requires Placed(x, l) && Placed(x, r) && r.right + 1 == l.left && r.eRight + 1 == l.eLeft
    requires Emitted(x, tbl, l, p) && Emitted(x, tbl, r, p + Width(l))
    requires r.eLeft == ELo(x, r.left, m0) && l.eRight == EHi(x, l.right, m0)
    ensures Spans(x, tbl, PairRule(x, l, r, true), r.left, l.right, p, m0)
  {
    hide SymSource, SymTarget, RuleSource, RuleTarget, Vars, ExpandLm, NodeLm, SourceCut, TargetCut;
    PairRuleSource(x, tbl, l, r, p, PairRule(x, l, r, true), p + l.right - r.left);
    InvertedTarget(x, tbl, l, r, p);
  }

  /** A rule that spans all variables, none covered before, is a top rule. */
  lemma SpansAll(x: Rule, tbl: Table, v: VRule, m0: seq<bool>)
    requires |x.alignment| > 0 && Spans(x, tbl, v, 1, |x.alignment|, 0, m0)
    ensures Restores(tbl, v, x)
  {
  }

  /** A virtual rule's row, once its symbol has been entered. */
  lemma SpansRow(x: Rule, tbl: Table, tbl': Table, v: VRule, id: nat, nd: Node, p: int, m0: seq<bool>)
    requires Spans(x, tbl, v, nd.left, nd.right, p, m0) && tbl <= tbl' && id < |tbl'| && tbl'[id] == v
    requires nd.sym == Vt(id) && nd.virt && !IsLeaf(nd)
    requires nd.eLeft == ELo(x, nd.left, m0) && nd.eRight == EHi(x, nd.right, m0)
    ensures Emitted(x, tbl', nd, p)
  {
    GrowthKeepsRule(tbl, tbl', v, p);
    RowOf(tbl', id, p);
  }

  /** Both children's subtrees are emitted, the left one first. */
  predicate ChildrenDone(x: Rule, tbl: Table, l: Node, r: Node, p: int,
                         m0: seq<bool>, m1: seq<bool>, mask: seq<bool>) {
    && NodeDone(x, tbl, l, p, m0, m1) && NodeDone(x, tbl, r, p + Width(l), m1, mask)
    && if l.right + 1 == r.left then Neighbours(x, l, r) && Uncovered(x, m0, l.left, r.right)
       else Neighbours(x, r, l) && Uncovered(x, m0, r.left, l.right)
  }

  /** A straight row's rule and marks, once its children are placed. */
  lemma StraightReady(x: Rule, tbl: Table, l: Node, r: Node, p: int,
                      m0: seq<bool>, m1: seq<bool>, mask: seq<bool>, l': Node, r': Node)
    requires ChildrenDone(x, tbl, l, r, p, m0, m1, mask) && l.right + 1 == r.left
    requires l' == PlaceLow(x, l, r, mask) && r' == PlaceHigh(x, r, Mark(x, l, mask))
    ensures Placed(x, l') && Placed(x, r') && l'.eLeft == ELo(x, l.left, m0) && r'.eRight == EHi(x, r.right, m0)
    ensures 0 <= l'.eLeft <= r'.eRight + 1 <= |x.lhs|
    ensures MaskAfter(x, m0, Mark(x, r, Mark(x, l, mask)), l.left, r.right)
    ensures Spans(x, tbl, PairRule(x, l', r', false), l.left, r.right, p, m0)
  {
    hide SymSource, SymTarget, RuleSource, RuleTarget, Vars, ExpandLm, NodeLm, SourceCut, TargetCut, Mark, ELo, EHi;
    ChildrenFace(x, l, r, true, m0, m1, mask);
    LowMeets(x, l, r, m0, mask, l');
    HighMeets(x, l, r, m0, mask, r');
    ChildrenMarked(x, l, r, m0, mask);
    MovedIsEmitted(x, tbl, l, l', p);
    MovedIsEmitted(x, tbl, r, r', p + Width(l'));
    StraightSpans(x, tbl, l', r', p, m0);
  }

  /** The same for an inverted row. */
  lemma InvertedReady(x: Rule, tbl: Table, l: Node, r: Node, p: int,
                      m0: seq<bool>, m1: seq<bool>, mask: seq<bool>, l': Node, r': Node)
    requires ChildrenDone(x, tbl, l, r, p, m0, m1, mask) && r.right + 1 == l.left
    requires r' == PlaceLow(x, r, l, mask) && l' == PlaceHigh(x, l, Mark(x, r, mask))
    ensures Placed(x, l') && Placed(x, r') && r'.eLeft == ELo(x, r.left, m0) && l'.eRight == EHi(x, l.right, m0)
    ensures 0 <= r'.eLeft <= l'.eRight + 1 <= |x.lhs|
    ensures MaskAfter(x, m0, Mark(x, l, Mark(x, r, mask)), r.left, l.right)
    ensures Spans(x, tbl, PairRule(x, l', r', true), r.left, l.right, p, m0)
  {
    hide SymSource, SymTarget, RuleSource, RuleTarget, Vars, ExpandLm, NodeLm, SourceCut, TargetCut, Mark, ELo, EHi;
    ChildrenFace(x, r, l, false, m0, m1, mask);
    LowMeets(x, r, l, m0, mask, r');
    HighMeets(x, r, l, m0, mask, l');
    ChildrenMarked(x, r, l, m0, mask);
    MovedIsEmitted(x, tbl, l, l', p);
    MovedIsEmitted(x, tbl, r, r', p + Width(l'));
    InvertedSpans(x, tbl, l', r', p, m0);
  }

  /** An inner row that is emitted, once its mask and interval are known. */
  lemma RowDone(x: Rule, tbl: Table, nd: Node, p: int, m0: seq<bool>, mask: seq<bool>)
    requires Emitted(x, tbl, nd, p) && !IsLeaf(nd) && MaskAfter(x, m0, mask, nd.left, nd.right)
    requires 0 <= nd.eLeft <= nd.eRight + 1 <= |x.lhs|
    requires nd.eLeft == ELo(x, nd.left, m0) && nd.eRight == EHi(x, nd.right, m0)
    ensures NodeDone(x, tbl, nd, p, m0, mask)
  {
  }

  lemma GrowthKeepsDone(x: Rule, tbl: Table, tbl': Table, nd: Node, p: int, m0: seq<bool>, mask: seq<bool>)
    requires NodeDone(x, tbl, nd, p, m0, mask) && tbl <= tbl'
    ensures NodeDone(x, tbl', nd, p, m0, mask)
  {
    GrowthKeepsEmitted(x, tbl, tbl', nd, p);
  }

  /** A leaf's row once its words are joined; its anchor is not marked yet. */
  lemma LeafDone(x: Rule, tbl: Table, nd: Node, p: int, mask: seq<bool>)
    requires Emitted(x, tbl, nd, p) && IsLeaf(nd) && |mask| == |x.lhs|
    ensures NodeDone(x, tbl, nd, p, mask, mask)
  {
  }

  /** Emitting one child leaves the other child's anchors unmarked. */
  lemma StillUncovered(x: Rule, m0: seq<bool>, m1: seq<bool>, done: Node, left: int, right: int)
    requires ChildMarks(x, m0, m1, done) && Uncovered(x, m0, left, right)
    requires right < done.left || done.right < left
    ensures Uncovered(x, m1, left, right)
  {
    forall k | 0 <= k < |x.lhsIdx| && left <= k + 1 <= right ensures !Covered(x, m1, k) {
      assert !Covered(x, m0, k);
    }
  }

  lemma UncoveredPart(x: Rule, m: seq<bool>, lo: int, hi: int, lo': int, hi': int)
    requires Uncovered(x, m, lo, hi) && lo <= lo' && hi' <= hi
    ensures Uncovered(x, m, lo', hi')
  {
  }
}
