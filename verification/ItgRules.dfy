/** The rule tables of the ITG binarizer on values: what an input rule says,
    and what a binarized rule means when it is expanded again. */
module ItgRules {
  import opened Wrappers

  // ----- input rules

  /** An input rule. `lhs` is the target side and `rhs` the source side; the
      variables sit at the anchors `lhsIdx` and `rhsIdx`, where the string is
      the variable's nonterminal. `alignment[p]` is one plus the target rank of
      the p-th source variable. */
  datatype Xrs = Xrs(lhs: seq<string>, lhsIdx: seq<int>,
                     rhs: seq<string>, rhsIdx: seq<int>, alignment: seq<int>)

  predicate Before(s: seq<int>, i: nat, j: nat)
    requires i < |s| && j < |s|
  {
    s[i] < s[j]
  }

  predicate Differ(s: seq<int>, i: nat, j: nat)
    requires i < |s| && j < |s|
  {
    s[i] != s[j]
  }

  predicate Increasing(s: seq<int>, bound: nat) {
    && (forall i, j {:trigger Before(s, i, j)} :: 0 <= i < j < |s| ==> Before(s, i, j))
    && (forall i :: 0 <= i < |s| ==> 0 <= s[i] < bound)
  }

  predicate Distinct(s: seq<int>) {
    forall i, j {:trigger Differ(s, i, j)} :: 0 <= i < j < |s| ==> Differ(s, i, j)
  }

  predicate ValidXrs(x: Xrs) {
    && |x.rhs| >= 1
    && |x.lhsIdx| == |x.alignment| && |x.rhsIdx| == |x.alignment|
    && Increasing(x.lhsIdx, |x.lhs|) && Increasing(x.rhsIdx, |x.rhs|) && Distinct(x.alignment)
    && (forall p :: 0 <= p < |x.alignment| ==> 1 <= x.alignment[p] <= |x.alignment|)
    && (forall p {:trigger x.alignment[p]} :: 0 <= p < |x.alignment| ==>
          x.rhs[x.rhsIdx[p]] == x.lhs[x.lhsIdx[x.alignment[p] - 1]])
  }

  type Rule = x: Xrs | ValidXrs(x) witness Xrs([], [], ["w"], [], [])

  function IndexOf(s: seq<int>, v: int): (k: int)
    ensures -1 <= k < |s|
    ensures k >= 0 ==> s[k] == v
    ensures k < 0 ==> v !in s
  {
    if s == [] then -1
    else if s[|s| - 1] == v then |s| - 1
    else IndexOf(s[..|s| - 1], v)
  }

  lemma SamePlace(s: seq<int>, i: nat, j: nat)
    requires i < |s| && j < |s| && s[i] == s[j]
    requires Distinct(s) || exists bound: nat :: Increasing(s, bound)
    ensures i == j
  {
    assert !Differ(s, i, j) && !Differ(s, j, i) && !Before(s, i, j) && !Before(s, j, i);
  }

  /** A symbol of an expanded side: a word, or the variable that the p-th
      source variable stands for. */
  datatype Out = Word(text: string) | Var(source: int, name: string)

  /** The source symbol at one position. */
  function SourceAt(x: Rule, i: int): Out {
    if 0 <= i < |x.rhs| then
      if IndexOf(x.rhsIdx, i) < 0 then Word(x.rhs[i]) else Var(IndexOf(x.rhsIdx, i), x.rhs[i])
    else Word("")
  }

  /** The target symbol at one position; a variable is named by the source
      variable it is linked to. */
  function TargetAt(x: Rule, i: int): Out {
    if 0 <= i < |x.lhs| then
      if IndexOf(x.lhsIdx, i) < 0 then Word(x.lhs[i])
      else Var(IndexOf(x.alignment, IndexOf(x.lhsIdx, i) + 1), x.lhs[i])
    else Word("")
  }

  /** The source symbols from position `i` up to, not including, `j`. */
  function SourceCut(x: Rule, i: int, j: int): List<Out>
    decreases j - i
  {
    if i < j then Cons(SourceAt(x, i), SourceCut(x, i + 1, j)) else Nil
  }

  /** The target symbols from position `i` up to, not including, `j`. */
  function TargetCut(x: Rule, i: int, j: int): List<Out>
    decreases j - i
  {
    if i < j then Cons(TargetAt(x, i), TargetCut(x, i + 1, j)) else Nil
  }

  /** The source side the rule was read with. */
  function SourceSide(x: Rule): List<Out> {
    SourceCut(x, 0, |x.rhs|)
  }

  /** The target side the rule was read with. */
  function TargetSide(x: Rule): List<Out> {
    TargetCut(x, 0, |x.lhs|)
  }

  lemma {:induction false} SourceCutJoin(x: Rule, i: int, j: int, k: int)
    requires i <= j <= k
    ensures Append(SourceCut(x, i, j), SourceCut(x, j, k)) == SourceCut(x, i, k)
    decreases j - i
  {
    if i < j { SourceCutJoin(x, i + 1, j, k); }
  }

  lemma {:induction false} TargetCutJoin(x: Rule, i: int, j: int, k: int)
    requires i <= j <= k
    ensures Append(TargetCut(x, i, j), TargetCut(x, j, k)) == TargetCut(x, i, k)
    decreases j - i
  {
    if i < j { TargetCutJoin(x, i + 1, j, k); }
  }

  // ----- binarized rules

  /** A right-hand symbol: a real nonterminal, a virtual one (by its row in
      the rule table), a source word, or no symbol. */
  datatype Sym = Rt(name: string) | Vt(id: nat) | Cw(word: string) | Nu

  /** An entry of a rule's target string: a word, or the kid with that index. */
  datatype LmSym = Ew(word: string) | Ix(kid: nat)

  datatype VRule = VRule(kid0: Sym, kid1: Sym, lm: seq<LmSym>, inversion: bool)

  predicate Known(tbl: seq<VRule>, s: Sym) {
    s.Vt? ==> s.id < |tbl|
  }

  predicate KnownRule(tbl: seq<VRule>, r: VRule) {
    Known(tbl, r.kid0) && Known(tbl, r.kid1)
  }

  function Rank(s: Sym): nat {
    if s.Vt? then s.id + 1 else 0
  }

  function RuleRank(r: VRule): nat {
    if Rank(r.kid0) < Rank(r.kid1) then Rank(r.kid1) else Rank(r.kid0)
  }

  /** Every rule refers to earlier rows only. */
  predicate Closed(tbl: seq<VRule>) {
    forall i :: 0 <= i < |tbl| ==> RuleRank(tbl[i]) <= i
  }

  predicate RowsDiffer(tbl: seq<VRule>, i: nat, j: nat)
    requires i < |tbl| && j < |tbl|
  {
    tbl[i] != tbl[j]
  }

  /** No rule is stored twice. */
  predicate NoRepeats(tbl: seq<VRule>) {
    forall i, j {:trigger RowsDiffer(tbl, i, j)} :: 0 <= i < j < |tbl| ==> RowsDiffer(tbl, i, j)
  }

  type Table = t: seq<VRule> | Closed(t) && NoRepeats(t)

  /** The number of variables below a symbol. */
  function Vars(tbl: Table, s: Sym): nat
    decreases Rank(s)
  {
    match s
    case Rt(_) => 1
    case Cw(_) => 0
    case Nu => 0
    case Vt(id) =>
      if id < |tbl| then
        Vars(tbl, tbl[id].kid0) + Vars(tbl, tbl[id].kid1)
      else 0
  }

  /** Source side of a symbol whose first variable has number `off`. */
  function SymSource(tbl: Table, s: Sym, off: int): List<Out>
    decreases Rank(s), 0
  {
    match s
    case Rt(n) => Cons(Var(off, n), Nil)
    case Cw(w) => Cons(Word(w), Nil)
    case Nu => Nil
    case Vt(id) => if id < |tbl| then RuleSource(tbl, tbl[id], off) else Nil
  }

  function RuleSource(tbl: Table, r: VRule, off: int): List<Out>
    decreases RuleRank(r), 1
  {
    Append(SymSource(tbl, r.kid0, off), SymSource(tbl, r.kid1, off + Vars(tbl, r.kid0)))
  }

  /** Spell out a target string. A kid reference in a rule that has a source
      word stands for whichever kid has a target side. */
  function ExpandLm(lm: seq<LmSym>, lexical: bool, e0: List<Out>, e1: List<Out>): List<Out> {
    if lm == [] then Nil
    else Append(ExpandOne(lm[0], lexical, e0, e1), ExpandLm(lm[1..], lexical, e0, e1))
  }

  function ExpandOne(s: LmSym, lexical: bool, e0: List<Out>, e1: List<Out>): List<Out> {
    match s
    case Ew(w) => Cons(Word(w), Nil)
    case Ix(k) => if lexical then Append(e0, e1) else if k == 0 then e0 else e1
  }

  /** Target side of a symbol; source words have none. */
  function SymTarget(tbl: Table, s: Sym, off: int): List<Out>
    decreases Rank(s), 0
  {
    match s
    case Rt(n) => Cons(Var(off, n), Nil)
    case Cw(_) => Nil
    case Nu => Nil
    case Vt(id) => if id < |tbl| then RuleTarget(tbl, tbl[id], off) else Nil
  }

  function RuleTarget(tbl: Table, r: VRule, off: int): List<Out>
    decreases RuleRank(r), 1
  {
    ExpandLm(r.lm, r.kid0.Cw? || r.kid1.Cw?,
             SymTarget(tbl, r.kid0, off), SymTarget(tbl, r.kid1, off + Vars(tbl, r.kid0)))
  }

  /** The rule, expanded through the table, is the input rule on both sides. */
  predicate Restores(tbl: Table, r: VRule, x: Rule) {
    && KnownRule(tbl, r)
    && RuleSource(tbl, r, 0) == SourceSide(x)
    && RuleTarget(tbl, r, 0) == TargetSide(x)
  }

  // ----- growing the table changes no expansion

  lemma {:induction false} GrowthKeepsSym(tbl: Table, tbl': Table, s: Sym, off: int)
    requires tbl <= tbl' && Known(tbl, s)
    ensures Vars(tbl', s) == Vars(tbl, s)
    ensures SymSource(tbl', s, off) == SymSource(tbl, s, off)
    ensures SymTarget(tbl', s, off) == SymTarget(tbl, s, off)
    decreases Rank(s)
  {
    if s.Vt? {
      var r := tbl[s.id];
      assert tbl'[s.id] == r && RuleRank(r) <= s.id;
      GrowthKeepsSym(tbl, tbl', r.kid0, off);
      GrowthKeepsSym(tbl, tbl', r.kid1, off + Vars(tbl, r.kid0));
    }
  }

  lemma GrowthKeepsRule(tbl: Table, tbl': Table, r: VRule, off: int)
    requires tbl <= tbl' && KnownRule(tbl, r)
    ensures RuleSource(tbl', r, off) == RuleSource(tbl, r, off)
    ensures RuleTarget(tbl', r, off) == RuleTarget(tbl, r, off)
    ensures Vars(tbl', r.kid0) == Vars(tbl, r.kid0) && Vars(tbl', r.kid1) == Vars(tbl, r.kid1)
  {
    GrowthKeepsSym(tbl, tbl', r.kid0, off);
    GrowthKeepsSym(tbl, tbl', r.kid1, off + Vars(tbl, r.kid0));
  }

  /** A virtual symbol stands for its row. */
  lemma RowOf(tbl: Table, id: nat, off: int)
    requires id < |tbl|
    ensures Vars(tbl, Vt(id)) == Vars(tbl, tbl[id].kid0) + Vars(tbl, tbl[id].kid1)
    ensures SymSource(tbl, Vt(id), off) == RuleSource(tbl, tbl[id], off)
    ensures SymTarget(tbl, Vt(id), off) == RuleTarget(tbl, tbl[id], off)
  {
  }

  lemma GrowthKeepsRestores(tbl: Table, tbl': Table, r: VRule, x: Rule)
    requires tbl <= tbl' && Restores(tbl, r, x)
    ensures Restores(tbl', r, x)
  {
    GrowthKeepsRule(tbl, tbl', r, 0);
  }

  // ----- pieces of a side

  lemma SourceWord(x: Rule, i: int)
    requires 0 <= i < |x.rhs| && i !in x.rhsIdx
    ensures SourceAt(x, i) == Word(x.rhs[i])
  {
  }

  lemma SourceVar(x: Rule, p: nat)
    requires p < |x.rhsIdx|
    ensures SourceAt(x, x.rhsIdx[p]) == Var(p, x.rhs[x.rhsIdx[p]])
  {
    SamePlace(x.rhsIdx, p, IndexOf(x.rhsIdx, x.rhsIdx[p]));
  }

  lemma TargetVar(x: Rule, p: nat)
    requires p < |x.alignment|
    ensures TargetAt(x, x.lhsIdx[x.alignment[p] - 1]) == Var(p, x.rhs[x.rhsIdx[p]])
  {
    var i := x.lhsIdx[x.alignment[p] - 1];
    SamePlace(x.lhsIdx, x.alignment[p] - 1, IndexOf(x.lhsIdx, i));
    SamePlace(x.alignment, p, IndexOf(x.alignment, x.alignment[p]));
  }

  /** First source position that leaf p takes. */
  function CLo(x: Rule, p: int): int {
    if 0 < p < |x.rhsIdx| then x.rhsIdx[p] else 0
  }

  /** One past the last source position that leaf p takes. */
  function CHi(x: Rule, p: int): int {
    if 0 <= p && p + 1 < |x.rhsIdx| then x.rhsIdx[p + 1] else |x.rhs|
  }

  lemma LeafSegment(x: Rule, p: nat)
    requires p < |x.rhsIdx|
    ensures 0 <= CLo(x, p) <= x.rhsIdx[p] < CHi(x, p) <= |x.rhs|
    ensures p + 1 < |x.rhsIdx| ==> CLo(x, p + 1) == CHi(x, p)
    ensures forall i :: CLo(x, p) <= i < CHi(x, p) && i != x.rhsIdx[p] ==> i !in x.rhsIdx
    ensures |x.rhsIdx| > 1 ==> CHi(x, p) - CLo(x, p) < |x.rhs|
  {
    assert p + 1 < |x.rhsIdx| ==> Before(x.rhsIdx, p, p + 1);
    assert p > 0 ==> Before(x.rhsIdx, 0, p);
    forall q | p < q < |x.rhsIdx| ensures CHi(x, p) <= x.rhsIdx[q] {
      assert p + 1 < q ==> Before(x.rhsIdx, p + 1, q);
    }
    forall q | 0 <= q < p ensures x.rhsIdx[q] < CLo(x, p) {
      assert Before(x.rhsIdx, q, p);
    }
  }

  // ----- target strings

  function Anchor(x: Rule, k: int): int {
    if 0 <= k < |x.lhsIdx| then x.lhsIdx[k] else 0
  }

  /** A leaf's target symbol at one position: a word, or the kid at the anchor
      of rank `v`. */
  function LeafSym(x: Rule, v: int, i: int, ord: nat): LmSym {
    if i == Anchor(x, v - 1) then Ix(ord) else if 0 <= i < |x.lhs| then Ew(x.lhs[i]) else Ew("")
  }

  /** The target string of a leaf with that interval. */
  function LeafLm(x: Rule, v: int, eLeft: int, eRight: int, ord: nat): (lm: seq<LmSym>) {
    if eLeft <= eRight + 1 then
      seq(eRight + 1 - eLeft, i requires 0 <= i < eRight + 1 - eLeft => LeafSym(x, v, eLeft + i, ord))
    else []
  }

  lemma {:induction false} ExpandLmConcat(a: seq<LmSym>, b: seq<LmSym>, lexical: bool, e0: List<Out>, e1: List<Out>)
    ensures ExpandLm(a + b, lexical, e0, e1) == Append(ExpandLm(a, lexical, e0, e1), ExpandLm(b, lexical, e0, e1))
    decreases |a|
  {
    if a == [] {
      assert a + b == b;
    } else {
      assert (a + b)[1..] == a[1..] + b;
      ExpandLmConcat(a[1..], b, lexical, e0, e1);
      AppendAssoc(ExpandOne(a[0], lexical, e0, e1), ExpandLm(a[1..], lexical, e0, e1), ExpandLm(b, lexical, e0, e1));
    }
  }

  /** The variable that leaf p stands for. */
  function LeafVar(x: Rule, p: int): List<Out> {
    if 0 <= p < |x.rhsIdx| then Cons(Var(p, x.rhs[x.rhsIdx[p]]), Nil) else Nil
  }

  /** A leaf's target string spells its interval of the target side, with its
      own variable at its anchor. */
  lemma {:induction false} LeafLmSpells(x: Rule, p: nat, eLeft: int, eRight: int, ord: nat,
                                        lexical: bool, e0: List<Out>, e1: List<Out>)
    requires p < |x.alignment| && 0 <= eLeft <= eRight + 1 && eRight < |x.lhs|
    requires forall k :: 0 <= k < |x.lhsIdx| && eLeft <= x.lhsIdx[k] <= eRight ==> k == x.alignment[p] - 1
    requires ExpandOne(Ix(ord), lexical, e0, e1) == LeafVar(x, p)
    ensures ExpandLm(LeafLm(x, x.alignment[p], eLeft, eRight, ord), lexical, e0, e1) == TargetCut(x, eLeft, eRight + 1)
    decreases eRight + 1 - eLeft
  {
    if eLeft <= eRight {
      var lm := LeafLm(x, x.alignment[p], eLeft, eRight, ord);
      assert lm[1..] == LeafLm(x, x.alignment[p], eLeft + 1, eRight, ord);
      LeafLmSpells(x, p, eLeft + 1, eRight, ord, lexical, e0, e1);
      assert lm[0] == LeafSym(x, x.alignment[p], eLeft, ord);
      LeafSymSpells(x, p, eLeft, ord, lexical, e0, e1);
      AppendOne(TargetAt(x, eLeft), TargetCut(x, eLeft + 1, eRight + 1));
    }
  }

  lemma LeafSymSpells(x: Rule, p: nat, i: nat, ord: nat, lexical: bool, e0: List<Out>, e1: List<Out>)
    requires p < |x.alignment| && i < |x.lhs|
    requires forall k :: 0 <= k < |x.lhsIdx| && x.lhsIdx[k] == i ==> k == x.alignment[p] - 1
    requires ExpandOne(Ix(ord), lexical, e0, e1) == LeafVar(x, p)
    ensures ExpandOne(LeafSym(x, x.alignment[p], i, ord), lexical, e0, e1) == Cons(TargetAt(x, i), Nil)
  {
    TargetVar(x, p);
    if i != x.lhsIdx[x.alignment[p] - 1] && i in x.lhsIdx {
      var k :| 0 <= k < |x.lhsIdx| && x.lhsIdx[k] == i;
      assert false;
    }
  }

  /** A rule that joins one source word to a symbol on its left or right. */
  lemma AssocExpands(tbl: Table, r: VRule, off: int)
    requires r.lm == [Ix(0)]
    ensures r.kid0.Cw? ==> RuleSource(tbl, r, off) == Cons(Word(r.kid0.word), SymSource(tbl, r.kid1, off))
    ensures r.kid0.Cw? ==> RuleTarget(tbl, r, off) == SymTarget(tbl, r.kid1, off)
    ensures r.kid1.Cw? ==> RuleSource(tbl, r, off) == Append(SymSource(tbl, r.kid0, off), Cons(Word(r.kid1.word), Nil))
    ensures r.kid1.Cw? ==> RuleTarget(tbl, r, off) == SymTarget(tbl, r.kid0, off)
  {
    var e0, e1 := SymTarget(tbl, r.kid0, off), SymTarget(tbl, r.kid1, off + Vars(tbl, r.kid0));
    assert r.lm[1..] == [] && ExpandLm([], true, e0, e1) == Nil;
    AppendNil(Append(e0, e1));
    AppendNil(e0);
    if r.kid0.Cw? {
      AppendOne(Word(r.kid0.word), SymSource(tbl, r.kid1, off));
      assert Append(Nil, e1) == e1;
    }
  }

  /** All of the target side as words. */
  function AllWords(x: Rule, i: nat): seq<LmSym>
    requires i <= |x.lhs|
  {
    seq(|x.lhs| - i, k requires 0 <= k < |x.lhs| - i => Ew(x.lhs[i + k]))
  }

  /** A target string without kid references is its words. */
  lemma {:induction false} WordsOnly(x: Rule, i: nat, lexical: bool, e0: List<Out>, e1: List<Out>)
    requires x.alignment == [] && i <= |x.lhs|
    ensures ExpandLm(AllWords(x, i), lexical, e0, e1) == TargetCut(x, i, |x.lhs|)
    decreases |x.lhs| - i
  {
    if i < |x.lhs| {
      assert AllWords(x, i)[1..] == AllWords(x, i + 1);
      WordsOnly(x, i + 1, lexical, e0, e1);
      AppendOne(Word(x.lhs[i]), TargetCut(x, i + 1, |x.lhs|));
    }
  }
}
