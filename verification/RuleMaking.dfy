/** Making a rule from a phrase and a reading of its source side. */
module RuleMaking {
  import opened Wrappers
  import opened Subtraction

  datatype Symbol = Terminal(w: nat) | Variable(index: nat, x: nat)

  datatype Rule = Rule(x: nat, f: seq<Symbol>, e: seq<Symbol>)

  /** Both sides' words, and which source words are aligned. */
  datatype Sentence = Sentence(fwords: seq<nat>, ewords: seq<nat>, faligned: seq<bool>)

  // ----- the source side

  /** The holes among the first `n` pieces, in order. */
  function Holes(pieces: seq<Piece>, n: nat): seq<Phrase>
    requires n <= |pieces|
  {
    if n == 0 then []
    else Holes(pieces, n - 1) + (if pieces[n - 1].Hole? then [pieces[n - 1].p] else [])
  }

  predicate PieceOk(s: Sentence, e: Piece) {
    if e.Word? then e.i < |s.fwords|
    else e.p.box.i1 < e.p.box.i2 <= |s.fwords| && e.p.box.j1 < e.p.box.j2 <= |s.ewords|
  }

  predicate PiecesOk(s: Sentence, pieces: seq<Piece>) {
    |s.faligned| == |s.fwords| && forall k :: 0 <= k < |pieces| ==> PieceOk(s, pieces[k])
  }

  /** The words a piece stands for. */
  function PieceWords(s: Sentence, e: Piece): seq<nat> {
    match e
    case Word(i) => if i < |s.fwords| then [s.fwords[i]] else []
    case Hole(p) => if p.box.i1 <= p.box.i2 <= |s.fwords| then s.fwords[p.box.i1..p.box.i2] else []
  }

  /** The words the first `n` pieces stand for. */
  function SourceOf(s: Sentence, pieces: seq<Piece>, n: nat): seq<nat>
    requires n <= |pieces|
  {
    if n == 0 then [] else SourceOf(s, pieces, n - 1) + PieceWords(s, pieces[n - 1])
  }

  /** The pieces of a reading, first to last. */
  function Pieces(t: Reading): seq<Piece> {
    match t
    case Empty => []
    case Then(p, e) => Pieces(p) + [e]
  }

  lemma {:induction false} SourcePrefix(s: Sentence, ps: seq<Piece>, e: Piece, n: nat)
    requires n <= |ps|
    ensures SourceOf(s, ps + [e], n) == SourceOf(s, ps, n)
  {
    if n > 0 { SourcePrefix(s, ps, e, n - 1); }
  }

  /** The last piece stands for what the rest of the reading leaves. */
  lemma LastPiece(g: Subtractable, s: Sentence, i1: nat, i2: nat, holes: nat, t: Reading) returns (m: nat, h: nat)
    requires IsReading(g, i1, i2, holes, t) && t.Then? && i2 <= |s.fwords|
    ensures i1 <= m <= i2 && IsReading(g, i1, m, h, t.prior) && PieceWords(s, t.last) == s.fwords[m..i2]
  {
    m := if t.last.Word? then t.last.i else t.last.p.box.i1;
    h := if t.last.Word? then holes else holes - 1;
    ReadingGoesRight(g, i1, m, h, t.prior);
  }

  lemma SlicesJoin(w: seq<nat>, i: nat, m: nat, j: nat)
    requires i <= m <= j <= |w|
    ensures w[i..m] + w[m..j] == w[i..j]
  {
  }

  /** A reading stands for the words of its stretch. */
  lemma {:induction false} ReadingIsSource(g: Subtractable, s: Sentence, i1: nat, i2: nat, holes: nat, t: Reading)
    requires IsReading(g, i1, i2, holes, t) && i2 <= |s.fwords|
    ensures i1 <= i2 && SourceOf(s, Pieces(t), |Pieces(t)|) == s.fwords[i1..i2]
    decreases t
  {
    ReadingGoesRight(g, i1, i2, holes, t);
    if t.Then? {
      var m, h := LastPiece(g, s, i1, i2, holes, t);
      hide IsReading, PieceWords;
      ReadingIsSource(g, s, i1, m, h, t.prior);
      SourcePrefix(s, Pieces(t.prior), t.last, |Pieces(t.prior)|);
      SlicesJoin(s.fwords, i1, m, i2);
    } else {
      assert i1 == i2;
    }
  }

  /** The words a symbol stands for on one side, given the holes. */
  function Expand(words: seq<nat>, holes: seq<Phrase>, target: bool, sym: Symbol): seq<nat> {
    match sym
    case Terminal(w) => [w]
    case Variable(k, _) =>
      if 1 <= k <= |holes| then
        var b := holes[k - 1].box;
        if target then if b.j1 <= b.j2 <= |words| then words[b.j1..b.j2] else []
        else if b.i1 <= b.i2 <= |words| then words[b.i1..b.i2] else []
      else []
  }

  function ExpandAll(words: seq<nat>, holes: seq<Phrase>, target: bool, syms: seq<Symbol>, n: nat): seq<nat>
    requires n <= |syms|
  {
    if n == 0 then [] else ExpandAll(words, holes, target, syms, n - 1) + Expand(words, holes, target, syms[n - 1])
  }

  lemma {:induction false} ExpandPrefix(words: seq<nat>, holes: seq<Phrase>, target: bool, syms: seq<Symbol>, sym: Symbol, n: nat)
    requires n <= |syms|
    ensures ExpandAll(words, holes, target, syms + [sym], n) == ExpandAll(words, holes, target, syms, n)
  {
    if n > 0 { ExpandPrefix(words, holes, target, syms, sym, n - 1); }
  }

  lemma ExpandNext(words: seq<nat>, holes: seq<Phrase>, target: bool, syms: seq<Symbol>, sym: Symbol)
    ensures ExpandAll(words, holes, target, syms + [sym], |syms| + 1)
         == ExpandAll(words, holes, target, syms, |syms|) + Expand(words, holes, target, sym)
  {
    ExpandPrefix(words, holes, target, syms, sym, |syms|);
  }

  /** More holes do not change what the symbols so far stand for. */
  lemma {:induction false} ExpandMoreHoles(words: seq<nat>, holes: seq<Phrase>, h: Phrase, target: bool, syms: seq<Symbol>, n: nat)
    requires n <= |syms| && forall k :: 0 <= k < |syms| && syms[k].Variable? ==> 1 <= syms[k].index <= |holes|
    ensures ExpandAll(words, holes + [h], target, syms, n) == ExpandAll(words, holes, target, syms, n)
  {
    if n > 0 { ExpandMoreHoles(words, holes, h, target, syms, n - 1); }
  }

  // ----- variables

  predicate SameVariable(syms: seq<Symbol>, k: nat, m: nat) {
    k < |syms| && m < |syms| && syms[k].Variable? && syms[m].Variable? && syms[k].index == syms[m].index
  }

  predicate Distinct(syms: seq<Symbol>) {
    forall k: nat, m: nat {:trigger SameVariable(syms, k, m)} :: k < m < |syms| ==> !SameVariable(syms, k, m)
  }

  /** The symbol, if a variable, is that of one of the holes. */
  predicate OwnedBy(sym: Symbol, holes: seq<Phrase>) {
    sym.Variable? ==> 1 <= sym.index <= |holes| && sym.x == holes[sym.index - 1].x
  }

  predicate Owned(syms: seq<Symbol>, holes: seq<Phrase>) {
    forall k :: 0 <= k < |syms| ==> OwnedBy(syms[k], holes)
  }

  /** The variables are exactly those of the holes, each once. */
  predicate VariablesOnce(syms: seq<Symbol>, holes: seq<Phrase>) {
    Owned(syms, holes) && Distinct(syms) && forall h :: 0 <= h < |holes| ==> Variable(h + 1, holes[h].x) in syms
  }

  lemma DistinctNext(e: seq<Symbol>, sym: Symbol)
    requires Distinct(e) && (sym.Variable? ==> forall k :: 0 <= k < |e| && e[k].Variable? ==> e[k].index != sym.index)
    ensures Distinct(e + [sym])
  {
    var g := e + [sym];
    forall k: nat, m: nat | k < m < |g| ensures !SameVariable(g, k, m) {
      if m < |e| { assert !SameVariable(e, k, m); }
    }
  }

  // ----- the target side

  /** A target position: a word, the start of a hole, or inside one. */
  datatype Mark = Plain(w: nat) | Start(v: Symbol) | Gone

  predicate Covers(h: Phrase, j1: nat, p: nat) {
    h.box.j1 <= j1 + p < h.box.j2
  }

  /** The last of the first `n` holes that covers the position. */
  function Owner(holes: seq<Phrase>, n: nat, j1: nat, p: nat): (k: Option<nat>)
    requires n <= |holes|
    ensures k.Some? ==> k.value < n
  {
    if n == 0 then None
    else if Covers(holes[n - 1], j1, p) then Some(n - 1)
    else Owner(holes, n - 1, j1, p)
  }

  function MarkOf(words: seq<nat>, holes: seq<Phrase>, n: nat, j1: nat, p: nat): Mark
    requires n <= |holes| && p < |words|
  {
    match Owner(holes, n, j1, p)
    case None => Plain(words[p])
    case Some(k) => if holes[k].box.j1 == j1 + p then Start(Variable(k + 1, holes[k].x)) else Gone
  }

  /** The holes' targets lie within the phrase and do not overlap. */
  predicate Nested(holes: seq<Phrase>, n: nat, j1: nat, j2: nat)
    requires n <= |holes|
  {
    && (forall k :: 0 <= k < n ==> j1 <= holes[k].box.j1 < holes[k].box.j2 <= j2)
    && (forall k, m :: 0 <= k < m < n ==> holes[k].box.j2 <= holes[m].box.j1 || holes[m].box.j2 <= holes[k].box.j1)
  }

  lemma {:induction false} OwnerIs(holes: seq<Phrase>, n: nat, j1: nat, j2: nat, p: nat, k: nat)
    requires n <= |holes| && Nested(holes, n, j1, j2) && k < n && Covers(holes[k], j1, p)
    ensures Owner(holes, n, j1, p) == Some(k)
  {
    if k < n - 1 {
      assert !Covers(holes[n - 1], j1, p);
      OwnerIs(holes, n - 1, j1, j2, p, k);
    }
  }

  lemma {:induction false} OwnerNone(holes: seq<Phrase>, n: nat, j1: nat, p: nat)
    requires n <= |holes|
    ensures Owner(holes, n, j1, p).None? <==> forall k :: 0 <= k < n ==> !Covers(holes[k], j1, p)
    ensures Owner(holes, n, j1, p).Some? ==> Owner(holes, n, j1, p).value < n && Covers(holes[Owner(holes, n, j1, p).value], j1, p)
  {
    if n > 0 { OwnerNone(holes, n - 1, j1, p); }
  }

  /** The marks are those of the first `n` holes. */
  predicate Marked(marks: seq<Mark>, words: seq<nat>, holes: seq<Phrase>, n: nat, j1: nat) {
    n <= |holes| && |marks| == |words| && forall p :: 0 <= p < |words| ==> marks[p] == MarkOf(words, holes, n, j1, p)
  }

  lemma {:induction false} OwnerPrefix(holes: seq<Phrase>, h: Phrase, n: nat, j1: nat, p: nat)
    requires n <= |holes|
    ensures Owner(holes + [h], n, j1, p) == Owner(holes, n, j1, p)
  {
    if n > 0 { OwnerPrefix(holes, h, n - 1, j1, p); }
  }

  /** Placing one more hole. */
  lemma MarkNext(marks: seq<Mark>, marks': seq<Mark>, words: seq<nat>, holes: seq<Phrase>, h: Phrase, j1: nat)
    requires Marked(marks, words, holes, |holes|, j1) && |marks'| == |marks|
    requires forall p {:trigger marks'[p]} :: 0 <= p < |marks| ==>
               marks'[p] == if !Covers(h, j1, p) then marks[p]
                            else if h.box.j1 == j1 + p then Start(Variable(|holes| + 1, h.x)) else Gone
    ensures Marked(marks', words, holes + [h], |holes| + 1, j1)
  {
    forall p | 0 <= p < |words| ensures marks'[p] == MarkOf(words, holes + [h], |holes| + 1, j1, p) {
      OwnerPrefix(holes, h, |holes|, j1, p);
    }
  }

  /** A hole fits among the others exactly when it covers only plain words. */
  lemma NestedNext(marks: seq<Mark>, words: seq<nat>, holes: seq<Phrase>, h: Phrase, j1: nat, j2: nat)
    requires Marked(marks, words, holes, |holes|, j1) && Nested(holes, |holes|, j1, j2) && |words| == j2 - j1
    requires j1 <= h.box.j1 < h.box.j2 <= j2
    ensures Nested(holes + [h], |holes| + 1, j1, j2) <==> forall p :: 0 <= p < |marks| && Covers(h, j1, p) ==> marks[p].Plain?
  {
    var hs := holes + [h];
    if Nested(hs, |holes| + 1, j1, j2) {
      forall p | 0 <= p < |marks| && Covers(h, j1, p) ensures marks[p].Plain? {
        OwnerNone(holes, |holes|, j1, p);
        forall k | 0 <= k < |holes| ensures !Covers(holes[k], j1, p) {
          assert hs[k] == holes[k] && hs[|holes|] == h;
        }
      }
    }
    if forall p :: 0 <= p < |marks| && Covers(h, j1, p) ==> marks[p].Plain? {
      forall k | 0 <= k < |holes| ensures holes[k].box.j2 <= h.box.j1 || h.box.j2 <= holes[k].box.j1 {
        Overlap(marks, words, holes, h, j1, j2, k);
      }
      assert forall k :: 0 <= k < |holes| ==> hs[k] == holes[k];
    }
  }

  lemma Overlap(marks: seq<Mark>, words: seq<nat>, holes: seq<Phrase>, h: Phrase, j1: nat, j2: nat, k: nat)
    requires Marked(marks, words, holes, |holes|, j1) && Nested(holes, |holes|, j1, j2) && |words| == j2 - j1 && k < |holes|
    requires j1 <= h.box.j1 < h.box.j2 <= j2
    requires forall p :: 0 <= p < |marks| && Covers(h, j1, p) ==> marks[p].Plain?
    ensures holes[k].box.j2 <= h.box.j1 || h.box.j2 <= holes[k].box.j1
  {
    if !(holes[k].box.j2 <= h.box.j1 || h.box.j2 <= holes[k].box.j1) {
      var q := if holes[k].box.j1 < h.box.j1 then h.box.j1 - j1 else holes[k].box.j1 - j1;
      assert q < |marks| && marks[q] == MarkOf(words, holes, |holes|, j1, q) && Covers(h, j1, q);
      OwnerIs(holes, |holes|, j1, j2, q, k);
    }
  }

  method PlaceHole(marks: seq<Mark>, words: seq<nat>, ghost holes: seq<Phrase>, h: Phrase, v: Symbol, j1: nat, j2: nat)
    returns (ok: bool, marks': seq<Mark>)
    requires Marked(marks, words, holes, |holes|, j1) && Nested(holes, |holes|, j1, j2) && |words| == j2 - j1
    requires h.box.j1 < h.box.j2 && v == Variable(|holes| + 1, h.x)
    ensures ok <==> Nested(holes + [h], |holes| + 1, j1, j2)
    ensures ok ==> Marked(marks', words, holes + [h], |holes| + 1, j1)
  {
    marks' := marks;
    var a, b := h.box.j1 - j1, h.box.j2 - j1;
    if a < 0 || b > |words| {
      assert (holes + [h])[|holes|] == h;
      return false, marks';
    }
    NestedNext(marks, words, holes, h, j1, j2);
    for p := a to b
      invariant forall q :: a <= q < p ==> marks[q].Plain?
    {
      if !marks[p].Plain? {
        assert Covers(h, j1, p);
        return false, marks';
      }
    }
    marks' := marks'[a := Start(v)];
    for p := a + 1 to b
      invariant |marks'| == |marks|
      invariant forall q {:trigger marks'[q]} :: 0 <= q < |marks| ==>
                  marks'[q] == if q == a then Start(v) else if a < q < p then Gone else marks[q]
    {
      marks' := marks'[p := Gone];
    }
    MarkNext(marks, marks', words, holes, h, j1);
    ok := true;
  }

  // ----- reading the target side off the marks

  /** How much of the target the marks before `p` stand for: a hole's start
      stands for all of the hole. */
  function Frontier(marks: seq<Mark>, words: seq<nat>, holes: seq<Phrase>, j1: nat, p: nat): nat
    requires Marked(marks, words, holes, |holes|, j1) && p <= |words|
  {
    if p < |words| && marks[p].Gone? && Owner(holes, |holes|, j1, p).Some?
       && holes[Owner(holes, |holes|, j1, p).value].box.j2 >= j1
    then holes[Owner(holes, |holes|, j1, p).value].box.j2 - j1
    else p
  }

  /** Past a mark the frontier moves by what the mark stands for. */
  lemma FrontierMoves(marks: seq<Mark>, words: seq<nat>, holes: seq<Phrase>, j1: nat, j2: nat, p: nat)
    requires Marked(marks, words, holes, |holes|, j1) && Nested(holes, |holes|, j1, j2) && |words| == j2 - j1 && p < |words|
    ensures var f, f' := Frontier(marks, words, holes, j1, p), Frontier(marks, words, holes, j1, p + 1);
            match marks[p]
            case Plain(w) => f == p && f' == p + 1 && w == words[p]
            case Start(v) =>
              v.Variable? && 1 <= v.index <= |holes| && v.x == holes[v.index - 1].x
              && holes[v.index - 1].box.j1 == j1 + p && f == p && f' == holes[v.index - 1].box.j2 - j1
            case Gone => f' == f
  {
    OwnerNone(holes, |holes|, j1, p);
    if p + 1 < |words| { OwnerNone(holes, |holes|, j1, p + 1); }
    var o := Owner(holes, |holes|, j1, p);
    if o.Some? {
      var k := o.value;
      if holes[k].box.j2 > j1 + p + 1 {
        OwnerIs(holes, |holes|, j1, j2, p + 1, k);
      } else if p + 1 < |words| && Owner(holes, |holes|, j1, p + 1).Some? {
        var m := Owner(holes, |holes|, j1, p + 1).value;
        if holes[m].box.j1 <= j1 + p { OwnerIs(holes, |holes|, j1, j2, p, m); }
      }
    } else if p + 1 < |words| && Owner(holes, |holes|, j1, p + 1).Some? {
      var m := Owner(holes, |holes|, j1, p + 1).value;
      assert !Covers(holes[m], j1, p);
    }
  }

  // ----- the rule

  lemma {:induction false} HolesGrow(pieces: seq<Piece>, m: nat, n: nat)
    requires m <= n <= |pieces|
    ensures |Holes(pieces, m)| <= |Holes(pieces, n)| && Holes(pieces, n)[..|Holes(pieces, m)|] == Holes(pieces, m)
  {
    if m < n { HolesGrow(pieces, m, n - 1); }
  }

  lemma NestedPrefix(holes: seq<Phrase>, all: seq<Phrase>, j1: nat, j2: nat)
    requires |holes| <= |all| && all[..|holes|] == holes && Nested(all, |all|, j1, j2)
    ensures Nested(holes, |holes|, j1, j2)
  {
    forall k | 0 <= k < |holes| ensures holes[k] == all[k] {}
  }

  predicate SomeAligned(s: Sentence, pieces: seq<Piece>, n: nat)
    requires n <= |pieces|
  {
    exists k :: 0 <= k < n && pieces[k].Word? && pieces[k].i < |s.faligned| && s.faligned[pieces[k].i]
  }

  /** Holes with prefix labels are at the left edge of the target. */
  predicate PrefixesLeft(holes: seq<Phrase>, prefixLabels: set<nat>, j1: nat) {
    forall k :: 0 <= k < |holes| && holes[k].x in prefixLabels ==> holes[k].box.j1 == j1
  }

  /** When a rule is made at all. */
  predicate Makes(s: Sentence, p: Phrase, pieces: seq<Piece>, requireAligned: bool, prefixLabels: set<nat>) {
    var holes := Holes(pieces, |pieces|);
    && !(|pieces| == 1 && pieces[0].Hole?)
    && Nested(holes, |holes|, p.box.j1, p.box.j2)
    && (requireAligned ==> SomeAligned(s, pieces, |pieces|))
    && PrefixesLeft(holes, prefixLabels, p.box.j1)
  }

  /** The source side so far. */
  predicate SourceSide(s: Sentence, pieces: seq<Piece>, n: nat, f: seq<Symbol>) {
    && n <= |pieces| && |f| == n
    && ExpandAll(s.fwords, Holes(pieces, n), false, f, n) == SourceOf(s, pieces, n)
    && VariablesOnce(f, Holes(pieces, n))
  }

  lemma WordNext(s: Sentence, pieces: seq<Piece>, n: nat, f: seq<Symbol>)
    requires SourceSide(s, pieces, n, f) && n < |pieces| && pieces[n].Word? && pieces[n].i < |s.fwords|
    ensures SourceSide(s, pieces, n + 1, f + [Terminal(s.fwords[pieces[n].i])])
  {
    hide ExpandAll, SourceOf, VariablesOnce;
    var t := Terminal(s.fwords[pieces[n].i]);
    assert Holes(pieces, n + 1) == Holes(pieces, n);
    ExpandNext(s.fwords, Holes(pieces, n), false, f, t);
    MoreTerminals(f, Holes(pieces, n), s.fwords[pieces[n].i]);
    SourceUnfolds(s, pieces, n);
  }

  lemma SourceUnfolds(s: Sentence, pieces: seq<Piece>, n: nat)
    requires n < |pieces|
    ensures SourceOf(s, pieces, n + 1) == SourceOf(s, pieces, n) + PieceWords(s, pieces[n])
  {
  }

  lemma VariablesBounded(f: seq<Symbol>, holes: seq<Phrase>)
    requires VariablesOnce(f, holes)
    ensures forall k :: 0 <= k < |f| && f[k].Variable? ==> 1 <= f[k].index <= |holes|
  {
    forall k | 0 <= k < |f| && f[k].Variable? ensures 1 <= f[k].index <= |holes| { assert OwnedBy(f[k], holes); }
  }

  lemma MoreTerminals(f: seq<Symbol>, holes: seq<Phrase>, w: nat)
    requires VariablesOnce(f, holes)
    ensures VariablesOnce(f + [Terminal(w)], holes)
  {
    DistinctNext(f, Terminal(w));
    hide Distinct;
    forall h | 0 <= h < |holes| ensures Variable(h + 1, holes[h].x) in f + [Terminal(w)] {
      assert Variable(h + 1, holes[h].x) in f;
    }
  }

  lemma MoreVariables(f: seq<Symbol>, holes: seq<Phrase>, p: Phrase)
    requires VariablesOnce(f, holes)
    ensures VariablesOnce(f + [Variable(|holes| + 1, p.x)], holes + [p])
  {
    var g, hs := f + [Variable(|holes| + 1, p.x)], holes + [p];
    VariablesBounded(f, holes);
    DistinctNext(f, Variable(|holes| + 1, p.x));
    hide Distinct;
    forall k | 0 <= k < |g| ensures OwnedBy(g[k], hs) {
      if k < |f| { assert OwnedBy(f[k], holes); }
    }
    forall h | 0 <= h < |hs| ensures Variable(h + 1, hs[h].x) in g {
      if h < |holes| { assert Variable(h + 1, holes[h].x) in f; } else { assert g[|f|] == Variable(h + 1, hs[h].x); }
    }
  }

  lemma HoleNext(s: Sentence, pieces: seq<Piece>, n: nat, f: seq<Symbol>)
    requires SourceSide(s, pieces, n, f) && n < |pieces| && pieces[n].Hole?
    ensures SourceSide(s, pieces, n + 1, f + [Variable(|Holes(pieces, n)| + 1, pieces[n].p.x)])
  {
    hide ExpandAll, SourceOf, VariablesOnce;
    var holes := Holes(pieces, n);
    var p := pieces[n].p;
    var v := Variable(|holes| + 1, p.x);
    assert Holes(pieces, n + 1) == holes + [p];
    VariablesBounded(f, holes);
    ExpandMoreHoles(s.fwords, holes, p, false, f, n);
    ExpandNext(s.fwords, holes + [p], false, f, v);
    MoreVariables(f, holes, p);
    SourceUnfolds(s, pieces, n);
    assert Expand(s.fwords, holes + [p], false, v) == PieceWords(s, pieces[n]);
  }

  /** The target side read off the first `p` marks. */
  predicate TargetSide(s: Sentence, marks: seq<Mark>, words: seq<nat>, holes: seq<Phrase>, j1: nat, p: nat, e: seq<Symbol>)
    requires Marked(marks, words, holes, |holes|, j1)
  {
    && p <= |words|
    && Frontier(marks, words, holes, j1, p) <= |words|
    && ExpandAll(s.ewords, holes, true, e, |e|) == words[..Frontier(marks, words, holes, j1, p)]
    && VariablesSoFar(e, holes, j1 + p)
    && (e == [] <==> p == 0)
  }

  /** The variables are those of the holes that start before position j. */
  predicate VariablesSoFar(e: seq<Symbol>, holes: seq<Phrase>, j: nat) {
    && Owned(e, holes) && Distinct(e)
    && (forall k :: 0 <= k < |e| && e[k].Variable? && 1 <= e[k].index <= |holes| ==> holes[e[k].index - 1].box.j1 < j)
    && (forall h :: 0 <= h < |holes| && holes[h].box.j1 < j ==> Variable(h + 1, holes[h].x) in e)
  }

  lemma SoFarSame(e: seq<Symbol>, holes: seq<Phrase>, j: nat)
    requires VariablesSoFar(e, holes, j) && forall h :: 0 <= h < |holes| ==> holes[h].box.j1 != j
    ensures VariablesSoFar(e, holes, j + 1)
  {
    hide Distinct, Owned;
  }

  lemma SoFarTerminal(e: seq<Symbol>, holes: seq<Phrase>, j: nat, w: nat)
    requires VariablesSoFar(e, holes, j)
    ensures VariablesSoFar(e + [Terminal(w)], holes, j)
  {
    DistinctNext(e, Terminal(w));
    hide Distinct;
    forall h | 0 <= h < |holes| && holes[h].box.j1 < j ensures Variable(h + 1, holes[h].x) in e + [Terminal(w)] {
      assert Variable(h + 1, holes[h].x) in e;
    }
  }

  lemma OwnedNext(e: seq<Symbol>, sym: Symbol, holes: seq<Phrase>)
    requires Owned(e, holes) && OwnedBy(sym, holes)
    ensures Owned(e + [sym], holes)
  {
  }

  lemma StartsBefore(e: seq<Symbol>, holes: seq<Phrase>, j: nat)
    requires VariablesSoFar(e, holes, j)
    ensures forall m :: 0 <= m < |e| && e[m].Variable? ==> 1 <= e[m].index <= |holes| && holes[e[m].index - 1].box.j1 < j
  {
    hide Distinct;
    forall m | 0 <= m < |e| && e[m].Variable? ensures 1 <= e[m].index <= |holes| { assert OwnedBy(e[m], holes); }
  }

  lemma SoFarVariable(e: seq<Symbol>, holes: seq<Phrase>, j: nat, k: nat)
    requires VariablesSoFar(e, holes, j) && k < |holes| && holes[k].box.j1 == j
    requires forall h :: 0 <= h < |holes| && h != k ==> holes[h].box.j1 != j
    ensures VariablesSoFar(e + [Variable(k + 1, holes[k].x)], holes, j + 1)
  {
    hide Distinct, Owned;
    var v := Variable(k + 1, holes[k].x);
    StartsBefore(e, holes, j);
    DistinctNext(e, v);
    OwnedNext(e, v, holes);
    var g := e + [v];
    forall h | 0 <= h < |holes| && holes[h].box.j1 < j + 1 ensures Variable(h + 1, holes[h].x) in g {
      if h == k { assert g[|e|] == v; } else { assert Variable(h + 1, holes[h].x) in e; }
    }
  }

  /** No hole starts at a plain word or inside a hole. */
  lemma NoStartHere(marks: seq<Mark>, words: seq<nat>, holes: seq<Phrase>, j1: nat, j2: nat, p: nat, h: nat)
    requires Marked(marks, words, holes, |holes|, j1) && Nested(holes, |holes|, j1, j2) && |words| == j2 - j1 && p < |words|
    requires h < |holes|
    ensures holes[h].box.j1 == j1 + p ==> marks[p] == Start(Variable(h + 1, holes[h].x))
  {
    if holes[h].box.j1 == j1 + p { OwnerIs(holes, |holes|, j1, j2, p, h); }
  }

  predicate TargetReady(s: Sentence, marks: seq<Mark>, words: seq<nat>, holes: seq<Phrase>, j1: nat, j2: nat) {
    && Marked(marks, words, holes, |holes|, j1) && Nested(holes, |holes|, j1, j2)
    && j1 <= j2 <= |s.ewords| && words == s.ewords[j1..j2]
  }

  lemma PlainRead(s: Sentence, marks: seq<Mark>, words: seq<nat>, holes: seq<Phrase>, j1: nat, j2: nat, p: nat, e: seq<Symbol>)
    requires TargetReady(s, marks, words, holes, j1, j2) && p < |words| && marks[p].Plain? && TargetSide(s, marks, words, holes, j1, p, e)
    ensures TargetSide(s, marks, words, holes, j1, p + 1, e + [Terminal(marks[p].w)])
  {
    hide ExpandAll, MarkOf, VariablesSoFar;
    FrontierMoves(marks, words, holes, j1, j2, p);
    forall h | 0 <= h < |holes| ensures holes[h].box.j1 != j1 + p {
      NoStartHere(marks, words, holes, j1, j2, p, h);
    }
    hide Frontier, Marked, Nested;
    ExpandNext(s.ewords, holes, true, e, Terminal(marks[p].w));
    SoFarSame(e, holes, j1 + p);
    SoFarTerminal(e, holes, j1 + p + 1, marks[p].w);
    assert words[..p + 1] == words[..p] + [words[p]];
  }

  lemma StartRead(s: Sentence, marks: seq<Mark>, words: seq<nat>, holes: seq<Phrase>, j1: nat, j2: nat, p: nat, e: seq<Symbol>)
    requires TargetReady(s, marks, words, holes, j1, j2) && p < |words| && marks[p].Start? && TargetSide(s, marks, words, holes, j1, p, e)
    ensures TargetSide(s, marks, words, holes, j1, p + 1, e + [marks[p].v])
  {
    hide ExpandAll, MarkOf, VariablesSoFar;
    FrontierMoves(marks, words, holes, j1, j2, p);
    var v := marks[p].v;
    var k := v.index - 1;
    var b := holes[k].box;
    assert b.j1 < b.j2 <= j2;
    forall h | 0 <= h < |holes| && h != k ensures holes[h].box.j1 != j1 + p {
      NoStartHere(marks, words, holes, j1, j2, p, h);
    }
    hide Frontier, Marked, Nested;
    ExpandNext(s.ewords, holes, true, e, v);
    SoFarVariable(e, holes, j1 + p, k);
    assert words[..b.j2 - j1] == words[..p] + s.ewords[b.j1..b.j2];
  }

  lemma GoneRead(s: Sentence, marks: seq<Mark>, words: seq<nat>, holes: seq<Phrase>, j1: nat, j2: nat, p: nat, e: seq<Symbol>)
    requires TargetReady(s, marks, words, holes, j1, j2) && p < |words| && marks[p].Gone? && TargetSide(s, marks, words, holes, j1, p, e)
    ensures TargetSide(s, marks, words, holes, j1, p + 1, e)
  {
    hide ExpandAll, MarkOf, VariablesSoFar;
    FrontierMoves(marks, words, holes, j1, j2, p);
    FirstIsNotGone(marks, words, holes, j1, j2);
    forall h | 0 <= h < |holes| ensures holes[h].box.j1 != j1 + p {
      NoStartHere(marks, words, holes, j1, j2, p, h);
    }
    hide Frontier, Marked, Nested;
    SoFarSame(e, holes, j1 + p);
  }

  lemma FirstIsNotGone(marks: seq<Mark>, words: seq<nat>, holes: seq<Phrase>, j1: nat, j2: nat)
    requires Marked(marks, words, holes, |holes|, j1) && Nested(holes, |holes|, j1, j2) && words != []
    ensures !marks[0].Gone?
  {
    OwnerNone(holes, |holes|, j1, 0);
  }

  /** The source side and the marked target words, or nothing if a hole does not fit. */
  method ReadSource(s: Sentence, p: Phrase, pieces: seq<Piece>)
    returns (ok: bool, f: seq<Symbol>, marks: seq<Mark>, aligned: bool)
    requires PiecesOk(s, pieces) && p.box.j1 < p.box.j2 <= |s.ewords|
    ensures var holes := Holes(pieces, |pieces|);
            var words := s.ewords[p.box.j1..p.box.j2];
            && (ok <==> Nested(holes, |holes|, p.box.j1, p.box.j2))
            && (ok ==> Marked(marks, words, holes, |holes|, p.box.j1) && SourceSide(s, pieces, |pieces|, f)
                       && (aligned <==> SomeAligned(s, pieces, |pieces|)))
  {
    hide Marked, Nested, SourceSide, PieceWords;
    var j1, j2 := p.box.j1, p.box.j2;
    var words := s.ewords[j1..j2];
    f, aligned := [], false;
    marks := seq(|words|, k requires 0 <= k < |words| => Plain(words[k]));
    var index := 1;
    NoPieces(s, pieces, words, marks, j1, j2);
    for i := 0 to |pieces|
      invariant index == |Holes(pieces, i)| + 1
      invariant Marked(marks, words, Holes(pieces, i), |Holes(pieces, i)|, j1)
      invariant Nested(Holes(pieces, i), |Holes(pieces, i)|, j1, j2)
      invariant SourceSide(s, pieces, i, f) && (aligned <==> SomeAligned(s, pieces, i))
    {
      if pieces[i].Word? {
        WordNext(s, pieces, i, f);
        assert Holes(pieces, i + 1) == Holes(pieces, i);
        if s.faligned[pieces[i].i] {
          aligned := true;
        }
        f := f + [Terminal(s.fwords[pieces[i].i])];
      } else {
        HoleNext(s, pieces, i, f);
        var v := Variable(index, pieces[i].p.x);
        var holes := Holes(pieces, i);
        assert Holes(pieces, i + 1) == holes + [pieces[i].p] && |Holes(pieces, i + 1)| == |holes| + 1;
        ok, marks := PlaceHole(marks, words, holes, pieces[i].p, v, j1, j2);
        if !ok {
          HolesGrow(pieces, i + 1, |pieces|);
          if Nested(Holes(pieces, |pieces|), |Holes(pieces, |pieces|)|, j1, j2) {
            NestedPrefix(holes + [pieces[i].p], Holes(pieces, |pieces|), j1, j2);
          }
          return;
        }
        f := f + [v];
        index := index + 1;
      }
    }
    ok := true;
  }

  lemma NoPieces(s: Sentence, pieces: seq<Piece>, words: seq<nat>, marks: seq<Mark>, j1: nat, j2: nat)
    requires |marks| == |words| && forall k :: 0 <= k < |words| ==> marks[k] == Plain(words[k])
    ensures Marked(marks, words, [], 0, j1) && Nested([], 0, j1, j2) && SourceSide(s, pieces, 0, [])
  {
  }

  /** The variable put at a mark is at the left edge exactly if it is first. */
  method ReadTarget(s: Sentence, marks: seq<Mark>, words: seq<nat>, ghost holes: seq<Phrase>, j1: nat, ghost j2: nat, prefixLabels: set<nat>)
    returns (ok: bool, e: seq<Symbol>)
    requires TargetReady(s, marks, words, holes, j1, j2)
    ensures ok <==> PrefixesLeft(holes, prefixLabels, j1)
    ensures ok ==> ExpandAll(s.ewords, holes, true, e, |e|) == words && VariablesOnce(e, holes)
  {
    hide TargetSide, Marked, Nested;
    e := [];
    NestedBounds(holes, j1, j2);
    NothingRead(s, marks, words, holes, j1);
    MarksHaveLength(marks, words, holes, j1);
    for p := 0 to |marks|
      invariant TargetSide(s, marks, words, holes, j1, p, e)
      invariant forall k :: 0 <= k < |holes| && holes[k].x in prefixLabels && holes[k].box.j1 < j1 + p ==> holes[k].box.j1 == j1
    {
      StartsAreHoles(s, marks, words, holes, j1, j2, p);
      EmptyOnlyFirst(s, marks, words, holes, j1, p, e);
      match marks[p] {
        case Plain(w) =>
          PlainRead(s, marks, words, holes, j1, j2, p, e);
          e := e + [Terminal(w)];
        case Start(v) =>
          if e != [] && v.x in prefixLabels {
            return false, e;
          }
          StartRead(s, marks, words, holes, j1, j2, p, e);
          e := e + [v];
        case Gone =>
          GoneRead(s, marks, words, holes, j1, j2, p, e);
      }
    }
    AllRead(s, marks, words, holes, j1, j2, e);
    ok := true;
  }

  lemma NothingRead(s: Sentence, marks: seq<Mark>, words: seq<nat>, holes: seq<Phrase>, j1: nat)
    requires Marked(marks, words, holes, |holes|, j1)
    requires forall k :: 0 <= k < |holes| ==> j1 <= holes[k].box.j1 < holes[k].box.j2
    ensures TargetSide(s, marks, words, holes, j1, 0, [])
  {
    OwnerNone(holes, |holes|, j1, 0);
  }

  lemma NestedBounds(holes: seq<Phrase>, j1: nat, j2: nat)
    requires Nested(holes, |holes|, j1, j2)
    ensures forall k :: 0 <= k < |holes| ==> j1 <= holes[k].box.j1 < holes[k].box.j2 <= j2
  {
  }

  lemma MarksHaveLength(marks: seq<Mark>, words: seq<nat>, holes: seq<Phrase>, j1: nat)
    requires Marked(marks, words, holes, |holes|, j1)
    ensures |marks| == |words|
  {
  }

  lemma EmptyOnlyFirst(s: Sentence, marks: seq<Mark>, words: seq<nat>, holes: seq<Phrase>, j1: nat, p: nat, e: seq<Symbol>)
    requires Marked(marks, words, holes, |holes|, j1) && TargetSide(s, marks, words, holes, j1, p, e)
    ensures e == [] <==> p == 0
  {
  }

  /** A hole starts at a position exactly when its mark says so. */
  lemma StartsAreHoles(s: Sentence, marks: seq<Mark>, words: seq<nat>, holes: seq<Phrase>, j1: nat, j2: nat, p: nat)
    requires TargetReady(s, marks, words, holes, j1, j2) && p < |marks|
    ensures forall h :: 0 <= h < |holes| && holes[h].box.j1 == j1 + p ==> marks[p] == Start(Variable(h + 1, holes[h].x))
    ensures marks[p].Start? ==> exists h :: 0 <= h < |holes| && holes[h].box.j1 == j1 + p && holes[h].x == marks[p].v.x
  {
    forall h | 0 <= h < |holes| && holes[h].box.j1 == j1 + p ensures marks[p] == Start(Variable(h + 1, holes[h].x)) {
      NoStartHere(marks, words, holes, j1, j2, p, h);
    }
    FrontierMoves(marks, words, holes, j1, j2, p);
  }

  lemma AllRead(s: Sentence, marks: seq<Mark>, words: seq<nat>, holes: seq<Phrase>, j1: nat, j2: nat, e: seq<Symbol>)
    requires TargetReady(s, marks, words, holes, j1, j2) && TargetSide(s, marks, words, holes, j1, |words|, e)
    ensures ExpandAll(s.ewords, holes, true, e, |e|) == words && VariablesOnce(e, holes)
  {
    assert words[..|words|] == words;
    hide ExpandAll;
  }

  /** A rule for the phrase from a reading of its source side, if the holes fit
      the target side and the options allow it. */
  method MakeRule(s: Sentence, p: Phrase, pieces: seq<Piece>, requireAligned: bool, prefixLabels: set<nat>) returns (r: Option<Rule>)
    requires PiecesOk(s, pieces) && p.box.j1 < p.box.j2 <= |s.ewords|
    ensures r.Some? <==> Makes(s, p, pieces, requireAligned, prefixLabels)
    ensures r.Some? ==>
              var holes := Holes(pieces, |pieces|);
              && r.value.x == p.x && |r.value.f| == |pieces|
              && ExpandAll(s.fwords, holes, false, r.value.f, |r.value.f|) == SourceOf(s, pieces, |pieces|)
              && ExpandAll(s.ewords, holes, true, r.value.e, |r.value.e|) == s.ewords[p.box.j1..p.box.j2]
              && VariablesOnce(r.value.f, holes) && VariablesOnce(r.value.e, holes)
  {
    hide Nested, Marked, VariablesOnce, ExpandAll, SourceOf;
    if |pieces| == 1 && pieces[0].Hole? {
      return None;
    }
    var ok, f, marks, aligned := ReadSource(s, p, pieces);
    if !ok || (requireAligned && !aligned) {
      return None;
    }
    var e;
    ghost var holes := Holes(pieces, |pieces|);
    ok, e := ReadTarget(s, marks, s.ewords[p.box.j1..p.box.j2], holes, p.box.j1, p.box.j2, prefixLabels);
    r := if ok then Some(Rule(p.x, f, e)) else None;
  }
}
