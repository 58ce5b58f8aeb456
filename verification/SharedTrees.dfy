/** What the shared table of a greedy binarizer stores: for each sequence of
    symbols, where its binary tree splits it. */
module SharedTrees {

  datatype Token = Word(id: int) | Tag(id: int)

  type Symbols = seq<Token>

  /** Each stored sequence with the place where its tree splits it (0 for a
      leaf), and the sequences whose trees are marked as used. */
  datatype Memo = Memo(table: map<Symbols, int>, used: set<Symbols>)

  // ----- the table is closed

  /** The tree stored for s is a leaf for one symbol, and else has the trees
      stored for the two halves of s as its children. */
  predicate EntryOk(memo: Memo, s: Symbols) {
    && s in memo.table && s != []
    && (if |s| == 1 then memo.table[s] == 0
        else 0 < memo.table[s] < |s| && s[..memo.table[s]] in memo.table && s[memo.table[s]..] in memo.table)
  }

  predicate ChildOf(table: map<Symbols, int>, p: Symbols, s: Symbols) {
    p in table && 0 < table[p] < |p| && (s == p[..table[p]] || s == p[table[p]..])
  }

  ghost predicate HasParent(table: map<Symbols, int>, s: Symbols) {
    exists p :: ChildOf(table, p, s)
  }

  ghost predicate UsedOk(memo: Memo, s: Symbols) {
    s in memo.used <==> HasParent(memo.table, s)
  }

  /** Exactly the trees that are a child of another are marked as used. */
  ghost predicate Closed(memo: Memo) {
    && (forall s {:trigger EntryOk(memo, s)} :: s in memo.table ==> EntryOk(memo, s))
    && (forall s {:trigger UsedOk(memo, s)} :: UsedOk(memo, s))
  }

  /** Nothing stored is changed or lost. */
  predicate Kept(memo: Memo, memo': Memo) {
    && (forall s :: s in memo.table ==> s in memo'.table && memo'.table[s] == memo.table[s])
    && memo.used <= memo'.used
  }

  /** Everything new is shorter than n. */
  predicate Shorter(memo: Memo, memo': Memo, n: nat) {
    forall s :: s in memo'.table ==> s in memo.table || |s| < n
  }

  /** Every new tree is used, but for the one for s. */
  predicate NewAreUsed(memo: Memo, memo': Memo, s: Symbols) {
    forall t :: t in memo'.table ==> t in memo.table || t == s || t in memo'.used
  }

  function WithLeaf(memo: Memo, s: Symbols): Memo {
    memo.(table := memo.table[s := 0])
  }

  function WithPair(memo: Memo, s: Symbols, mid: int): Memo
    requires 0 < mid < |s|
  {
    Memo(memo.table[s := mid], memo.used + {s[..mid], s[mid..]})
  }

  lemma LeafKeeps(memo: Memo, s: Symbols)
    requires Closed(memo) && |s| == 1 && s !in memo.table
    ensures Closed(WithLeaf(memo, s)) && Kept(memo, WithLeaf(memo, s))
  {
    var memo' := WithLeaf(memo, s);
    forall t | t in memo'.table ensures EntryOk(memo', t) { assert t != s ==> EntryOk(memo, t); }
    forall t ensures UsedOk(memo', t) {
      assert UsedOk(memo, t);
      if HasParent(memo.table, t) { var p :| ChildOf(memo.table, p, t); assert ChildOf(memo'.table, p, t); }
      if HasParent(memo'.table, t) { var p :| ChildOf(memo'.table, p, t); assert ChildOf(memo.table, p, t); }
    }
  }

  lemma PairKeeps(memo: Memo, s: Symbols, mid: int)
    requires Closed(memo) && 0 < mid < |s| && s !in memo.table && s[..mid] in memo.table && s[mid..] in memo.table
    ensures Closed(WithPair(memo, s, mid)) && Kept(memo, WithPair(memo, s, mid))
  {
    var memo' := WithPair(memo, s, mid);
    forall t | t in memo'.table ensures EntryOk(memo', t) { assert t != s ==> EntryOk(memo, t); }
    forall t ensures UsedOk(memo', t) { UsedWithPair(memo, s, mid, t); }
  }

  lemma UsedWithPair(memo: Memo, s: Symbols, mid: int, t: Symbols)
    requires Closed(memo) && 0 < mid < |s| && s !in memo.table
    ensures UsedOk(WithPair(memo, s, mid), t)
  {
    var memo' := WithPair(memo, s, mid);
    assert UsedOk(memo, t);
    if HasParent(memo.table, t) { var p :| ChildOf(memo.table, p, t); assert ChildOf(memo'.table, p, t); }
    if t == s[..mid] || t == s[mid..] { assert ChildOf(memo'.table, s, t); }
    if HasParent(memo'.table, t) {
      var p :| ChildOf(memo'.table, p, t);
      assert p != s ==> ChildOf(memo.table, p, t);
    }
  }

  /** What storing a tree for s does to the table. */
  ghost predicate Grew(memo: Memo, memo': Memo, s: Symbols) {
    s in memo'.table && Kept(memo, memo') && Shorter(memo, memo', |s| + 1) && NewAreUsed(memo, memo', s)
  }

  lemma GrewNot(memo: Memo, s: Symbols)
    requires s in memo.table
    ensures Grew(memo, memo, s)
  {
  }

  lemma GrewLeaf(memo: Memo, s: Symbols)
    requires Closed(memo) && |s| == 1 && s !in memo.table
    ensures Grew(memo, WithLeaf(memo, s), s)
  {
  }

  /** Joining two stored halves. */
  lemma GrewJoin(memo: Memo, s: Symbols, mid: int)
    requires 0 < mid < |s| && s !in memo.table
    ensures Grew(memo, WithPair(memo, s, mid), s)
  {
  }

  /** Storing one half, then the other, then joining them. */
  lemma GrewHalves(memo0: Memo, memo1: Memo, memo2: Memo, a: Symbols, b: Symbols, s: Symbols, mid: int)
    requires 0 < mid < |s| && s !in memo0.table && Grew(memo0, memo1, a) && Grew(memo1, memo2, b)
    requires (a == s[..mid] && b == s[mid..]) || (a == s[mid..] && b == s[..mid])
    ensures s !in memo2.table && a in memo2.table && b in memo2.table && Grew(memo0, WithPair(memo2, s, mid), s)
  {
  }

  // ----- the choice of a split

  predicate Both(table: map<Symbols, int>, s: Symbols, m: int) {
    0 < m < |s| && s[..m] in table && s[m..] in table
  }

  predicate Either(table: map<Symbols, int>, s: Symbols, m: int) {
    0 < m < |s| && (s[..m] in table || s[m..] in table)
  }

  /** Places inside s, from left to right. */
  predicate Places(s: Symbols, mids: seq<int>) {
    && mids != [] && (forall k :: 0 <= k < |mids| ==> 0 < mids[k] < |s|)
    && (forall j, k :: 0 <= j < k < |mids| ==> mids[j] < mids[k])
  }

  /** The last place where both halves are stored; if there is none, the last
      where either half is; if there is none, the last place. */
  predicate Chosen(table: map<Symbols, int>, s: Symbols, mids: seq<int>, m: int) {
    && m in mids
    && (Both(table, s, m) ==> forall k {:trigger mids[k]} :: 0 <= k < |mids| && mids[k] > m ==> !Both(table, s, mids[k]))
    && (!Both(table, s, m) ==>
          && (forall k {:trigger mids[k]} :: 0 <= k < |mids| ==> !Both(table, s, mids[k]))
          && (forall k {:trigger mids[k]} :: 0 <= k < |mids| && mids[k] > m ==> !Either(table, s, mids[k]))
          && (!Either(table, s, m) ==>
                && m == mids[|mids| - 1]
                && (forall k {:trigger mids[k]} :: 0 <= k < |mids| ==> !Either(table, s, mids[k]))))
  }

  // ----- stretches of words and of tags

  /** A word by itself, or all tags from one word to the next. */
  predicate Stretch(s: Symbols, i: int, j: int) {
    && 0 <= i < j <= |s|
    && (s[i].Word? ==> j == i + 1)
    && (s[i].Tag? ==>
          && (forall k :: i <= k < j ==> s[k].Tag?)
          && (j < |s| ==> s[j].Word?) && (i > 0 ==> s[i - 1].Word?))
  }

  /** The cuts divide the first n symbols of s into stretches. */
  predicate Cut(s: Symbols, cuts: seq<int>, n: int) {
    && cuts != [] && cuts[0] == 0 && cuts[|cuts| - 1] == n
    && (forall k {:trigger cuts[k]} :: 0 < k < |cuts| ==> Stretch(s, cuts[k - 1], cuts[k]))
  }

  lemma StretchBounds(s: Symbols, i: int, j: int)
    requires Stretch(s, i, j)
    ensures 0 <= i < j <= |s|
  {
  }

  lemma StretchIsUnique(s: Symbols, i: int, j: int, k: int)
    requires Stretch(s, i, j) && Stretch(s, i, k)
    ensures j == k
  {
  }

  lemma {:induction false} CutsRise(s: Symbols, cuts: seq<int>, n: int, i: nat, j: nat)
    requires Cut(s, cuts, n) && i <= j < |cuts|
    ensures 0 <= cuts[i] <= cuts[j] && (i < j ==> cuts[i] < cuts[j])
  {
    hide Stretch;
    if i < j {
      CutsRise(s, cuts, n, i, j - 1);
      StretchBounds(s, cuts[j - 1], cuts[j]);
    } else if i > 0 {
      StretchBounds(s, cuts[i - 1], cuts[i]);
    }
  }

  /** There is only one way to do so. */
  lemma {:induction false} CutIsUnique(s: Symbols, a: seq<int>, b: seq<int>, k: nat)
    requires Cut(s, a, |s|) && Cut(s, b, |s|) && k < |a|
    ensures k < |b| && a[k] == b[k]
  {
    hide Stretch;
    if k > 0 {
      CutIsUnique(s, a, b, k - 1);
      StretchBounds(s, a[k - 1], a[k]);
      assert k - 1 != |b| - 1;
      StretchIsUnique(s, a[k - 1], a[k], b[k]);
    }
  }

  // ----- the grammar that is put out

  /** A rule for a virtual symbol. */
  datatype Virtual = Virtual(s: Symbols, left: Symbols, right: Symbols)

  /** The line for an input rule: its right-hand side and what it became. */
  datatype RuleLine = RuleLine(rhs: Symbols, parts: seq<Symbols>)

  predicate LineOk(memo: Memo, line: RuleLine) {
    && EntryOk(memo, line.rhs)
    && line.parts == if |line.rhs| == 1 then [line.rhs]
                     else [line.rhs[..memo.table[line.rhs]], line.rhs[memo.table[line.rhs]..]]
  }

  predicate IsRule(lines: seq<RuleLine>, s: Symbols) {
    exists n :: 0 <= n < |lines| && lines[n].rhs == s
  }

  /** Every tree is used or is the tree of an input rule. */
  predicate Owned(memo: Memo, lines: seq<RuleLine>, s: Symbols) {
    s in memo.used || IsRule(lines, s) || |s| == 1
  }

  ghost predicate AllOwned(memo: Memo, lines: seq<RuleLine>) {
    forall s {:trigger Owned(memo, lines, s)} :: s in memo.table ==> Owned(memo, lines, s)
  }

  ghost predicate LinesOk(memo: Memo, lines: seq<RuleLine>) {
    forall n {:trigger LineOk(memo, lines[n])} :: 0 <= n < |lines| ==> LineOk(memo, lines[n])
  }

  lemma LinesStay(memo: Memo, memo': Memo, lines: seq<RuleLine>)
    requires LinesOk(memo, lines) && Kept(memo, memo') && Closed(memo')
    ensures LinesOk(memo', lines)
  {
    forall n | 0 <= n < |lines| ensures LineOk(memo', lines[n]) {
      assert LineOk(memo, lines[n]) && EntryOk(memo', lines[n].rhs);
    }
  }

  lemma LinesMore(memo: Memo, memo': Memo, lines: seq<RuleLine>, line: RuleLine)
    requires LinesOk(memo, lines) && AllOwned(memo, lines) && Closed(memo')
    requires Grew(memo, memo', line.rhs) && LineOk(memo', line)
    ensures LinesOk(memo', lines + [line]) && AllOwned(memo', lines + [line])
  {
    var lines' := lines + [line];
    LinesStay(memo, memo', lines);
    forall n | 0 <= n < |lines'| ensures LineOk(memo', lines'[n]) { assert n < |lines| ==> LineOk(memo', lines[n]); }
    assert lines'[|lines|].rhs == line.rhs;
    forall s | s in memo'.table ensures Owned(memo', lines', s) {
      if s in memo.table {
        assert Owned(memo, lines, s);
        if IsRule(lines, s) {
          var n :| 0 <= n < |lines| && lines[n].rhs == s;
          assert lines'[n].rhs == s;
        }
      }
    }
  }

  /** A tree gets a rule of its own when it has two children and is used. */
  predicate Emits(memo: Memo, s: Symbols) {
    s in memo.table && |s| > 1 && s in memo.used
  }

  /** The virtual symbol appears on the right of an emitted rule or in a line. */
  ghost predicate Mentioned(memo: Memo, lines: seq<RuleLine>, s: Symbols) {
    && |s| > 1
    && ((exists p :: Emits(memo, p) && ChildOf(memo.table, p, s))
        || (exists n :: 0 <= n < |lines| && s in lines[n].parts))
  }

  /** Exactly the virtual symbols that are mentioned get a rule. */
  lemma EmittedIffMentioned(memo: Memo, lines: seq<RuleLine>, s: Symbols)
    requires Closed(memo) && LinesOk(memo, lines) && AllOwned(memo, lines)
    ensures Emits(memo, s) <==> Mentioned(memo, lines, s)
  {
    assert UsedOk(memo, s);
    if Emits(memo, s) {
      var p :| ChildOf(memo.table, p, s);
      assert Owned(memo, lines, p);
      if p !in memo.used {
        var n :| 0 <= n < |lines| && lines[n].rhs == p;
        assert LineOk(memo, lines[n]);
        assert s in lines[n].parts;
      } else {
        assert Emits(memo, p);
      }
    }
    if Mentioned(memo, lines, s) { MentionedIsEmitted(memo, lines, s); }
  }

  lemma MentionedIsEmitted(memo: Memo, lines: seq<RuleLine>, s: Symbols)
    requires Closed(memo) && LinesOk(memo, lines) && Mentioned(memo, lines, s)
    ensures Emits(memo, s)
  {
    assert UsedOk(memo, s);
    if p :| Emits(memo, p) && ChildOf(memo.table, p, s) {
      assert EntryOk(memo, p);
    } else {
      var n :| 0 <= n < |lines| && s in lines[n].parts;
      assert LineOk(memo, lines[n]);
      assert ChildOf(memo.table, lines[n].rhs, s);
    }
  }

  /** The rule for a virtual symbol names the halves its tree has. */
  predicate RuleOk(memo: Memo, rule: Virtual) {
    && Emits(memo, rule.s) && EntryOk(memo, rule.s)
    && rule == Virtual(rule.s, rule.s[..memo.table[rule.s]], rule.s[memo.table[rule.s]..])
  }

  predicate HasRule(rules: seq<Virtual>, s: Symbols) {
    exists a :: 0 <= a < |rules| && rules[a].s == s
  }

  /** The rules put out for virtual symbols: one for each that is emitted. */
  ghost predicate IsGrammar(memo: Memo, rules: seq<Virtual>) {
    && (forall a {:trigger rules[a]} :: 0 <= a < |rules| ==> RuleOk(memo, rules[a]))
    && (forall a, b :: 0 <= a < b < |rules| ==> rules[a].s != rules[b].s)
    && (forall s :: Emits(memo, s) ==> HasRule(rules, s))
  }

  /** The virtual symbol appears in what was put out other than as the symbol
      that a rule is for. */
  predicate Appears(lines: seq<RuleLine>, rules: seq<Virtual>, s: Symbols) {
    && |s| > 1
    && ((exists a :: 0 <= a < |rules| && (rules[a].left == s || rules[a].right == s))
        || (exists n :: 0 <= n < |lines| && s in lines[n].parts))
  }

  /** Every virtual symbol that appears has a rule, and there is no rule for
      one that does not. */
  lemma RulesAreNeeded(memo: Memo, lines: seq<RuleLine>, rules: seq<Virtual>, s: Symbols)
    requires Closed(memo) && LinesOk(memo, lines) && AllOwned(memo, lines) && IsGrammar(memo, rules)
    ensures HasRule(rules, s) <==> Appears(lines, rules, s)
  {
    EmittedIffMentioned(memo, lines, s);
    if HasRule(rules, s) {
      var a :| 0 <= a < |rules| && rules[a].s == s;
      if p :| Emits(memo, p) && ChildOf(memo.table, p, s) { MakesAppear(memo, rules, p, s); }
    }
    if a :| 0 <= a < |rules| && |s| > 1 && (rules[a].left == s || rules[a].right == s) {
      assert RuleOk(memo, rules[a]);
      assert ChildOf(memo.table, rules[a].s, s);
      assert Mentioned(memo, lines, s);
    }
  }

  lemma MakesAppear(memo: Memo, rules: seq<Virtual>, p: Symbols, s: Symbols)
    requires IsGrammar(memo, rules) && Emits(memo, p) && ChildOf(memo.table, p, s)
    ensures exists a :: 0 <= a < |rules| && (rules[a].left == s || rules[a].right == s)
  {
    assert HasRule(rules, p);
    var a :| 0 <= a < |rules| && rules[a].s == p;
    assert RuleOk(memo, rules[a]);
  }

  /** Whether the rules derive w from the symbol s: a symbol of length one
      stands for itself. */
  ghost predicate Derives(rules: seq<Virtual>, s: Symbols, w: Symbols)
    decreases |w|, 1
  {
    if |s| == 1 then w == s else exists a, k :: DerivesBy(rules, s, w, a, k)
  }

  /** Rule a derives w[..k] from its left part and w[k..] from its right. */
  ghost predicate DerivesBy(rules: seq<Virtual>, s: Symbols, w: Symbols, a: int, k: int)
    decreases |w|, 0
  {
    && 0 <= a < |rules| && 0 < k < |w| && rules[a].s == s
    && Derives(rules, rules[a].left, w[..k]) && Derives(rules, rules[a].right, w[k..])
  }

  /** An emitted symbol derives its own sequence and nothing else. */
  lemma {:induction false} DerivesItself(memo: Memo, rules: seq<Virtual>, s: Symbols)
    requires Closed(memo) && IsGrammar(memo, rules) && (|s| == 1 || Emits(memo, s))
    ensures Derives(rules, s, s)
    decreases |s|
  {
    if |s| > 1 {
      var a :| 0 <= a < |rules| && rules[a].s == s;
      var k := memo.table[s];
      PartEmits(memo, s, s[..k]);
      PartEmits(memo, s, s[k..]);
      DerivesItself(memo, rules, s[..k]);
      DerivesItself(memo, rules, s[k..]);
      assert DerivesBy(rules, s, s, a, k);
    }
  }

  lemma PartEmits(memo: Memo, p: Symbols, s: Symbols)
    requires Closed(memo) && p in memo.table && |p| > 1 && ChildOf(memo.table, p, s)
    ensures |s| == 1 || Emits(memo, s)
  {
    assert EntryOk(memo, p) && UsedOk(memo, s);
  }

  lemma {:induction false} DerivesOnly(memo: Memo, rules: seq<Virtual>, s: Symbols, w: Symbols)
    requires Closed(memo) && IsGrammar(memo, rules) && (|s| == 1 || Emits(memo, s)) && Derives(rules, s, w)
    ensures w == s
    decreases |w|
  {
    if |s| > 1 {
      var a, k :| DerivesBy(rules, s, w, a, k);
      var m := memo.table[s];
      assert EntryOk(memo, s);
      PartEmits(memo, s, s[..m]);
      PartEmits(memo, s, s[m..]);
      DerivesOnly(memo, rules, s[..m], w[..k]);
      DerivesOnly(memo, rules, s[m..], w[k..]);
      assert w == w[..k] + w[k..];
    }
  }

  ghost predicate PairDerives(rules: seq<Virtual>, left: Symbols, right: Symbols, w: Symbols, k: int) {
    0 <= k <= |w| && Derives(rules, left, w[..k]) && Derives(rules, right, w[k..])
  }

  /** What the parts of a rule's line derive, put together. */
  ghost predicate LineDerives(rules: seq<Virtual>, line: RuleLine, w: Symbols) {
    || (|line.parts| == 1 && Derives(rules, line.parts[0], w))
    || (|line.parts| == 2 && exists k :: PairDerives(rules, line.parts[0], line.parts[1], w, k))
  }

  /** Each binarized rule derives its original right-hand side, and only that. */
  lemma LinesDerive(memo: Memo, lines: seq<RuleLine>, rules: seq<Virtual>, n: nat, w: Symbols)
    requires Closed(memo) && LinesOk(memo, lines) && IsGrammar(memo, rules) && n < |lines|
    ensures LineDerives(rules, lines[n], w) <==> w == lines[n].rhs
  {
    var line := lines[n];
    assert LineOk(memo, line);
    var s := line.rhs;
    if |s| == 1 {
      assert Derives(rules, s, w) <==> w == s;
    } else {
      var m := memo.table[s];
      PartEmits(memo, s, s[..m]);
      PartEmits(memo, s, s[m..]);
      DerivesItself(memo, rules, s[..m]);
      DerivesItself(memo, rules, s[m..]);
      if LineDerives(rules, line, w) {
        var k :| PairDerives(rules, line.parts[0], line.parts[1], w, k);
        DerivesOnly(memo, rules, s[..m], w[..k]);
        DerivesOnly(memo, rules, s[m..], w[k..]);
        assert w == w[..k] + w[k..];
      }
      assert line.parts == [s[..m], s[m..]];
      if w == s { assert PairDerives(rules, line.parts[0], line.parts[1], w, m); }
    }
  }
}
