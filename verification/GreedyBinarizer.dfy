/** A binarizer that shares the trees of all sequences of symbols it has met. */
module GreedyBinarizer {

  import opened SharedTrees

  class BinTree {
    var used: bool
    const left: BinTree?
    const right: BinTree?
    const path: Symbols

    constructor (left: BinTree?, right: BinTree?, path: Symbols)
      ensures !used && this.left == left && this.right == right && this.path == path
    {
      this.used, this.left, this.right, this.path := false, left, right, path;
    }
  }

  /** The tree stored for s is what the memo says. */
  ghost predicate Mirrors(vmap: map<Symbols, BinTree>, memo: Memo, s: Symbols) {
    && s in vmap && s in memo.table && vmap[s].path == s
    && (if 0 < memo.table[s] < |s| then
          && s[..memo.table[s]] in vmap && vmap[s].left == vmap[s[..memo.table[s]]]
          && s[memo.table[s]..] in vmap && vmap[s].right == vmap[s[memo.table[s]..]]
        else vmap[s].left == null && vmap[s].right == null)
  }

  ghost predicate Shown(vmap: map<Symbols, BinTree>, memo: Memo) {
    vmap.Keys == memo.table.Keys && forall s {:trigger Mirrors(vmap, memo, s)} :: s in vmap ==> Mirrors(vmap, memo, s)
  }

  lemma ShownKeys(vmap: map<Symbols, BinTree>, memo: Memo, s: Symbols)
    requires Shown(vmap, memo) && Closed(memo)
    ensures (s in vmap <==> s in memo.table) && (s in vmap ==> vmap[s].path == s) && (s in memo.used ==> s in vmap)
  {
    assert UsedOk(memo, s);
    assert s in vmap.Keys <==> s in memo.table.Keys;
    if s in vmap { assert Mirrors(vmap, memo, s); }
    if s in memo.used { var p :| ChildOf(memo.table, p, s); assert EntryOk(memo, p); }
  }

  lemma ShownLeaf(vmap: map<Symbols, BinTree>, memo: Memo, s: Symbols, b: BinTree)
    requires Shown(vmap, memo) && |s| == 1 && s !in vmap && b.path == s && b.left == null && b.right == null
    ensures Shown(vmap[s := b], WithLeaf(memo, s))
  {
    var vmap', memo' := vmap[s := b], WithLeaf(memo, s);
    assert vmap'.Keys == vmap.Keys + {s} && memo'.table.Keys == memo.table.Keys + {s};
    forall t | t in vmap' ensures Mirrors(vmap', memo', t) { assert t != s ==> Mirrors(vmap, memo, t); }
  }

  lemma ShownPair(vmap: map<Symbols, BinTree>, memo: Memo, s: Symbols, mid: int, b: BinTree)
    requires Shown(vmap, memo) && 0 < mid < |s| && s !in vmap && b.path == s
    requires s[..mid] in vmap && b.left == vmap[s[..mid]] && s[mid..] in vmap && b.right == vmap[s[mid..]]
    ensures Shown(vmap[s := b], WithPair(memo, s, mid))
  {
    var vmap', memo' := vmap[s := b], WithPair(memo, s, mid);
    assert vmap'.Keys == vmap.Keys + {s} && memo'.table.Keys == memo.table.Keys + {s};
    forall t | t in vmap' ensures Mirrors(vmap', memo', t) { assert t != s ==> Mirrors(vmap, memo, t); }
  }

  ghost predicate Extends(vmap: map<Symbols, BinTree>, vmap': map<Symbols, BinTree>) {
    forall s :: s in vmap ==> s in vmap' && vmap'[s] == vmap[s]
  }

  class Binarizer {
    var vmap: map<Symbols, BinTree>
    ghost var memo: Memo
    ghost var trees: set<BinTree>

    ghost predicate Marked(s: Symbols)
      reads this, trees
    {
      s in vmap && vmap[s] in trees && (vmap[s].used <==> s in memo.used)
    }

    ghost predicate Valid()
      reads this, trees
    {
      && Closed(memo) && Shown(vmap, memo)
      && (forall s {:trigger Marked(s)} :: s in vmap ==> Marked(s))
    }

    constructor ()
      ensures Valid() && memo == Memo(map[], {}) && fresh(trees)
    {
      vmap, memo, trees := map[], Memo(map[], {}), {};
      new;
      forall s ensures UsedOk(memo, s) { assert s !in memo.used; }
    }

    /** What one more tree does to the table. */
    method MakeLeaf(s: Symbols) returns (b: BinTree)
      requires Valid() && |s| == 1 && s !in vmap
      modifies this`vmap, this`memo, this`trees
      ensures Valid() && memo == WithLeaf(old(memo), s) && s in vmap && b == vmap[s]
      ensures fresh(trees - old(trees)) && old(trees) <= trees && Extends(old(vmap), vmap)
    {
      hide Closed, Shown;
      b := new BinTree(null, null, s);
      ShownKeys(vmap, memo, s);
      LeafKeeps(memo, s);
      ShownLeaf(vmap, memo, s, b);
      vmap := vmap[s := b];
      trees := trees + {b};
      memo := WithLeaf(memo, s);
      forall t | t in vmap ensures Marked(t) { assert t != s ==> old(Marked(t)); }
    }

    method JoinTrees(s: Symbols, ghost mid: int, left: BinTree, right: BinTree) returns (b: BinTree)
      requires Valid() && 0 < mid < |s| && s !in vmap
      requires s[..mid] in vmap && left == vmap[s[..mid]] && s[mid..] in vmap && right == vmap[s[mid..]]
      modifies this`vmap, this`memo, this`trees, trees
      ensures Valid() && memo == WithPair(old(memo), s, mid) && s in vmap && b == vmap[s]
      ensures fresh(trees - old(trees)) && old(trees) <= trees && Extends(old(vmap), vmap)
    {
      hide Closed, Shown;
      ShownKeys(vmap, memo, s);
      ShownKeys(vmap, memo, s[..mid]);
      ShownKeys(vmap, memo, s[mid..]);
      assert Marked(s[..mid]) && Marked(s[mid..]);
      b := new BinTree(left, right, s);
      PairKeeps(memo, s, mid);
      ShownPair(vmap, memo, s, mid, b);
      vmap := vmap[s := b];
      trees := trees + {b};
      b.left.used := true;
      b.right.used := true;
      memo := WithPair(memo, s, mid);
      forall t | t in vmap ensures Marked(t) {
        ShownKeys(old(vmap), old(memo), t);
        assert t != s ==> old(Marked(t));
      }
    }

    /** Looks from the right for a place where both halves of s are stored. */
    method Split(s: Symbols, mids: seq<int>) returns (k: nat, both: bool)
      requires Valid() && Places(s, mids)
      ensures k < |mids| && Chosen(memo.table, s, mids, mids[k]) && both == Both(memo.table, s, mids[k])
    {
      var n := |mids|;
      k, both := n - 1, false;
      var backup := false;
      while n > 0
        invariant n <= |mids| && !both && k < |mids|
        invariant forall j: nat {:trigger mids[j]} :: n <= j < |mids| ==> !Both(memo.table, s, mids[j])
        invariant backup ==> Either(memo.table, s, mids[k]) && n <= k
        invariant forall j: nat {:trigger mids[j]} :: n <= j < |mids| && (backup ==> k < j) ==> !Either(memo.table, s, mids[j])
        invariant !backup ==> k == |mids| - 1
      {
        n := n - 1;
        var p1, p2 := s[..mids[n]] in vmap.Keys, s[mids[n]..] in vmap.Keys;
        if p1 && p2 {
          k, both := n, true;
          return;
        } else if (p1 || p2) && !backup {
          backup, k := true, n;
        }
      }
    }

    /** The tree of s, stored now if it was not. */
    method NtBin(s: Symbols) returns (b: BinTree)
      requires Valid() && s != []
      modifies this`vmap, this`memo, this`trees, trees
      ensures Valid() && Grew(old(memo), memo, s) && s in vmap && b == vmap[s]
      ensures fresh(trees - old(trees)) && old(trees) <= trees && Extends(old(vmap), vmap)
      ensures s !in old(memo).table && |s| > 1 ==> Chosen(old(memo).table, s, Inside(|s|), memo.table[s])
      decreases |s|
    {
      hide Closed, Shown, Chosen, Grew;
      ShownKeys(vmap, memo, s);
      if s in vmap {
        GrewNot(memo, s);
        return vmap[s];
      }
      if |s| == 1 {
        GrewLeaf(memo, s);
        b := MakeLeaf(s);
        return;
      }
      var k, both := Split(s, Inside(|s|));
      var mid := Inside(|s|)[k];
      if both {
        GrewJoin(memo, s, mid);
        ShownKeys(vmap, memo, s[..mid]);
        ShownKeys(vmap, memo, s[mid..]);
        b := JoinTrees(s, mid, vmap[s[..mid]], vmap[s[mid..]]);
      } else {
        var left, right;
        ghost var memo0 := memo;
        if * {
          left := NtBin(s[..mid]);
          ghost var memo1 := memo;
          right := NtBin(s[mid..]);
          GrewHalves(memo0, memo1, memo, s[..mid], s[mid..], s, mid);
        } else {
          right := NtBin(s[mid..]);
          ghost var memo1 := memo;
          left := NtBin(s[..mid]);
          GrewHalves(memo0, memo1, memo, s[mid..], s[..mid], s, mid);
        }
        ShownKeys(vmap, memo, s);
        b := JoinTrees(s, mid, left, right);
      }
    }

    /** The same for the stretches lo..hi of s, splitting only between them. */
    method BinBin(s: Symbols, cuts: seq<int>, lo: nat, hi: nat) returns (b: BinTree)
      requires Valid() && Cut(s, cuts, |s|) && lo < hi < |cuts| && 0 <= cuts[lo] < cuts[hi] <= |s|
      modifies this`vmap, this`memo, this`trees, trees
      ensures Valid() && Grew(old(memo), memo, s[cuts[lo]..cuts[hi]])
      ensures s[cuts[lo]..cuts[hi]] in vmap && b == vmap[s[cuts[lo]..cuts[hi]]]
      ensures fresh(trees - old(trees)) && old(trees) <= trees && Extends(old(vmap), vmap)
      ensures s[cuts[lo]..cuts[hi]] !in old(memo).table && hi - lo > 1 ==>
                Places(s[cuts[lo]..cuts[hi]], Between(cuts, lo, hi))
                && Chosen(old(memo).table, s[cuts[lo]..cuts[hi]], Between(cuts, lo, hi), memo.table[s[cuts[lo]..cuts[hi]]])
      decreases hi - lo
    {
      hide Closed, Shown, Chosen, Grew, Cut, Places, Between;
      var irng := s[cuts[lo]..cuts[hi]];
      ShownKeys(vmap, memo, irng);
      if irng in vmap {
        GrewNot(memo, irng);
        return vmap[irng];
      }
      if hi - lo == 1 {
        b := NtBin(irng);
        return;
      }
      PlacesBetween(s, cuts, lo, hi);
      var k, both := Split(irng, Between(cuts, lo, hi));
      var m, mid := lo + 1 + k, Between(cuts, lo, hi)[k];
      BetweenAt(s, cuts, lo, hi, k);
      if both {
        GrewJoin(memo, irng, mid);
        ShownKeys(vmap, memo, irng[..mid]);
        ShownKeys(vmap, memo, irng[mid..]);
        b := JoinTrees(irng, mid, vmap[irng[..mid]], vmap[irng[mid..]]);
      } else {
        var left, right;
        ghost var memo0 := memo;
        if * {
          left := BinBin(s, cuts, lo, m);
          ghost var memo1 := memo;
          right := BinBin(s, cuts, m, hi);
          GrewHalves(memo0, memo1, memo, irng[..mid], irng[mid..], irng, mid);
        } else {
          right := BinBin(s, cuts, m, hi);
          ghost var memo1 := memo;
          left := BinBin(s, cuts, lo, m);
          GrewHalves(memo0, memo1, memo, irng[mid..], irng[..mid], irng, mid);
        }
        ShownKeys(vmap, memo, irng);
        b := JoinTrees(irng, mid, left, right);
      }
    }

    /** Divides a right-hand side into words and stretches of tags. */
    method LexNtRanges(s: Symbols) returns (cuts: seq<int>)
      ensures Cut(s, cuts, |s|)
    {
      cuts := [0];
      var itr := 0;
      while itr < |s|
        invariant Cut(s, cuts, itr) && itr <= |s|
        invariant 0 < itr < |s| && s[itr].Tag? ==> s[itr - 1].Word?
      {
        var jtr := itr;
        if s[itr].Word? {
          jtr := jtr + 1;
        } else {
          while jtr < |s| && !s[jtr].Word?
            invariant itr <= jtr <= |s| && forall k :: itr <= k < jtr ==> s[k].Tag?
          {
            jtr := jtr + 1;
          }
        }
        assert Stretch(s, itr, jtr);
        ghost var was := cuts;
        cuts := cuts + [jtr];
        assert forall k :: 0 <= k < |was| ==> cuts[k] == was[k];
        itr := jtr;
      }
    }

    /** The trees that an input rule's right-hand side becomes. */
    method Bin2(s: Symbols) returns (ret: seq<BinTree>)
      requires Valid() && s != []
      modifies this`vmap, this`memo, this`trees, trees
      ensures Valid() && Grew(old(memo), memo, s)
      ensures fresh(trees - old(trees)) && old(trees) <= trees && Extends(old(vmap), vmap)
      ensures LineOk(memo, RuleLine(s, Paths(ret)))
    {
      hide Closed, Shown, Grew, Cut;
      var cuts := LexNtRanges(s);
      CutsAll(s, cuts);
      var bptr := BinBin(s, cuts, 0, |cuts| - 1);
      assert s[cuts[0]..cuts[|cuts| - 1]] == s;
      Children(s);
      if bptr.left != null && bptr.right != null {
        ret := [bptr.left];
        bptr.left.used := true;
        ret := ret + [bptr.right];
        bptr.right.used := true;
      } else {
        ret := [bptr];
      }
    }

    /** The tree of s has its halves' trees as children, already marked. */
    lemma Children(s: Symbols)
      requires Valid() && s in vmap
      ensures var b := vmap[s];
              && EntryOk(memo, s) && b.path == s
              && (if |s| == 1 then b.left == null && b.right == null
                  else b.left != null && b.right != null && b.left in trees && b.right in trees && b.left.used && b.right.used
                       && b.left.path == s[..memo.table[s]] && b.right.path == s[memo.table[s]..])
    {
      ShownKeys(vmap, memo, s);
      assert EntryOk(memo, s) && Mirrors(vmap, memo, s);
      if |s| > 1 {
        Child(s, s[..memo.table[s]]);
        Child(s, s[memo.table[s]..]);
      }
    }

    lemma Child(p: Symbols, s: Symbols)
      requires Valid() && ChildOf(memo.table, p, s) && s in vmap
      ensures vmap[s] in trees && vmap[s].used && vmap[s].path == s
    {
      assert Marked(s) && UsedOk(memo, s);
      ShownKeys(vmap, memo, s);
    }

    /** A rule for each virtual symbol that is used. */
    method PrintVirtuals() returns (rules: seq<Virtual>)
      requires Valid()
      ensures IsGrammar(memo, rules)
    {
      hide Closed, Shown;
      rules := [];
      var rest := vmap.Keys;
      while rest != {}
        invariant rest <= vmap.Keys && IsPart(memo, rules, rest, vmap.Keys)
        decreases |rest|
      {
        var s :| s in rest;
        var b := vmap[s];
        Children(s);
        assert Marked(s);
        ShownKeys(vmap, memo, s);
        var more := rules;
        if b.left != null && b.right != null && b.used {
          more := rules + [Virtual(b.path, b.left.path, b.right.path)];
        }
        PartMore(memo, rules, rest, vmap.Keys, s, more);
        rules, rest := more, rest - {s};
      }
      forall s ensures Emits(memo, s) ==> s in vmap { ShownKeys(vmap, memo, s); }
    }

    /** Binarizes the right-hand sides one after the other, then puts out the
        rules for virtual symbols: each line derives exactly its right-hand
        side, and each virtual symbol that appears has exactly one rule. */
    method Run(rhss: seq<Symbols>) returns (lines: seq<RuleLine>, rules: seq<Virtual>)
      requires Valid() && memo == Memo(map[], {})
      requires forall n :: 0 <= n < |rhss| ==> rhss[n] != []
      modifies this`vmap, this`memo, this`trees, trees
      ensures |lines| == |rhss| && forall n :: 0 <= n < |rhss| ==> lines[n].rhs == rhss[n]
      ensures forall n: nat, w {:trigger LineDerives(rules, lines[n], w)} :: n < |lines| ==>
                (LineDerives(rules, lines[n], w) <==> w == rhss[n])
      ensures forall s {:trigger HasRule(rules, s)} :: HasRule(rules, s) <==> Appears(lines, rules, s)
      ensures forall a, b :: 0 <= a < b < |rules| ==> rules[a].s != rules[b].s
    {
      hide Closed, Shown, Grew, LineOk, LineDerives, Appears, Owned;
      lines := [];
      var n := 0;
      while n < |rhss|
        invariant n == |lines| <= |rhss| && Valid() && LinesOk(memo, lines) && AllOwned(memo, lines)
        invariant fresh(trees - old(trees)) && old(trees) <= trees
        invariant forall k :: 0 <= k < n ==> lines[k].rhs == rhss[k]
      {
        ghost var memo0 := memo;
        var parts := Bin2(rhss[n]);
        LinesMore(memo0, memo, lines, RuleLine(rhss[n], Paths(parts)));
        lines := lines + [RuleLine(rhss[n], Paths(parts))];
        n := n + 1;
      }
      rules := PrintVirtuals();
      forall k: nat, w | k < |lines| ensures LineDerives(rules, lines[k], w) <==> w == rhss[k] {
        LinesDerive(memo, lines, rules, k, w);
      }
      forall s ensures HasRule(rules, s) <==> Appears(lines, rules, s) { RulesAreNeeded(memo, lines, rules, s); }
    }
  }

  function Paths(trees: seq<BinTree>): (r: seq<Symbols>)
    ensures |r| == |trees| && forall k :: 0 <= k < |r| ==> r[k] == trees[k].path
  {
    seq(|trees|, k requires 0 <= k < |trees| => trees[k].path)
  }

  /** All but the sequences in `rest` have been visited. */
  ghost predicate IsPart(memo: Memo, rules: seq<Virtual>, rest: set<Symbols>, all: set<Symbols>) {
    && (forall a {:trigger rules[a]} :: 0 <= a < |rules| ==> RuleOk(memo, rules[a]) && rules[a].s !in rest)
    && (forall a, b :: 0 <= a < b < |rules| ==> rules[a].s != rules[b].s)
    && (forall s :: Emits(memo, s) && s in all - rest ==> HasRule(rules, s))
  }

  lemma PartMore(memo: Memo, rules: seq<Virtual>, rest: set<Symbols>, all: set<Symbols>, s: Symbols, more: seq<Virtual>)
    requires IsPart(memo, rules, rest, all) && s in rest
    requires if Emits(memo, s) then |more| == |rules| + 1 && more[..|rules|] == rules && more[|rules|].s == s && RuleOk(memo, more[|rules|])
             else more == rules
    ensures IsPart(memo, more, rest - {s}, all)
  {
    forall a | 0 <= a < |more| ensures RuleOk(memo, more[a]) && more[a].s !in rest - {s} && (a < |rules| ==> more[a].s != s) {
      if a < |rules| { assert more[a] == more[..|rules|][a] == rules[a]; }
    }
    forall a, b | 0 <= a < b < |more| ensures more[a].s != more[b].s {
      if b < |rules| { assert more[a] == more[..|rules|][a] && more[b] == more[..|rules|][b]; }
    }
    forall t | Emits(memo, t) && t in all - (rest - {s}) ensures HasRule(more, t) {
      if t == s {
        assert more[|rules|].s == s;
      } else {
        assert HasRule(rules, t);
        var a :| 0 <= a < |rules| && rules[a].s == t;
        assert more[..|rules|][a] == rules[a] || more == rules;
        assert more[a].s == t;
      }
    }
  }

  lemma CutsAll(s: Symbols, cuts: seq<int>)
    requires Cut(s, cuts, |s|) && s != []
    ensures |cuts| > 1 && cuts[0] == 0 && cuts[|cuts| - 1] == |s|
  {
  }

  /** All places inside a sequence of length n. */
  function Inside(n: nat): (r: seq<int>)
    requires n > 1
    ensures |r| == n - 1 && forall k :: 0 <= k < |r| ==> r[k] == k + 1
  {
    seq(n - 1, k => k + 1)
  }

  /** The places between the stretches lo..hi, counted from the first. */
  function Between(cuts: seq<int>, lo: nat, hi: nat): (r: seq<int>)
    requires lo + 1 < hi < |cuts|
    ensures |r| == hi - lo - 1 && forall k :: 0 <= k < |r| ==> r[k] == cuts[lo + 1 + k] - cuts[lo]
  {
    seq(hi - lo - 1, k requires 0 <= k < hi - lo - 1 => cuts[lo + 1 + k] - cuts[lo])
  }

  lemma PlacesBetween(s: Symbols, cuts: seq<int>, lo: nat, hi: nat)
    requires Cut(s, cuts, |s|) && lo + 1 < hi < |cuts| && 0 <= cuts[lo] < cuts[hi] <= |s|
    ensures Places(s[cuts[lo]..cuts[hi]], Between(cuts, lo, hi))
  {
    hide Cut;
    var mids := Between(cuts, lo, hi);
    forall k | 0 <= k < |mids| ensures 0 < mids[k] < cuts[hi] - cuts[lo] {
      CutsRise(s, cuts, |s|, lo, lo + 1 + k);
      CutsRise(s, cuts, |s|, lo + 1 + k, hi);
    }
    forall j, k | 0 <= j < k < |mids| ensures mids[j] < mids[k] { CutsRise(s, cuts, |s|, lo + 1 + j, lo + 1 + k); }
  }

  lemma BetweenAt(s: Symbols, cuts: seq<int>, lo: nat, hi: nat, k: nat)
    requires Cut(s, cuts, |s|) && lo + 1 < hi < |cuts| && 0 <= cuts[lo] < cuts[hi] <= |s| && k < hi - lo - 1
    ensures var m, mid := lo + 1 + k, Between(cuts, lo, hi)[k];
            var irng := s[cuts[lo]..cuts[hi]];
            && 0 <= cuts[lo] < cuts[m] < cuts[hi] <= |s| && 0 < mid < |irng|
            && irng[..mid] == s[cuts[lo]..cuts[m]] && irng[mid..] == s[cuts[m]..cuts[hi]]
  {
    CutsRise(s, cuts, |s|, lo, lo + 1 + k);
    CutsRise(s, cuts, |s|, lo + 1 + k, hi);
  }
}
