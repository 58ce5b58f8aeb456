/** The ITG binarizer: a shift-reduce parser over the rule's permutation and a
    post-order emitter that turns the parsed rule into binary rules. */
module ItgBinarizer {
  import opened ItgTrees
  import opened ItgRules
  import opened ItgNodes
  import opened ItgEmit
  import opened ItgVisit

  import opened Wrappers

  class Binarizer {
    // the rule being binarized
    var xrs: Rule
    var coveredMask: seq<bool>
    // parser
    var nodes: NodeTable
    var stck: seq<int>
    var top: nat
    /** The trees that the stack entries stand for. */
    ghost var trees: Stack<Tree>
    // emitter
    var rhsptr: nat
    var prevLeaf: Option<nat>
    var vRules: int
    // output, shared by all rules
    var vrulTbl: Table
    var topRules: seq<VRule>
    var bin: nat
    var nonbin: nat
    /** The rules binarized so far. */
    ghost var done: seq<Rule>

    /** No virtual rule is stored twice, and every top rule written so far
        still expands to the rule it was made from. */
    ghost predicate Valid()
      reads this
    {
      && |topRules| == |done|
      && (forall k :: 0 <= k < |done| ==> Restores(vrulTbl, topRules[k], done[k]))
    }

    constructor ()
      ensures Valid() && done == [] && topRules == [] && vrulTbl == [] && bin == nonbin == 0
    {
      xrs := Xrs([], [], ["w"], [], []);
      coveredMask, nodes, stck, top, trees := [], [], [], 0, Empty;
      rhsptr, prevLeaf, vRules := 0, None, 0;
      vrulTbl, topRules, bin, nonbin, done := [], [], 0, 0, [];
    }

    // ----- parser

    /** The stack stands for the ghost trees and covers the whole table. */
    ghost predicate Parsing()
      reads `nodes, `stck, `top, `trees
    {
      && Stacked(nodes, stck, top, trees) && top <= |stck| && LastRow(stck, top) == |nodes| - 1
      && Untouched(nodes, 0, |nodes|)
    }

    /** Combine the two top entries for as long as they are contiguous. */
    method Combine()
      requires Parsing() && trees.Push?
      modifies `nodes, `stck, `top, `trees
      ensures Parsing() && |stck| == old(|stck|)
      ensures trees == SettleTrees(old(trees.below), old(trees.top))
    {
      var can := true;
      while top > 1 && can
        invariant Parsing() && trees.Push? && |stck| == old(|stck|)
        invariant SettleTrees(trees.below, trees.top) == SettleTrees(old(trees.below), old(trees.top))
        invariant !can ==> SettleTrees(trees.below, trees.top) == trees
        decreases top, can
      {
        TopPair(nodes, stck, top, trees);
        var aidx, bidx := stck[top - 2], stck[top - 1];
        var na, nb := nodes[aidx], nodes[bidx];
        if na.right == nb.left - 1 || na.left == nb.right + 1 {
          var nd := if na.right == nb.left - 1 then NewNode(na.left, nb.right, aidx, bidx, 1, true)
                    else NewNode(nb.left, na.right, aidx, bidx, 2, true);
          PushPair(nodes, stck, top, trees, nd);
          trees := Push(trees.below.below, Pair(trees.below.top, trees.top));
          nodes, stck, top := nodes + [nd], stck[top - 2 := |nodes|], top - 1;
        } else {
          can := false;
        }
      }
      RowCount(nodes, stck, top, trees);
    }

    /** Push a leaf for one value of the permutation, then combine. */
    method Shift(v: int)
      requires Parsing() && top < |stck|
      modifies `nodes, `stck, `top, `trees
      ensures Parsing() && |stck| == old(|stck|)
      ensures trees == SettleTrees(old(trees), Leaf(v))
    {
      var nd := NewNode(v, v, -1, -1, 3, false);
      PushLeaf(nodes, stck, top, trees, nd);
      trees := Push(trees, Leaf(v));
      nodes, stck, top := nodes + [nd], stck[top := |nodes|], top + 1;
      Combine();
    }

    /** Shift every value of the permutation. */
    method Parse(a: seq<int>)
      modifies `nodes, `stck, `top, `trees
      ensures Parsing() && trees == RunTrees(a, Empty)
      ensures top == Height(trees) && |nodes| == 2 * |a| - top
    {
      stck := seq(|a|, _ => 0);
      nodes, top, trees := [], 0, Empty;
      for i := 0 to |a|
        invariant |stck| == |a| && Parsing() && trees == RunTrees(a[..i], Empty)
      {
        PrefixRun(a, i);
        RowCount(nodes, stck, top, trees);
        Shift(a[i]);
      }
      assert a[..|a|] == a;
      FinalRowCount(nodes, stck, top, trees, a);
    }

    // ----- rule tables

    /** Look the virtual rule up in the table, adding it if it is new. */
    method VRulConstruct(r: VRule) returns (sym: Sym)
      requires KnownRule(vrulTbl, r)
      modifies `vrulTbl, `vRules
      ensures old(vrulTbl) <= vrulTbl
      ensures sym.Vt? && sym.id < |vrulTbl| && vrulTbl[sym.id] == r
      ensures vRules == old(vRules) + 1
    {
      vRules := vRules + 1;
      for i := 0 to |vrulTbl|
        invariant forall k :: 0 <= k < i ==> vrulTbl[k] != r
        invariant vrulTbl == old(vrulTbl)
      {
        if vrulTbl[i] == r {
          return Vt(i);
        }
      }
      ghost var t := vrulTbl + [r];
      assert NoRepeats(t) by {
        forall i, j | 0 <= i < j < |t| ensures RowsDiffer(t, i, j) {
          assert j < |vrulTbl| ==> RowsDiffer(vrulTbl, i, j);
        }
      }
      sym := Vt(|vrulTbl|);
      vrulTbl := vrulTbl + [r];
    }

    /** Write a top rule. */
    method RRulConstruct(r: VRule)
      requires KnownRule(vrulTbl, r)
      modifies `topRules
      ensures topRules == old(topRules) + [r]
    {
      topRules := topRules + [r];
    }

    // ----- emitter

    /** What the emitter has changed so far. */
    ghost function Now(): Work
      reads this
    {
      Work(nodes, coveredMask, rhsptr, prevLeaf, vRules, vrulTbl, topRules)
    }

    /** Join the words left of the current variable to it, nearest first, as
        far as the number of remaining virtual rules allows. */
    method AssociateLeft(label0: Sym, lft: int, remain0: int) returns (last: Sym, lftIdx: int)
      requires rhsptr < |xrs.rhsIdx| && lft == CLo(xrs, rhsptr)
      requires Associated(xrs, vrulTbl, label0, rhsptr, xrs.rhsIdx[rhsptr], xrs.rhsIdx[rhsptr] + 1)
      modifies `vrulTbl, `vRules
      ensures old(vrulTbl) <= vrulTbl
      ensures lft - 1 <= lftIdx < xrs.rhsIdx[rhsptr]
      ensures Associated(xrs, vrulTbl, last, rhsptr, lftIdx + 1, xrs.rhsIdx[rhsptr] + 1)
      ensures vRules == old(vRules) + xrs.rhsIdx[rhsptr] - 1 - lftIdx
      ensures if vRules == old(vRules) then last == label0 else last.Vt? && vRules - old(vRules) <= remain0
      ensures lftIdx == lft - 1 || vRules - old(vRules) >= remain0
    {
      hide SymSource, SymTarget, Vars, SourceCut, CHi, CLo;
      var x, p := xrs, rhsptr;
      LeafSegment(x, p);
      last, lftIdx := label0, x.rhsIdx[p] - 1;
      var remain := remain0;
      while remain > 0 && lftIdx >= lft
        invariant lft - 1 <= lftIdx < x.rhsIdx[p]
        invariant old(vrulTbl) <= vrulTbl
        invariant Associated(x, vrulTbl, last, p, lftIdx + 1, x.rhsIdx[p] + 1)
        invariant vRules == old(vRules) + x.rhsIdx[p] - 1 - lftIdx && remain == remain0 - (x.rhsIdx[p] - 1 - lftIdx)
        invariant if lftIdx == x.rhsIdx[p] - 1 then last == label0 else last.Vt? && remain >= 0
      {
        ghost var tbl := vrulTbl;
        var sym := VRulConstruct(WordRule(x, last, lftIdx, true));
        AssociatedLeft(x, tbl, vrulTbl, last, sym.id, p, lftIdx + 1, x.rhsIdx[p] + 1);
        last, remain, lftIdx := sym, remain - 1, lftIdx - 1;
      }
    }

    /** Join the words right of the current variable. */
    method AssociateRight(last0: Sym, ghost from: int, rht: int, remain0: int) returns (last: Sym, rhtIdx: int)
      requires rhsptr < |xrs.rhsIdx| && rht == CHi(xrs, rhsptr) - 1
      requires Associated(xrs, vrulTbl, last0, rhsptr, from, xrs.rhsIdx[rhsptr] + 1)
      modifies `vrulTbl, `vRules
      ensures old(vrulTbl) <= vrulTbl
      ensures xrs.rhsIdx[rhsptr] < rhtIdx <= rht + 1
      ensures Associated(xrs, vrulTbl, last, rhsptr, from, rhtIdx)
      ensures vRules == old(vRules) + rhtIdx - xrs.rhsIdx[rhsptr] - 1
      ensures if vRules == old(vRules) then last == last0 else last.Vt? && vRules - old(vRules) <= remain0
      ensures rhtIdx == rht + 1 || vRules - old(vRules) >= remain0
    {
      hide SymSource, SymTarget, Vars, SourceCut, CHi, CLo;
      var x, p := xrs, rhsptr;
      LeafSegment(x, p);
      last, rhtIdx := last0, x.rhsIdx[p] + 1;
      var remain := remain0;
      while remain > 0 && rhtIdx <= rht
        invariant x.rhsIdx[p] < rhtIdx <= rht + 1
        invariant old(vrulTbl) <= vrulTbl
        invariant Associated(x, vrulTbl, last, p, from, rhtIdx)
        invariant vRules == old(vRules) + rhtIdx - x.rhsIdx[p] - 1 && remain == remain0 - (rhtIdx - x.rhsIdx[p] - 1)
        invariant if rhtIdx == x.rhsIdx[p] + 1 then last == last0 else last.Vt? && remain >= 0
      {
        ghost var tbl := vrulTbl;
        var sym := VRulConstruct(WordRule(x, last, rhtIdx, false));
        AssociatedRight(x, tbl, vrulTbl, last, sym.id, p, from, rhtIdx);
        last, remain, rhtIdx := sym, remain - 1, rhtIdx + 1;
      }
    }

    /** A node's contribution to its parent's target string. */
    method LmVector(nd: Node, ord: nat) returns (lm: seq<LmSym>)
      requires Placed(xrs, nd)
      ensures lm == NodeLm(xrs, nd, ord)
    {
      if !IsLeaf(nd) {
        return [Ix(ord)];
      }
      lm := [];
      for i := nd.eLeft to nd.eRight + 1
        invariant |lm| == i - nd.eLeft
        invariant forall k :: 0 <= k < |lm| ==> lm[k] == LeafSym(xrs, nd.left, nd.eLeft + k, ord)
      {
        if i != Anchor(xrs, nd.left - 1) {
          lm := lm + [Ew(xrs.lhs[i])];
        } else {
          lm := lm + [Ix(ord)];
        }
      }
    }

    /** The top rule of a rule with one variable. At most one word is left. */
    method OneVariableRule(nd: Node, lft: int, rht: int, lftIdx: int, rhtIdx: int)
      requires |xrs.alignment| == 1 && lft == 0 && rht == |xrs.rhs| - 1 && nd.left == nd.right == 1
      requires -1 <= lftIdx < xrs.rhsIdx[0] < rhtIdx <= |xrs.rhs|
      requires Associated(xrs, vrulTbl, nd.sym, 0, lftIdx + 1, rhtIdx)
      requires nd.virt == nd.sym.Vt? && (nd.sym.Rt? ==> nd.sym == Rt(xrs.lhs[Anchor(xrs, nd.left - 1)]))
      requires rhtIdx - lftIdx - 2 == (if |xrs.rhs| >= 2 then |xrs.rhs| - 2 else 0)
      requires lftIdx >= 0 ==> rhtIdx == xrs.rhsIdx[0] + 1
      modifies `topRules
      ensures |topRules| == |old(topRules)| + 1 && topRules[..|old(topRules)|] == old(topRules)
      ensures Restores(vrulTbl, topRules[|old(topRules)|], xrs)
    {
      hide SymSource, SymTarget, RuleSource, RuleTarget, Vars, ExpandLm, SourceSide, TargetSide, LeafLm, Restores;
      var moved := nd.(eLeft := 0, eRight := |xrs.lhs| - 1);
      var lm := LmVector(moved, 0);
      var kid := if nd.virt then nd.sym else Rt(xrs.lhs[Anchor(xrs, nd.left - 1)]);
      var r;
      if lftIdx == lft {
        r := VRule(Cw(xrs.rhs[lftIdx]), kid, lm, false);
      } else if rhtIdx == rht {
        r := VRule(kid, Cw(xrs.rhs[rhtIdx]), lm, false);
      } else {
        r := VRule(kid, Nu, lm, false);
      }
      OneVariableRestores(xrs, vrulTbl, nd.sym, lftIdx + 1, rhtIdx, r);
      RRulConstruct(r);
    }

    /** Join the words around the current variable to it, left before right. */
    method JoinWords(label0: Sym, lft: int, rht: int) returns (last: Sym, lftIdx: int, rhtIdx: int)
      requires rhsptr < |xrs.rhsIdx| && lft == CLo(xrs, rhsptr) && rht == CHi(xrs, rhsptr) - 1
      requires label0 == Rt(xrs.rhs[xrs.rhsIdx[rhsptr]])
      modifies `vRules, `vrulTbl
      ensures old(vrulTbl) <= vrulTbl
      ensures lft - 1 <= lftIdx < xrs.rhsIdx[rhsptr] < rhtIdx <= rht + 1
      ensures Associated(xrs, vrulTbl, last, rhsptr, lftIdx + 1, rhtIdx) && (last.Rt? ==> last == label0)
      ensures vRules == old(vRules) + rhtIdx - lftIdx - 2
      ensures |xrs.alignment| > 1 ==> lftIdx == lft - 1 && rhtIdx == rht + 1
      ensures |xrs.alignment| == 1 ==> rhtIdx - lftIdx - 2 == if |xrs.rhs| >= 2 then |xrs.rhs| - 2 else 0
      ensures lftIdx >= lft ==> rhtIdx == xrs.rhsIdx[rhsptr] + 1
    {
      LeafSegment(xrs, rhsptr);
      AssociatedBare(xrs, vrulTbl, rhsptr);
      var remain := |xrs.rhs| - 2;
      last, lftIdx := AssociateLeft(label0, lft, remain);
      remain := remain - (xrs.rhsIdx[rhsptr] - 1 - lftIdx);
      last, rhtIdx := AssociateRight(last, lftIdx + 1, rht, remain);
    }

    /** Join the words of the leaf's own segment to its variable. */
    method ReadLeaf(ix: nat) returns (lft: int, rht: int, lftIdx: int, rhtIdx: int)
      requires ix < |nodes| && IsLeaf(nodes[ix]) && nodes[ix].tag == 3 && !nodes[ix].virt
      requires rhsptr < |xrs.rhsIdx| && StandsAt(xrs, Now(), rhsptr) && xrs.alignment[rhsptr] == nodes[ix].left
      modifies `nodes, `rhsptr, `prevLeaf, `vRules, `vrulTbl
      ensures old(vrulTbl) <= vrulTbl && OnlyRows(old(nodes), nodes, {ix}) && rhsptr == old(rhsptr) + 1
      ensures StandsAt(xrs, Now(), rhsptr)
      ensures lft == CLo(xrs, old(rhsptr)) && rht == CHi(xrs, old(rhsptr)) - 1
      ensures lft - 1 <= lftIdx < xrs.rhsIdx[old(rhsptr)] < rhtIdx <= rht + 1
      ensures Associated(xrs, vrulTbl, nodes[ix].sym, old(rhsptr), lftIdx + 1, rhtIdx)
      ensures nodes[ix].virt == nodes[ix].sym.Vt?
      ensures nodes[ix].sym.Rt? ==> nodes[ix].sym == Rt(xrs.lhs[Anchor(xrs, nodes[ix].left - 1)])
      ensures vRules == old(vRules) + rhtIdx - lftIdx - 2
      ensures |xrs.alignment| > 1 ==> lftIdx == lft - 1 && rhtIdx == rht + 1
      ensures |xrs.alignment| == 1 ==> rhtIdx - lftIdx - 2 == if |xrs.rhs| >= 2 then |xrs.rhs| - 2 else 0
      ensures lftIdx >= lft ==> rhtIdx == xrs.rhsIdx[old(rhsptr)] + 1
    {
      hide SymSource, SymTarget, Vars, SourceCut;
      lft := if prevLeaf.Some? then nodes[prevLeaf.value].cRight + 1 else 0;
      if rhsptr > 0 { LeafSegment(xrs, rhsptr - 1); }
      rht := (if rhsptr < |xrs.rhsIdx| - 1 then xrs.rhsIdx[rhsptr + 1] else |xrs.rhs|) - 1;
      var last;
      last, lftIdx, rhtIdx := JoinWords(Rt(xrs.lhs[Anchor(xrs, nodes[ix].left - 1)]), lft, rht);
      var nd := nodes[ix].(cLeft := lft, cRight := rht, sym := last, virt := last.Vt?);
      UpdateRow(nodes, ix, nd);
      nodes := nodes[ix := nd];
      rhsptr := rhsptr + 1;
      prevLeaf := Some(ix);
    }

    /** A leaf: join the words around its variable to it. For a rule with one
        variable this also writes the top rule. */
    method UniBin(ix: nat, ghost root: int)
      requires Ready(xrs, root, Now(), ix) && nodes[ix].tag == 3
      modifies `nodes, `rhsptr, `prevLeaf, `vRules, `vrulTbl, `topRules
      ensures Framed(xrs, root, old(Now()), Now(), ix) && Produced(xrs, root, old(Now()), Now(), ix)
    {
      hide SymSource, SymTarget, RuleSource, RuleTarget, Vars, SourceSide, TargetSide, SourceCut, TargetCut, Restores;
      hide Uncovered, Framed, Produced, CLo, CHi;
      assert ShapeAt(nodes, ix);
      var lft, rht, lftIdx, rhtIdx := ReadLeaf(ix);
      if |xrs.rhsIdx| == 1 {
        WholeBlock(xrs);
        OneVariableRule(nodes[ix], lft, rht, lftIdx, rhtIdx);
      }
      LeafVisited(xrs, root, old(Now()), Now(), ix);
    }

    /** Give the leaves among two children their target intervals and mark
        their anchors, low child first. */
    method PlaceChildren(lo: nat, hi: nat)
      requires lo < |nodes| && hi < |nodes| && lo != hi && |coveredMask| == |xrs.lhs|
      requires Neighbours(xrs, nodes[lo], nodes[hi])
      modifies `nodes, `coveredMask
      ensures OnlyRows(old(nodes), nodes, {lo, hi}) && SameBounds(old(nodes), nodes)
      ensures nodes[lo] == PlaceLow(xrs, old(nodes[lo]), old(nodes[hi]), old(coveredMask))
      ensures nodes[hi] == PlaceHigh(xrs, old(nodes[hi]), Mark(xrs, old(nodes[lo]), old(coveredMask)))
      ensures coveredMask == Mark(xrs, old(nodes[hi]), Mark(xrs, old(nodes[lo]), old(coveredMask)))
    {
      var low, high := nodes[lo], nodes[hi];
      if IsLeaf(low) {
        var (l, r) := LowInterval(xrs, low, high, coveredMask);
        UpdateRow(nodes, lo, low.(eLeft := l, eRight := r));
        nodes := nodes[lo := low.(eLeft := l, eRight := r)];
        coveredMask := coveredMask[Anchor(xrs, low.left - 1) := true];
      }
      if IsLeaf(high) {
        var (l, r) := HighInterval(xrs, high, coveredMask);
        UpdateRow(nodes, hi, high.(eLeft := l, eRight := r));
        nodes := nodes[hi := high.(eLeft := l, eRight := r)];
        coveredMask := coveredMask[Anchor(xrs, high.left - 1) := true];
      }
    }

    /** The rule of a binary row whose children have been placed. */
    method MakePairRule(l: Node, r: Node, inverted: bool) returns (v: VRule)
      requires Placed(xrs, l) && Placed(xrs, r)
      ensures v == PairRule(xrs, l, r, inverted)
    {
      if inverted {
        var lm := LmVector(r, 1);
        var more := LmVector(l, 0);
        v := VRule(l.sym, r.sym, lm + more, true);
      } else {
        var lm := LmVector(l, 0);
        var more := LmVector(r, 1);
        v := VRule(l.sym, r.sym, lm + more, false);
      }
    }

    /** Write the rule of an inner row, as a top rule if the row is the root
        and as a virtual rule otherwise. */
    method FinishPair(index: nat, v: VRule, eLeft: int, eRight: int, ghost p: int, ghost m0: seq<bool>)
      requires index < |nodes| && stck != [] && nodes[index].virt && !IsLeaf(nodes[index]) && nodes[index].tag != 3
      requires ItgEmit.Spans(xrs, vrulTbl, v, nodes[index].left, nodes[index].right, p, m0)
      requires MaskAfter(xrs, m0, coveredMask, nodes[index].left, nodes[index].right)
      requires 0 <= eLeft <= eRight + 1 <= |xrs.lhs|
      requires eLeft == ELo(xrs, nodes[index].left, m0) && eRight == EHi(xrs, nodes[index].right, m0)
      requires index == stck[0] ==> p == 0 && nodes[index].left == 1 && nodes[index].right == |xrs.alignment|
      modifies `nodes, `vRules, `vrulTbl, `topRules
      ensures Finished(xrs, stck[0], old(Now()), Now(), index, p, m0)
    {
      hide RuleSource, RuleTarget, Vars, SourceCut, TargetCut, ELo, EHi, CLo, CHi, Emitted, NodeDone, MaskAfter;
      var nd := nodes[index].(eLeft := eLeft, eRight := eRight);
      if index == stck[0] {
        SpansAll(xrs, vrulTbl, v, m0);
        RRulConstruct(v);
      } else {
        ghost var tbl := vrulTbl;
        var sym := VRulConstruct(v);
        nd := nd.(sym := sym);
        SpansRow(xrs, tbl, vrulTbl, v, sym.id, nd, p, m0);
        RowDone(xrs, vrulTbl, nd, p, m0, coveredMask);
      }
      UpdateRow(nodes, index, nd);
      nodes := nodes[index := nd];
    }

    /** An inner row: place its children, then write its rule. */
    method BinBin(index: nat, ghost p: int, ghost m0: seq<bool>, ghost m1: seq<bool>)
      requires Family(nodes, index) && stck != [] && nodes[index].virt && |coveredMask| == |xrs.lhs|
      requires ChildrenDone(xrs, vrulTbl, nodes[nodes[index].leftChild], nodes[nodes[index].rightChild], p, m0, m1, coveredMask)
      requires index == stck[0] ==> p == 0 && nodes[index].left == 1 && nodes[index].right == |xrs.alignment|
      modifies `nodes, `coveredMask, `vRules, `vrulTbl, `topRules
      ensures PairVisited(xrs, stck[0], old(Now()), Now(), index, p, m0)
    {
      hide SymSource, SymTarget, RuleSource, RuleTarget, Vars, ExpandLm, SourceSide, TargetSide, NodeLm, Mark, SourceCut, TargetCut;
      hide ELo, EHi, CLo, CHi, PlaceLow, PlaceHigh, Placed, Emitted, Covered, NodeDone, MaskAfter, Finished, PairVisited, PairRule, ItgEmit.Spans;
      var nd := nodes[index];
      var lc, rc := nd.leftChild, nd.rightChild;
      ghost var l0, r0, mask0 := nodes[lc], nodes[rc], coveredMask;
      if nd.tag == 1 {
        PlaceChildren(lc, rc);
        StraightReady(xrs, vrulTbl, l0, r0, p, m0, m1, mask0, nodes[lc], nodes[rc]);
      } else {
        PlaceChildren(rc, lc);
        InvertedReady(xrs, vrulTbl, l0, r0, p, m0, m1, mask0, nodes[lc], nodes[rc]);
      }
      var l, r := nodes[lc], nodes[rc];
      var v := MakePairRule(l, r, nd.tag == 2);
      ghost var w1 := Now();
      if nd.tag == 1 {
        FinishPair(index, v, l.eLeft, r.eRight, p, m0);
      } else {
        FinishPair(index, v, r.eLeft, l.eRight, p, m0);
      }
      PlacedAndFinished(xrs, stck[0], old(Now()), w1, Now(), index, p, m0);
    }

    /** Visit the subtree at row `index` in post-order, emitting its rules. */
    method Output(index: nat)
      requires stck != [] && Ready(xrs, stck[0], Now(), index)
      modifies `nodes, `coveredMask, `rhsptr, `prevLeaf, `vRules, `vrulTbl, `topRules
      ensures Framed(xrs, stck[0], old(Now()), Now(), index)
      ensures Produced(xrs, stck[0], old(Now()), Now(), index)
      decreases index
    {
      hide Ready, Framed, Produced, PairVisited, ChildrenDone, ReadsTree;
      ghost var w0 := Now();
      ReadyRow(xrs, stck[0], w0, index);
      if nodes[index].tag == 3 {
        UniBin(index, stck[0]);
      } else {
        LeftReady(xrs, stck[0], w0, index);
        var lc, rc := nodes[index].leftChild, nodes[index].rightChild;
        Output(lc);
        ghost var w1 := Now();
        RightReady(xrs, stck[0], w0, w1, index);
        Output(rc);
        ghost var w2 := Now();
        PairIsReady(xrs, stck[0], w0, w1, w2, index);
        BinBin(index, w0.rhsptr, w0.mask, w1.mask);
        FramesCompose(xrs, stck[0], w0, w1, w2, Now(), index);
        VisitsCompose(xrs, stck[0], w0, w1, w2, Now(), index);
      }
    }

    /** All target words, for a rule without variables. */
    method LmWords() returns (lm: seq<LmSym>)
      ensures lm == AllWords(xrs, 0)
    {
      lm := [];
      for i := 0 to |xrs.lhs|
        invariant |lm| == i && forall k :: 0 <= k < i ==> lm[k] == Ew(xrs.lhs[k])
      {
        lm := lm + [Ew(xrs.lhs[i])];
      }
    }

    /** A rule without variables: join the source words from left to right, the
        first pair carrying all target words. */
    method LexBin()
      requires xrs.alignment == []
      modifies `vRules, `vrulTbl, `topRules
      ensures old(vrulTbl) <= vrulTbl && Wrote(xrs, old(Now()), Now())
      ensures vRules == old(vRules) + (if |xrs.rhs| >= 2 then |xrs.rhs| - 2 else 0)
    {
      hide SymSource, SymTarget, RuleSource, RuleTarget, Vars, TargetSide, SourceCut;
      var words := LmWords();
      LexicalStart(xrs, vrulTbl);
      if |xrs.rhs| == 1 {
        OneWordRestores(xrs, vrulTbl);
        RRulConstruct(VRule(Cw(xrs.rhs[0]), Nu, words, false));
        return;
      }
      var last := Cw(xrs.rhs[0]);
      for i := 1 to |xrs.rhs| - 1
        invariant old(vrulTbl) <= vrulTbl && Lexical(xrs, vrulTbl, last, i)
        invariant vRules == old(vRules) + i - 1 && topRules == old(topRules)
      {
        ghost var tbl := vrulTbl;
        var r := VRule(last, Cw(xrs.rhs[i]), if i == 1 then words else [Ix(0)], false);
        var sym := VRulConstruct(r);
        LexicalStep(xrs, tbl, vrulTbl, last, sym.id, i);
        last := sym;
      }
      LexRuleExpands(xrs, vrulTbl, last, |xrs.rhs| - 1);
      var r := VRule(last, Cw(xrs.rhs[|xrs.rhs| - 1]), if last.Cw? then words else [Ix(0)], false);
      assert r == LexRule(xrs, last, |xrs.rhs| - 1);
      RRulConstruct(r);
    }

    /** Emit the rules of a parsed rule. */
    method Emit()
      requires top <= 1 && Parsing() && trees == RunTrees(xrs.alignment, Empty) && top == Height(trees)
      requires xrs.alignment != [] ==> top == 1
      requires coveredMask == seq(|xrs.lhs|, _ => false) && rhsptr == 0 && prevLeaf == None
      modifies `nodes, `coveredMask, `rhsptr, `prevLeaf, `vRules, `vrulTbl, `topRules
      ensures old(vrulTbl) <= vrulTbl && |nodes| == |old(nodes)| && Wrote(xrs, old(Now()), Now())
      ensures vRules == old(vRules) + (if |xrs.rhs| >= 2 then |xrs.rhs| - 2 else 0)
    {
      hide Restores, StandsAt, Ready, NodeDone, RunTrees;
      if top == 1 {
        ParseHeight(xrs.alignment);
        RootReady(xrs, Now(), stck, trees);
        Output(stck[0]);
      } else {
        LexBin();
      }
    }

    /** Parse the rule's permutation and, if it is binarizable, emit. */
    method Bracketing()
      requires coveredMask == seq(|xrs.lhs|, _ => false)
      modifies `nodes, `stck, `top, `trees, `coveredMask, `rhsptr, `prevLeaf, `vRules, `vrulTbl, `topRules, `bin, `nonbin
      ensures old(vrulTbl) <= vrulTbl
      ensures |nodes| == 2 * |xrs.alignment| - top
      ensures top <= 1 <==> xrs.alignment == [] || Binarizable(xrs.alignment)
      ensures top <= 1 ==>
                && bin == old(bin) + 1 && nonbin == old(nonbin)
                && Wrote(xrs, old(Now()), Now()) && vRules == if |xrs.rhs| >= 2 then |xrs.rhs| - 2 else 0
      ensures top > 1 ==>
                nonbin == old(nonbin) + 1 && bin == old(bin) && topRules == old(topRules) && vrulTbl == old(vrulTbl)
    {
      hide Restores, Binarizable, WellFormed, Stacked, RunTrees;
      Parse(xrs.alignment);
      rhsptr, prevLeaf, vRules := 0, None, 0;
      if xrs.alignment != [] {
        GreedyIsComplete(xrs.alignment);
      }
      ParseHeight(xrs.alignment);
      if top > 1 {
        nonbin := nonbin + 1;
      } else {
        bin := bin + 1;
        Emit();
      }
    }

    /** One input rule: if it is binarizable, write its binary rules, sharing
        virtual rules with those of the rules before it. */
    method Binarize(x: Rule)
      requires Valid()
      modifies this
      ensures Valid() && old(vrulTbl) <= vrulTbl
      ensures x.alignment == [] || Binarizable(x.alignment) ==>
                && done == old(done) + [x] && |topRules| == |old(topRules)| + 1 && topRules[..|old(topRules)|] == old(topRules)
                && bin == old(bin) + 1 && nonbin == old(nonbin)
      ensures !(x.alignment == [] || Binarizable(x.alignment)) ==>
                && done == old(done) && topRules == old(topRules) && vrulTbl == old(vrulTbl)
                && bin == old(bin) && nonbin == old(nonbin) + 1
    {
      hide Restores, Binarizable;
      xrs := x;
      coveredMask := seq(|x.lhs|, _ => false);
      Bracketing();
      if top <= 1 {
        done := done + [x];
      }
      forall k | 0 <= k < |old(done)| ensures Restores(vrulTbl, topRules[k], done[k]) {
        assert old(topRules)[k] == topRules[..|old(topRules)|][k];
        GrowthKeepsRestores(old(vrulTbl), vrulTbl, topRules[k], done[k]);
      }
    }
  }
}
