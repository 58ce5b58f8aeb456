/** The post-order visit on values: the emitter's working state, what one
    subtree's visit does to it, and how two children's visits compose. */
module ItgVisit {
  import opened Wrappers
  import opened ItgTrees
  import opened ItgRules
  import opened ItgNodes
  import opened ItgEmit

  /** What the emitter changes while it visits the parse tree. */
  datatype Work = Work(nodes: NodeTable, mask: seq<bool>, rhsptr: nat, prev: Option<nat>,
                       vRules: int, tbl: Table, tops: seq<VRule>)

  /** The emitter stands at source variable `p`, with all words before the
      variable's own segment already taken. */
  predicate StandsAt(x: Rule, w: Work, p: int) {
    && w.rhsptr == p <= |x.rhsIdx|
    && if p == 0 then w.prev == None
       else w.prev.Some? && w.prev.value < |w.nodes| && w.nodes[w.prev.value].cRight + 1 == CHi(x, p - 1)
  }

  /** The subtree at row `i` is the next to be emitted. */
  predicate Ready(x: Rule, root: int, w: Work, i: int) {
    && 0 <= i < |w.nodes| && |w.mask| == |x.lhs|
    && ReadsTree(x.alignment, TreeAt(w.nodes, i), w.rhsptr) && StandsAt(x, w, w.rhsptr)
    && Untouched(w.nodes, First(w.nodes, i), i)
    && Uncovered(x, w.mask, w.nodes[i].left, w.nodes[i].right)
    && 1 <= w.nodes[i].left <= w.nodes[i].right <= |x.alignment|
    && IsRoot(x, root, w, i)
  }

  /** The row is the root exactly when it covers the whole rule. */
  predicate IsRoot(x: Rule, root: int, w: Work, i: int)
    requires 0 <= i < |w.nodes|
  {
    && i <= root && (|x.alignment| == 1 ==> i == root)
    && (i == root ==> w.rhsptr == 0 && w.nodes[i].left == 1 && w.nodes[i].right == |x.alignment|)
  }

  /** Only the subtree's rows have changed, and all its variables are read. */
  predicate Framed(x: Rule, root: int, w0: Work, w: Work, i: int) {
    && 0 <= i < |w0.nodes| && OnlyRange(w0.nodes, w.nodes, First(w0.nodes, i), i)
    && StandsAt(x, w, w0.rhsptr + Width(w0.nodes[i])) && |w.mask| == |x.lhs|
    && w0.tbl <= w.tbl && (i != root ==> w.tops == w0.tops)
  }

  /** One more top rule has been written, and it restores the input rule. */
  predicate Wrote(x: Rule, w0: Work, w: Work) {
    |w.tops| == |w0.tops| + 1 && w.tops[..|w0.tops|] == w0.tops && Restores(w.tbl, w.tops[|w0.tops|], x)
  }

  /** The root's top rule restores the input rule; any other row stands for
      its block, at one virtual rule less than it has source positions. */
  predicate Produced(x: Rule, root: int, w0: Work, w: Work, i: int) {
    && 0 <= i < |w.nodes|
    && if i == root then
         && Wrote(x, w0, w)
         && w.vRules == w0.vRules + (if |x.rhs| >= 2 then |x.rhs| - 2 else 0)
       else
         && NodeDone(x, w.tbl, w.nodes[i], w0.rhsptr, w0.mask, w.mask)
         && w.vRules == w0.vRules + CHi(x, w0.rhsptr + Width(w.nodes[i]) - 1) - CLo(x, w0.rhsptr) - 1
  }

  /** What visiting an inner row itself adds to its children's visits. */
  predicate PairVisited(x: Rule, root: int, w0: Work, w: Work, i: int, p: int, m0: seq<bool>) {
    && 0 <= i && Family(w0.nodes, i)
    && OnlyRows(w0.nodes, w.nodes, {w0.nodes[i].leftChild, w0.nodes[i].rightChild, i})
    && SameBounds(w0.nodes, w.nodes) && w.rhsptr == w0.rhsptr && w.prev == w0.prev
    && w0.tbl <= w.tbl && |w.mask| == |x.lhs|
    && if i == root then Wrote(x, w0, w) && w.vRules == w0.vRules
       else
         && w.tops == w0.tops && w.vRules == w0.vRules + 1
         && NodeDone(x, w.tbl, w.nodes[i], p, m0, w.mask)
  }

  /** What the pair's own rule adds once its children are placed. */
  predicate Finished(x: Rule, root: int, w0: Work, w: Work, i: int, p: int, m0: seq<bool>) {
    && 0 <= i < |w0.nodes| && OnlyRows(w0.nodes, w.nodes, {i}) && SameBounds(w0.nodes, w.nodes)
    && w.rhsptr == w0.rhsptr && w.prev == w0.prev && w0.tbl <= w.tbl && w.mask == w0.mask
    && if i == root then Wrote(x, w0, w) && w.vRules == w0.vRules
       else
         && w.tops == w0.tops && w.vRules == w0.vRules + 1
         && NodeDone(x, w.tbl, w.nodes[i], p, m0, w.mask)
  }

  lemma PlacedAndFinished(x: Rule, root: int, w0: Work, w1: Work, w: Work, i: int, p: int, m0: seq<bool>)
    requires 0 <= i && Family(w0.nodes, i) && |w1.mask| == |x.lhs|
    requires w1 == w0.(nodes := w1.nodes, mask := w1.mask)
    requires OnlyRows(w0.nodes, w1.nodes, {w0.nodes[i].leftChild, w0.nodes[i].rightChild}) && SameBounds(w0.nodes, w1.nodes)
    requires Finished(x, root, w1, w, i, p, m0)
    ensures PairVisited(x, root, w0, w, i, p, m0)
  {
    hide NodeDone, Restores;
  }

  lemma ReadyRow(x: Rule, root: int, w: Work, i: int)
    requires Ready(x, root, w, i)
    ensures 0 <= i < |w.nodes|
    ensures i == root ==> w.rhsptr == 0 && w.nodes[i].left == 1 && w.nodes[i].right == |x.alignment|
  {
  }

  lemma LeftReady(x: Rule, root: int, w: Work, i: int)
    requires Ready(x, root, w, i) && w.nodes[i].tag != 3
    ensures Family(w.nodes, i) && w.nodes[i].virt && Ready(x, root, w, w.nodes[i].leftChild)
  {
    hide StandsAt, Uncovered, CLo, CHi;
    IsFamily(w.nodes, i);
    FamilyTree(w.nodes, i);
    var l := w.nodes[w.nodes[i].leftChild];
    UncoveredPart(x, w.mask, w.nodes[i].left, w.nodes[i].right, l.left, l.right);
  }

  lemma RightReady(x: Rule, root: int, w0: Work, w: Work, i: int)
    requires Ready(x, root, w0, i) && Family(w0.nodes, i)
    requires Framed(x, root, w0, w, w0.nodes[i].leftChild) && Produced(x, root, w0, w, w0.nodes[i].leftChild)
    ensures Ready(x, root, w, w0.nodes[i].rightChild)
  {
    hide Uncovered, CLo, CHi, Emitted, Reaches, ChildMarks, Wrote;
    var nd := w0.nodes[i];
    var r := w0.nodes[nd.rightChild];
    IsFamily(w0.nodes, i);
    FamilyTree(w0.nodes, i);
    TreeAtSame(w0.nodes, w.nodes, nd.rightChild);
    UncoveredPart(x, w0.mask, nd.left, nd.right, r.left, r.right);
    StillUncovered(x, w0.mask, w.mask, w.nodes[nd.leftChild], r.left, r.right);
  }

  /** After both children's visits the pair is ready for its own rule. */
  lemma PairIsReady(x: Rule, root: int, w0: Work, w1: Work, w2: Work, i: int)
    requires Ready(x, root, w0, i) && Family(w0.nodes, i)
    requires Framed(x, root, w0, w1, w0.nodes[i].leftChild) && Produced(x, root, w0, w1, w0.nodes[i].leftChild)
    requires Framed(x, root, w1, w2, w0.nodes[i].rightChild) && Produced(x, root, w1, w2, w0.nodes[i].rightChild)
    ensures Family(w2.nodes, i) && SameStructure(w0.nodes[i], w2.nodes[i]) && |w2.mask| == |x.lhs|
    ensures ChildrenDone(x, w2.tbl, w2.nodes[w2.nodes[i].leftChild], w2.nodes[w2.nodes[i].rightChild],
                         w0.rhsptr, w0.mask, w1.mask, w2.mask)
  {
    hide Uncovered, CLo, CHi, Emitted, Reaches, ChildMarks, Wrote, ReadsTree, TreeAt;
    var nd := w0.nodes[i];
    IsFamily(w0.nodes, i);
    FamilyTree(w0.nodes, i);
    assert SameStructure(w0.nodes[nd.leftChild], w2.nodes[nd.leftChild]);
    assert SameStructure(w0.nodes[nd.rightChild], w2.nodes[nd.rightChild]);
    GrowthKeepsDone(x, w1.tbl, w2.tbl, w1.nodes[nd.leftChild], w0.rhsptr, w0.mask, w1.mask);
    assert w2.nodes[nd.leftChild] == w1.nodes[nd.leftChild];
  }

  /** An inner row's visit is its children's visits and its own rule: what
      has not changed. */
  lemma FramesCompose(x: Rule, root: int, w0: Work, w1: Work, w2: Work, w3: Work, i: int)
    requires Ready(x, root, w0, i) && Family(w0.nodes, i)
    requires Framed(x, root, w0, w1, w0.nodes[i].leftChild) && Framed(x, root, w1, w2, w0.nodes[i].rightChild)
    requires PairVisited(x, root, w2, w3, i, w0.rhsptr, w0.mask)
    ensures Framed(x, root, w0, w3, i)
  {
    hide Uncovered, Emitted, NodeDone, ReadsTree, TreeAt, Restores, CLo, CHi;
    IsFamily(w0.nodes, i);
    FamilyTree(w0.nodes, i);
    assert SameStructure(w0.nodes[i], w2.nodes[i]);
  }

  /** What it has produced. */
  lemma VisitsCompose(x: Rule, root: int, w0: Work, w1: Work, w2: Work, w3: Work, i: int)
    requires Ready(x, root, w0, i) && Family(w0.nodes, i)
    requires Framed(x, root, w0, w1, w0.nodes[i].leftChild) && Produced(x, root, w0, w1, w0.nodes[i].leftChild)
    requires Framed(x, root, w1, w2, w0.nodes[i].rightChild) && Produced(x, root, w1, w2, w0.nodes[i].rightChild)
    requires PairVisited(x, root, w2, w3, i, w0.rhsptr, w0.mask)
    ensures Produced(x, root, w0, w3, i)
  {
    hide Uncovered, Emitted, NodeDone, ReadsTree, TreeAt, Restores, CLo, CHi;
    var nd := w0.nodes[i];
    IsFamily(w0.nodes, i);
    FamilyTree(w0.nodes, i);
    assert SameStructure(nd, w2.nodes[i]) && SameStructure(w2.nodes[i], w3.nodes[i]);
    assert SameStructure(w0.nodes[nd.leftChild], w1.nodes[nd.leftChild]);
    assert SameStructure(w1.nodes[nd.rightChild], w2.nodes[nd.rightChild]) && w1.nodes[nd.rightChild] == w0.nodes[nd.rightChild];
    var p, m, q := w0.rhsptr, w0.rhsptr + Width(w0.nodes[nd.leftChild]) - 1, w0.rhsptr + Width(nd) - 1;
    BlocksMeet(x, p, m, q);
    WholeBlock(x);
  }

  lemma WholeBlock(x: Rule)
    ensures CLo(x, 0) == 0 && CHi(x, |x.rhsIdx| - 1) == |x.rhs|
    ensures |x.rhsIdx| >= 2 ==> |x.rhs| >= 2
  {
    assert |x.rhsIdx| >= 2 ==> Before(x.rhsIdx, 0, 1);
  }

  lemma LeafVisited(x: Rule, root: int, w0: Work, w: Work, i: int)
    requires Ready(x, root, w0, i) && w0.nodes[i].tag == 3 && w.mask == w0.mask
    requires OnlyRows(w0.nodes, w.nodes, {i}) && StandsAt(x, w, w0.rhsptr + 1) && w0.tbl <= w.tbl
    requires if |x.alignment| == 1 then
               Wrote(x, w0, w) && w.vRules == w0.vRules + (if |x.rhs| >= 2 then |x.rhs| - 2 else 0)
             else
               && w.tops == w0.tops && Emitted(x, w.tbl, w.nodes[i], w0.rhsptr)
               && w.vRules == w0.vRules + CHi(x, w0.rhsptr) - CLo(x, w0.rhsptr) - 1
    ensures Framed(x, root, w0, w, i) && Produced(x, root, w0, w, i)
  {
    hide StandsAt, Uncovered, CLo, CHi, Emitted, Wrote, ReadsTree;
    assert ShapeAt(w0.nodes, i);
    if |x.alignment| > 1 {
      LeafDone(x, w.tbl, w.nodes[i], w0.rhsptr, w.mask);
    }
  }

  /** After a successful parse the root is ready to be visited. */
  lemma RootReady(x: Rule, w: Work, stck: seq<int>, trees: Stack<Tree>)
    requires |stck| >= 1 && Stacked(w.nodes, stck, 1, trees) && trees == RunTrees(x.alignment, Empty)
    requires x.alignment != [] && Untouched(w.nodes, 0, |w.nodes|)
    requires w.mask == seq(|x.lhs|, _ => false) && w.rhsptr == 0 && w.prev == None
    ensures Ready(x, stck[0], w, stck[0])
  {
    hide RunTrees, Stacked;
    RootCovers(w.nodes, stck, trees, x.alignment);
  }
}
