/** The node table and stack of the permutation parser, related to the trees
    they stand for. */
module ItgNodes {
  import opened ItgTrees
  import opened ItgRules

  /** A row of the node table; tag 1 is straight, 2 inverted, 3 a leaf. */
  datatype Node = Node(left: int, right: int, leftChild: int, rightChild: int, tag: int, virt: bool,
                       sym: Sym, cLeft: int, cRight: int, eLeft: int, eRight: int)

  function NewNode(left: int, right: int, leftChild: int, rightChild: int, tag: int, virt: bool): Node {
    Node(left, right, leftChild, rightChild, tag, virt, Nu, 0, 0, 0, 0)
  }

  predicate IsLeaf(nd: Node) {
    nd.left == nd.right
  }

  /** How many rows the subtree of a node takes. */
  function Size(nd: Node): int {
    2 * (nd.right - nd.left) + 1
  }

  /** Rows are in post-order: a node's right child is the row before it, and
      its left child is the row before the right child's subtree. */
  predicate ShapeAt(nodes: seq<Node>, i: nat)
    requires i < |nodes|
  {
    var nd := nodes[i];
    if nd.tag == 3 then IsLeaf(nd)
    else
      && nd.virt
      && nd.rightChild == i - 1 && nd.rightChild >= 0
      && nd.leftChild == i - 1 - Size(nodes[i - 1]) && 0 <= nd.leftChild < i
      && var l, r := nodes[nd.leftChild], nodes[nd.rightChild];
         && l.left <= l.right && r.left <= r.right
         && if nd.tag == 1 then nd.left == l.left && l.right == r.left - 1 && r.right == nd.right
            else nd.tag == 2 && nd.left == r.left && r.right == l.left - 1 && l.right == nd.right
  }

  predicate Shape(nodes: seq<Node>) {
    forall i :: 0 <= i < |nodes| ==> ShapeAt(nodes, i)
  }

  type NodeTable = n: seq<Node> | Shape(n)

  function TreeAt(nodes: NodeTable, i: nat): Tree
    requires i < |nodes|
    decreases i
  {
    assert ShapeAt(nodes, i);
    var nd := nodes[i];
    if nd.tag == 3 then Leaf(nd.left)
    else if nd.tag == 1 then Straight(TreeAt(nodes, nd.leftChild), TreeAt(nodes, nd.rightChild))
    else Inverted(TreeAt(nodes, nd.leftChild), TreeAt(nodes, nd.rightChild))
  }

  /** The first row of the subtree of row `i`. */
  function First(nodes: seq<Node>, i: nat): int
    requires i < |nodes|
  {
    i + 1 - Size(nodes[i])
  }

  lemma {:induction false} TreeAtSound(nodes: NodeTable, i: nat)
    requires i < |nodes|
    ensures WellFormed(TreeAt(nodes, i))
    ensures SpanOf(TreeAt(nodes, i)) == Span(nodes[i].left, nodes[i].right)
    ensures nodes[i].left <= nodes[i].right && First(nodes, i) >= 0
    decreases i
  {
    assert ShapeAt(nodes, i);
    if nodes[i].tag != 3 {
      TreeAtSound(nodes, nodes[i].leftChild);
      TreeAtSound(nodes, nodes[i].rightChild);
    }
  }

  predicate SameStructure(a: Node, b: Node) {
    && a.left == b.left && a.right == b.right && a.tag == b.tag && (a.tag != 3 ==> a.virt == b.virt)
    && a.leftChild == b.leftChild && a.rightChild == b.rightChild
  }

  predicate SameShape(a: seq<Node>, b: seq<Node>) {
    |a| <= |b| && forall i :: 0 <= i < |a| ==> SameStructure(a[i], b[i])
  }

  lemma {:induction false} TreeAtSame(a: NodeTable, b: NodeTable, i: nat)
    requires SameShape(a, b) && i < |a|
    ensures TreeAt(a, i) == TreeAt(b, i)
    decreases i
  {
    assert ShapeAt(a, i) && ShapeAt(b, i);
    if a[i].tag != 3 {
      TreeAtSame(a, b, a[i].leftChild);
      TreeAtSame(a, b, a[i].rightChild);
    }
  }

  lemma SameShapeIsShape(a: NodeTable, b: seq<Node>)
    requires SameShape(a, b) && |a| == |b|
    ensures Shape(b)
  {
    forall i | 0 <= i < |b| ensures ShapeAt(b, i) {
      assert ShapeAt(a, i) && SameStructure(a[i], b[i]);
      if a[i].tag != 3 {
        assert SameStructure(a[i - 1], b[i - 1]);
        assert SameStructure(a[a[i].leftChild], b[a[i].leftChild]);
      }
    }
  }

  // ----- the stack of the parser

  /** The stack's entries are the roots of consecutive blocks of rows, and
      stand for the given trees. */
  predicate Stacked(nodes: NodeTable, stck: seq<int>, top: nat, trees: Stack<Tree>)
    decreases trees
  {
    match trees
    case Empty => top == 0
    case Push(below, t) => 0 < top <= |stck| && StackEntry(nodes, stck, top - 1, t) && Stacked(nodes, stck, top - 1, below)
  }

  /** Entry `k` starts where entry `k - 1` ends. */
  predicate StackEntry(nodes: NodeTable, stck: seq<int>, k: nat, t: Tree)
    requires k < |stck|
  {
    && 0 <= stck[k] < |nodes|
    && First(nodes, stck[k]) == LastRow(stck, k) + 1
    && TreeAt(nodes, stck[k]) == t
  }

  /** The last row used by the lowest `top` entries. */
  function LastRow(stck: seq<int>, top: nat): int
    requires top <= |stck|
  {
    if top == 0 then -1 else stck[top - 1]
  }

  lemma {:induction false} StackedSame(a: NodeTable, b: NodeTable, s: seq<int>, s': seq<int>, top: nat, trees: Stack<Tree>)
    requires SameShape(a, b) && top <= |s'| && Stacked(a, s, top, trees) && top <= |s|
    requires forall k :: 0 <= k < top ==> s'[k] == s[k]
    ensures Stacked(b, s', top, trees)
    decreases trees
  {
    if trees.Push? {
      TreeAtSame(a, b, s[top - 1]);
      assert SameStructure(a[s[top - 1]], b[s[top - 1]]);
      StackedSame(a, b, s, s', top - 1, trees.below);
    }
  }

  lemma ExtendShape(nodes: NodeTable, nd: Node)
    requires ShapeAt(nodes + [nd], |nodes|)
    ensures Shape(nodes + [nd])
  {
    forall i | 0 <= i < |nodes| ensures ShapeAt(nodes + [nd], i) {
      assert ShapeAt(nodes, i);
    }
  }

  /** Pushing a leaf row. */
  lemma PushLeaf(nodes: NodeTable, stck: seq<int>, top: nat, trees: Stack<Tree>, nd: Node)
    requires Stacked(nodes, stck, top, trees) && top < |stck| && LastRow(stck, top) == |nodes| - 1
    requires nd == NewNode(nd.left, nd.left, -1, -1, 3, false)
    ensures Shape(nodes + [nd])
    ensures Stacked(nodes + [nd], stck[top := |nodes|], top + 1, Push(trees, Leaf(nd.left)))
  {
    ExtendShape(nodes, nd);
    StackedSame(nodes, nodes + [nd], stck, stck[top := |nodes|], top, trees);
  }

  /** The parent row of two contiguous rows. */
  function PairNode(nodes: seq<Node>, aidx: int, bidx: int): Node
    requires 0 <= aidx < |nodes| && 0 <= bidx < |nodes|
  {
    var a, b := nodes[aidx], nodes[bidx];
    if a.right == b.left - 1 then NewNode(a.left, b.right, aidx, bidx, 1, true)
    else NewNode(b.left, a.right, aidx, bidx, 2, true)
  }

  predicate Contiguous(a: Node, b: Node) {
    a.right == b.left - 1 || a.left == b.right + 1
  }

  /** The two top entries can be combined exactly when their trees can. */
  lemma TopPair(nodes: NodeTable, stck: seq<int>, top: nat, trees: Stack<Tree>)
    requires Stacked(nodes, stck, top, trees) && top > 1
    ensures top <= |stck| && 0 <= stck[top - 2] < |nodes| && 0 <= stck[top - 1] < |nodes|
    ensures trees.Push? && trees.below.Push?
    ensures Contiguous(nodes[stck[top - 2]], nodes[stck[top - 1]]) <==>
            Combinable(SpanOf(trees.below.top), SpanOf(trees.top))
  {
    assert StackEntry(nodes, stck, top - 2, trees.below.top);
    TreeAtSound(nodes, stck[top - 2]);
    TreeAtSound(nodes, stck[top - 1]);
  }

  /** Replacing the two top entries by their parent row. */
  lemma PushPair(nodes: NodeTable, stck: seq<int>, top: nat, trees: Stack<Tree>, nd: Node)
    requires Stacked(nodes, stck, top, trees) && trees.Push? && trees.below.Push?
    requires 1 < top <= |stck| && LastRow(stck, top) == |nodes| - 1
    requires 0 <= stck[top - 2] < |nodes| && 0 <= stck[top - 1] < |nodes|
    requires Contiguous(nodes[stck[top - 2]], nodes[stck[top - 1]])
    requires nd == PairNode(nodes, stck[top - 2], stck[top - 1])
    ensures Shape(nodes + [nd])
    ensures Stacked(nodes + [nd], stck[top - 2 := |nodes|], top - 1,
                    Push(trees.below.below, Pair(trees.below.top, trees.top)))
  {
    var stck', aidx, bidx := stck[top - 2 := |nodes|], stck[top - 2], stck[top - 1];
    assert StackEntry(nodes, stck, top - 2, trees.below.top);
    TreeAtSound(nodes, aidx);
    TreeAtSound(nodes, bidx);
    ExtendShape(nodes, nd);
    var nodes': NodeTable := nodes + [nd];
    TreeAtSame(nodes, nodes', aidx);
    TreeAtSame(nodes, nodes', bidx);
    assert nodes'[|nodes|] == nd;
    assert TreeAt(nodes', |nodes|) == Pair(trees.below.top, trees.top);
    StackedSame(nodes, nodes', stck, stck', top - 2, trees.below.below);
  }

  lemma {:induction false} RowCount(nodes: NodeTable, stck: seq<int>, top: nat, trees: Stack<Tree>)
    requires Stacked(nodes, stck, top, trees) && top <= |stck|
    ensures top == Height(trees) && LastRow(stck, top) + 1 == 2 * |Yields(trees)| - top
    decreases trees
  {
    if trees.Push? {
      TreeAtSound(nodes, stck[top - 1]);
      YieldFillsSpan(trees.top);
      RowCount(nodes, stck, top - 1, trees.below);
    }
  }

  /** A finished parse of n values leaves 2n rows less one per stack entry. */
  lemma FinalRowCount(nodes: NodeTable, stck: seq<int>, top: nat, trees: Stack<Tree>, a: seq<int>)
    requires Stacked(nodes, stck, top, trees) && trees == RunTrees(a, Empty)
    requires top <= |stck| && LastRow(stck, top) == |nodes| - 1
    ensures |nodes| == 2 * |a| - top && top == Height(trees)
  {
    RunTreesYield(a);
    RowCount(nodes, stck, top, trees);
  }

  // ----- updating rows

  /** The tables differ at most in the attributes of the given rows. */
  predicate OnlyRows(a: seq<Node>, b: seq<Node>, rows: set<int>) {
    && |a| == |b| && SameShape(a, b)
    && forall i :: 0 <= i < |a| && i !in rows ==> a[i] == b[i]
  }

  /** No row's source bounds have changed. */
  predicate SameBounds(a: seq<Node>, b: seq<Node>) {
    |a| == |b| && forall i :: 0 <= i < |a| ==> a[i].cRight == b[i].cRight
  }

  lemma UpdateRow(nodes: NodeTable, i: nat, nd: Node)
    requires i < |nodes| && SameStructure(nodes[i], nd)
    ensures Shape(nodes[i := nd]) && OnlyRows(nodes, nodes[i := nd], {i})
  {
    SameShapeIsShape(nodes, nodes[i := nd]);
  }

  /** The tables differ at most in the attributes of a range of rows. */
  predicate OnlyRange(a: seq<Node>, b: seq<Node>, lo: int, hi: int) {
    && |a| == |b| && SameShape(a, b)
    && forall i :: 0 <= i < |a| && !(lo <= i <= hi) ==> a[i] == b[i]
  }

  /** The leaves in a range of rows have not been emitted yet. */
  predicate Untouched(nodes: seq<Node>, lo: int, hi: int) {
    forall i :: 0 <= i < |nodes| && lo <= i <= hi && nodes[i].tag == 3 ==> !nodes[i].virt
  }

  /** The tree's leaves are the values from position `p` on. */
  predicate ReadsTree(a: seq<int>, t: Tree, p: int) {
    match t
    case Leaf(v) => 0 <= p < |a| && a[p] == v
    case Straight(l, r) => ReadsTree(a, l, p) && ReadsTree(a, r, p + |Yield(l)|)
    case Inverted(l, r) => ReadsTree(a, l, p) && ReadsTree(a, r, p + |Yield(l)|)
  }

  lemma {:induction false} YieldIsRead(a: seq<int>, t: Tree, p: nat)
    requires p + |Yield(t)| <= |a|
    requires forall k :: 0 <= k < |Yield(t)| ==> Yield(t)[k] == a[p + k]
    ensures ReadsTree(a, t, p)
  {
    if t.Leaf? {
      assert Yield(t)[0] == a[p + 0];
    } else {
      var l, r := t.left, t.right;
      assert forall k :: 0 <= k < |Yield(l)| ==> Yield(t)[k] == Yield(l)[k];
      assert forall k :: 0 <= k < |Yield(r)| ==> Yield(t)[|Yield(l)| + k] == Yield(r)[k];
      YieldIsRead(a, l, p);
      YieldIsRead(a, r, p + |Yield(l)|);
    }
  }

  /** The root of a finished parse covers the whole permutation. */
  lemma RootCovers(nodes: NodeTable, stck: seq<int>, trees: Stack<Tree>, a: seq<int>)
    requires Stacked(nodes, stck, 1, trees) && |stck| >= 1 && trees == RunTrees(a, Empty)
    requires forall p :: 0 <= p < |a| ==> 1 <= a[p] <= |a|
    ensures 0 <= stck[0] < |nodes| && First(nodes, stck[0]) == 0
    ensures nodes[stck[0]].left == 1 && nodes[stck[0]].right == |a| && ReadsTree(a, TreeAt(nodes, stck[0]), 0)
  {
    RunTreesYield(a);
    assert trees.below == Empty && StackEntry(nodes, stck, 0, trees.top);
    var t := trees.top;
    assert Yields(trees) == Yields(trees.below) + Yield(t) == Yield(t);
    TreeAtSound(nodes, stck[0]);
    YieldFillsSpan(t);
    assert SpanOf(t).lo in Yield(t) && SpanOf(t).hi in Yield(t);
    YieldIsRead(a, t, 0);
  }

  /** The low and the high child of a binary row, as row numbers. */
  function LowChild(nd: Node): int {
    if nd.tag == 1 then nd.leftChild else nd.rightChild
  }

  function HighChild(nd: Node): int {
    if nd.tag == 1 then nd.rightChild else nd.leftChild
  }

  /** A binary row together with its two children's rows. */
  predicate Family(nodes: NodeTable, i: nat) {
    && i < |nodes| && (nodes[i].tag == 1 || nodes[i].tag == 2)
    && 0 <= nodes[i].leftChild < nodes[i].rightChild < i
    && nodes[LowChild(nodes[i])].right + 1 == nodes[HighChild(nodes[i])].left
    && nodes[i].left == nodes[LowChild(nodes[i])].left && nodes[i].right == nodes[HighChild(nodes[i])].right
  }

  lemma IsFamily(nodes: NodeTable, i: nat)
    requires i < |nodes| && nodes[i].tag != 3
    ensures Family(nodes, i) && nodes[i].rightChild == i - 1 && nodes[i].virt
    ensures First(nodes, nodes[i].rightChild) == nodes[i].leftChild + 1
    ensures First(nodes, nodes[i].leftChild) == First(nodes, i)
  {
    assert ShapeAt(nodes, i);
  }

  lemma FamilyTree(nodes: NodeTable, i: nat)
    requires i < |nodes| && Family(nodes, i)
    ensures var t := TreeAt(nodes, i);
            && !t.Leaf? && t.left == TreeAt(nodes, nodes[i].leftChild) && t.right == TreeAt(nodes, nodes[i].rightChild)
            && |Yield(t.left)| == nodes[nodes[i].leftChild].right - nodes[nodes[i].leftChild].left + 1
    ensures nodes[nodes[i].leftChild].left <= nodes[nodes[i].leftChild].right
    ensures nodes[nodes[i].rightChild].left <= nodes[nodes[i].rightChild].right
  {
    hide Yield, WellFormed;
    TreeAtSound(nodes, nodes[i].leftChild);
    TreeAtSound(nodes, nodes[i].rightChild);
    YieldFillsSpan(TreeAt(nodes, nodes[i].leftChild));
  }
}
