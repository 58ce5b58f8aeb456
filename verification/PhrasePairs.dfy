/** Word alignments, and which boxes of them are phrase pairs. */
module PhrasePairs {

  /** A box of source positions i1..i2 and target positions j1..j2. */
  datatype Box = Box(i1: nat, j1: nat, i2: nat, j2: nat)

  /** `aligned[i][j]` says whether source word i is linked to target word j. */
  datatype Alignment = Alignment(aligned: seq<seq<bool>>, n: nat)

  predicate Rectangular(a: Alignment) {
    forall i :: 0 <= i < |a.aligned| ==> |a.aligned[i]| == a.n
  }

  type Links = a: Alignment | Rectangular(a) witness Alignment([], 0)

  predicate Linked(a: Alignment, i: int, j: int) {
    0 <= i < |a.aligned| && 0 <= j < |a.aligned[i]| && a.aligned[i][j]
  }

  ghost predicate FAligned(a: Alignment, i: int) {
    exists j :: Linked(a, i, j)
  }

  ghost predicate EAligned(a: Alignment, j: int) {
    exists i :: Linked(a, i, j)
  }

  predicate InBounds(a: Alignment, b: Box) {
    b.i1 < b.i2 <= |a.aligned| && b.j1 < b.j2 <= a.n
  }

  /** No link leaves the box. */
  ghost predicate Closed(a: Alignment, b: Box) {
    forall i, j {:trigger Linked(a, i, j)} :: Linked(a, i, j) ==> (b.i1 <= i < b.i2 <==> b.j1 <= j < b.j2)
  }

  /** A phrase pair: it has a link, and no link leaves it. */
  ghost predicate Consistent(a: Alignment, b: Box) {
    && InBounds(a, b) && Closed(a, b)
    && exists i, j :: b.i1 <= i < b.i2 && Linked(a, i, j)
  }

  predicate Within(b: Box, maxlen: nat) {
    b.i2 - b.i1 <= maxlen && b.j2 - b.j1 <= maxlen
  }

  /** A phrase pair with no unaligned word at any edge. */
  ghost predicate Tight(a: Alignment, b: Box) {
    && InBounds(a, b) && Closed(a, b)
    && FAligned(a, b.i1) && FAligned(a, b.i2 - 1) && EAligned(a, b.j1) && EAligned(a, b.j2 - 1)
  }

  // ----- the columns that a stretch of rows reaches

  /** The rows' links all lie in columns j1..j2, and reach both ends. */
  ghost predicate Hull(a: Alignment, i1: nat, i2: nat, j1: nat, j2: nat) {
    && (forall i, j {:trigger Linked(a, i, j)} :: i1 <= i < i2 && Linked(a, i, j) ==> j1 <= j < j2)
    && Touches(a, i1, i2, j1) && Touches(a, i1, i2, j2 - 1)
  }

  ghost predicate Touches(a: Alignment, i1: nat, i2: nat, j: int) {
    exists i :: i1 <= i < i2 && Linked(a, i, j)
  }

  /** A tight box is its rows' hull. */
  lemma TightIsHull(a: Links, b: Box)
    requires Tight(a, b)
    ensures Hull(a, b.i1, b.i2, b.j1, b.j2)
  {
    var i :| Linked(a, i, b.j1);
    var k :| Linked(a, k, b.j2 - 1);
  }

  lemma HullIsUnique(a: Links, i1: nat, i2: nat, j1: nat, j2: nat, k1: nat, k2: nat)
    requires Hull(a, i1, i2, j1, j2) && Hull(a, i1, i2, k1, k2)
    ensures j1 == k1 && j2 == k2
  {
  }

  lemma HullGrows(a: Links, i1: nat, i2: nat, j1: nat, j2: nat, m2: nat, k1: nat, k2: nat)
    requires Hull(a, i1, i2, j1, j2) && Hull(a, i1, m2, k1, k2) && i2 <= m2
    ensures k1 <= j1 && j2 <= k2
  {
  }

  /** The box is consistent when its hull's columns do not link outside. */
  lemma HullIsTight(a: Links, i1: nat, i2: nat, j1: nat, j2: nat)
    requires i1 < i2 <= |a.aligned| && Hull(a, i1, i2, j1, j2) && FAligned(a, i1) && FAligned(a, i2 - 1)
    requires forall i, j {:trigger Linked(a, i, j)} :: j1 <= j < j2 && Linked(a, i, j) ==> i1 <= i < i2
    ensures Tight(a, Box(i1, j1, i2, j2))
  {
  }

  // ----- a phrase pair and its tight core

  /** The box is the core and unaligned words around it, at most so many on
      each side. */
  ghost predicate Loosened(a: Alignment, core: Box, b: Box, fmax: nat, emax: nat) {
    && InBounds(a, b)
    && b.i1 <= core.i1 && core.i2 <= b.i2 && b.j1 <= core.j1 && core.j2 <= b.j2
    && core.i1 - b.i1 <= fmax && b.i2 - core.i2 <= fmax && core.j1 - b.j1 <= emax && b.j2 - core.j2 <= emax
    && (forall i :: b.i1 <= i < core.i1 || core.i2 <= i < b.i2 ==> !FAligned(a, i))
    && (forall j :: b.j1 <= j < core.j1 || core.j2 <= j < b.j2 ==> !EAligned(a, j))
  }

  lemma LoosenedIsConsistent(a: Links, core: Box, b: Box, fmax: nat, emax: nat)
    requires Tight(a, core) && Loosened(a, core, b, fmax, emax)
    ensures Consistent(a, b)
  {
    forall i, j | Linked(a, i, j) ensures b.i1 <= i < b.i2 <==> b.j1 <= j < b.j2 {
      assert FAligned(a, i) && EAligned(a, j);
    }
    var j :| Linked(a, core.i1, j);
  }

  /** No two cores loosen to the same box. */
  lemma CoreIsUnique(a: Links, c: Box, d: Box, b: Box, fmax: nat, emax: nat)
    requires Tight(a, c) && Tight(a, d) && Loosened(a, c, b, fmax, emax) && Loosened(a, d, b, fmax, emax)
    ensures c == d
  {
  }

  lemma {:induction false} FirstRow(a: Links, i1: nat, i2: nat) returns (i: nat)
    requires exists k, j :: i1 <= k < i2 && Linked(a, k, j)
    ensures i1 <= i < i2 && FAligned(a, i) && forall k :: i1 <= k < i ==> !FAligned(a, k)
    decreases i2 - i1
  {
    if FAligned(a, i1) { i := i1; } else { i := FirstRow(a, i1 + 1, i2); }
  }

  lemma {:induction false} LastRow(a: Links, i1: nat, i2: nat) returns (i: nat)
    requires exists k, j :: i1 <= k < i2 && Linked(a, k, j)
    ensures i1 < i <= i2 && FAligned(a, i - 1) && forall k :: i <= k < i2 ==> !FAligned(a, k)
  {
    if FAligned(a, i2 - 1) { i := i2; } else { i := LastRow(a, i1, i2 - 1); }
  }

  lemma {:induction false} FirstColumn(a: Links, j1: nat, j2: nat) returns (j: nat)
    requires exists i, k :: j1 <= k < j2 && Linked(a, i, k)
    ensures j1 <= j < j2 && EAligned(a, j) && forall k :: j1 <= k < j ==> !EAligned(a, k)
    decreases j2 - j1
  {
    if EAligned(a, j1) { j := j1; } else { j := FirstColumn(a, j1 + 1, j2); }
  }

  lemma {:induction false} LastColumn(a: Links, j1: nat, j2: nat) returns (j: nat)
    requires exists i, k :: j1 <= k < j2 && Linked(a, i, k)
    ensures j1 < j <= j2 && EAligned(a, j - 1) && forall k :: j <= k < j2 ==> !EAligned(a, k)
  {
    if EAligned(a, j2 - 1) { j := j2; } else { j := LastColumn(a, j1, j2 - 1); }
  }

  /** Every phrase pair has a tight core that it loosens. */
  lemma HasCore(a: Links, b: Box) returns (core: Box)
    requires Consistent(a, b)
    ensures Tight(a, core) && Loosened(a, core, b, |a.aligned|, a.n)
  {
    var i, j :| b.i1 <= i < b.i2 && Linked(a, i, j);
    assert b.j1 <= j < b.j2;
    var i1 := FirstRow(a, b.i1, b.i2);
    var i2 := LastRow(a, b.i1, b.i2);
    var j1 := FirstColumn(a, b.j1, b.j2);
    var j2 := LastColumn(a, b.j1, b.j2);
    core := Box(i1, j1, i2, j2);
    forall k, m | Linked(a, k, m) ensures core.i1 <= k < core.i2 <==> core.j1 <= m < core.j2 {
      assert FAligned(a, k) && EAligned(a, m);
    }
  }

  // ----- building an alignment

  /** The flags say which rows and which columns have a link. */
  ghost predicate Flags(a: Alignment, faligned: seq<bool>, ealigned: seq<bool>) {
    && |faligned| == |a.aligned| && |ealigned| == a.n
    && (forall i :: 0 <= i < |faligned| ==> (faligned[i] <==> FAligned(a, i)))
    && (forall j :: 0 <= j < |ealigned| ==> (ealigned[j] <==> EAligned(a, j)))
  }

  /** A word alignment with the flags that tell which words are aligned. */
  class Grid {
    var links: Links
    var faligned: seq<bool>
    var ealigned: seq<bool>

    ghost predicate Valid()
      reads this
    {
      Flags(links, faligned, ealigned)
    }

    constructor (m: nat, n: nat)
      ensures Valid() && |links.aligned| == m && links.n == n && forall i, j :: !Linked(links, i, j)
    {
      links := Alignment(seq(m, _ => seq(n, _ => false)), n);
      faligned, ealigned := seq(m, _ => false), seq(n, _ => false);
    }

    method Align(i: nat, j: nat)
      requires Valid() && i < |links.aligned| && j < links.n
      modifies this
      ensures Valid() && |links.aligned| == |old(links).aligned| && links.n == old(links).n
      ensures forall k, m {:trigger Linked(links, k, m)} :: Linked(links, k, m) <==> Linked(old(links), k, m) || (k, m) == (i, j)
    {
      if !links.aligned[i][j] {
        ghost var before := links;
        links := Alignment(links.aligned[i := links.aligned[i][j := true]], links.n);
        faligned := faligned[i := true];
        ealigned := ealigned[j := true];
        MoreLinks(before, links, i, j);
      }
    }
  }

  lemma MoreLinks(a: Links, b: Links, i: nat, j: nat)
    requires i < |a.aligned| && j < a.n && b == Alignment(a.aligned[i := a.aligned[i][j := true]], a.n)
    ensures forall k, m {:trigger Linked(b, k, m)} :: Linked(b, k, m) <==> Linked(a, k, m) || (k, m) == (i, j)
    ensures forall k :: FAligned(b, k) <==> FAligned(a, k) || k == i
    ensures forall m :: EAligned(b, m) <==> EAligned(a, m) || m == j
  {
    assert Linked(b, i, j);
    forall k ensures FAligned(b, k) <==> FAligned(a, k) || k == i {
      if m :| Linked(a, k, m) { assert Linked(b, k, m); }
      if FAligned(b, k) && k != i { var m :| Linked(b, k, m); assert Linked(a, k, m); }
    }
    forall m ensures EAligned(b, m) <==> EAligned(a, m) || m == j {
      if k :| Linked(a, k, m) { assert Linked(b, k, m); }
      if EAligned(b, m) && m != j { var k :| Linked(b, k, m); assert Linked(a, k, m); }
    }
  }
}
