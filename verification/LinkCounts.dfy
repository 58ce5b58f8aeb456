/** Counting the links in any rectangle from a table of cumulative counts. */
module LinkCounts {
  import opened PhrasePairs

  function One(a: Alignment, i: nat, j: nat): nat {
    if Linked(a, i, j) then 1 else 0
  }

  /** Links of one row in columns j1 up to j2. */
  function RowCount(a: Alignment, i: nat, j1: nat, j2: nat): nat
    requires j1 <= j2
    decreases j2
  {
    if j2 == j1 then 0 else RowCount(a, i, j1, j2 - 1) + One(a, i, j2 - 1)
  }

  /** Links in rows i1 up to i2 and columns j1 up to j2. */
  function Count(a: Alignment, i1: nat, i2: nat, j1: nat, j2: nat): nat
    requires i1 <= i2 && j1 <= j2
    decreases i2
  {
    if i2 == i1 then 0 else Count(a, i1, i2 - 1, j1, j2) + RowCount(a, i2 - 1, j1, j2)
  }

  lemma {:induction false} RowSplits(a: Alignment, i: nat, j1: nat, j: nat, j2: nat)
    requires j1 <= j <= j2
    ensures RowCount(a, i, j1, j2) == RowCount(a, i, j1, j) + RowCount(a, i, j, j2)
    decreases j2
  {
    if j < j2 { RowSplits(a, i, j1, j, j2 - 1); }
  }

  lemma {:induction false} ColumnsSplit(a: Alignment, i1: nat, i2: nat, j1: nat, j: nat, j2: nat)
    requires i1 <= i2 && j1 <= j <= j2
    ensures Count(a, i1, i2, j1, j2) == Count(a, i1, i2, j1, j) + Count(a, i1, i2, j, j2)
    decreases i2
  {
    if i1 < i2 {
      ColumnsSplit(a, i1, i2 - 1, j1, j, j2);
      RowSplits(a, i2 - 1, j1, j, j2);
    }
  }

  lemma {:induction false} RowsSplit(a: Alignment, i1: nat, i: nat, i2: nat, j1: nat, j2: nat)
    requires i1 <= i <= i2 && j1 <= j2
    ensures Count(a, i1, i2, j1, j2) == Count(a, i1, i, j1, j2) + Count(a, i, i2, j1, j2)
    decreases i2
  {
    if i < i2 { RowsSplit(a, i1, i, i2 - 1, j1, j2); }
  }

  /** There are no links exactly when the count is zero. */
  lemma {:induction false} CountIsZero(a: Alignment, i1: nat, i2: nat, j1: nat, j2: nat)
    requires i1 <= i2 && j1 <= j2
    ensures Count(a, i1, i2, j1, j2) == 0 <==> forall i, j :: i1 <= i < i2 && j1 <= j < j2 ==> !Linked(a, i, j)
    decreases i2
  {
    if i1 < i2 {
      CountIsZero(a, i1, i2 - 1, j1, j2);
      RowIsZero(a, i2 - 1, j1, j2);
    }
  }

  lemma {:induction false} RowIsZero(a: Alignment, i: nat, j1: nat, j2: nat)
    requires j1 <= j2
    ensures RowCount(a, i, j1, j2) == 0 <==> forall j :: j1 <= j < j2 ==> !Linked(a, i, j)
    decreases j2
  {
    if j1 < j2 { RowIsZero(a, i, j1, j2 - 1); }
  }

  /** The linked pairs of one row in columns j1 up to j2. */
  function RowPairs(a: Alignment, i: nat, j1: nat, j2: nat): set<(nat, nat)> {
    set j: nat | j1 <= j < j2 && Linked(a, i, j) :: (i, j)
  }

  /** The linked pairs in rows i1 up to i2 and columns j1 up to j2. */
  function Pairs(a: Alignment, i1: nat, i2: nat, j1: nat, j2: nat): set<(nat, nat)> {
    set i: nat, j: nat | i1 <= i < i2 && j1 <= j < j2 && Linked(a, i, j) :: (i, j)
  }

  lemma {:induction false} RowCountIs(a: Alignment, i: nat, j1: nat, j2: nat)
    requires j1 <= j2
    ensures RowCount(a, i, j1, j2) == |RowPairs(a, i, j1, j2)|
    decreases j2
  {
    if j1 < j2 {
      RowCountIs(a, i, j1, j2 - 1);
      var m: nat := j2 - 1;
      var before, now := RowPairs(a, i, j1, m), RowPairs(a, i, j1, j2);
      if Linked(a, i, m) {
        assert now == before + {(i, m)};
      } else {
        assert now == before;
      }
    } else {
      assert RowPairs(a, i, j1, j2) == {};
    }
  }

  /** The count is that of the linked pairs of the rectangle. */
  lemma {:induction false} CountIs(a: Alignment, i1: nat, i2: nat, j1: nat, j2: nat)
    requires i1 <= i2 && j1 <= j2
    ensures Count(a, i1, i2, j1, j2) == |Pairs(a, i1, i2, j1, j2)|
    decreases i2
  {
    if i1 < i2 {
      var m: nat := i2 - 1;
      CountIs(a, i1, m, j1, j2);
      RowCountIs(a, m, j1, j2);
      var before, row := Pairs(a, i1, m, j1, j2), RowPairs(a, m, j1, j2);
      assert Pairs(a, i1, i2, j1, j2) == before + row;
      assert before !! row;
    } else {
      assert Pairs(a, i1, i2, j1, j2) == {};
    }
  }

  /** The table holds the counts of all rectangles at the corner. */
  predicate IsCumulative(a: Alignment, cumul: seq<seq<int>>) {
    && |cumul| == |a.aligned| + 1
    && forall i :: 0 <= i < |cumul| ==> RowIsCumulative(a, cumul[i], i)
  }

  predicate RowIsCumulative(a: Alignment, row: seq<int>, i: nat) {
    |row| == a.n + 1 && forall j :: 0 <= j < |row| ==> row[j] == Count(a, 0, i, 0, j)
  }

  lemma CornerStep(a: Alignment, i: nat, j: nat)
    ensures Count(a, 0, i + 1, 0, j + 1) == Count(a, 0, i + 1, 0, j) + Count(a, 0, i, 0, j + 1) - Count(a, 0, i, 0, j) + One(a, i, j)
  {
    RowSplits(a, i, 0, j, j + 1);
  }

  lemma {:induction false} EmptyCounts(a: Alignment, i: nat, j: nat)
    ensures Count(a, 0, 0, 0, j) == 0 && Count(a, 0, i, 0, 0) == 0
    decreases i
  {
    if i > 0 { EmptyCounts(a, i - 1, j); }
  }

  method ComputeCumulative(a: Links) returns (cumul: seq<seq<int>>)
    ensures IsCumulative(a, cumul)
    ensures forall i, j :: 0 <= i <= |a.aligned| && 0 <= j <= a.n ==> cumul[i][j] == |Pairs(a, 0, i, 0, j)|
  {
    hide Count, Pairs;
    var first: seq<int> := seq(a.n + 1, _ => 0);
    forall j | 0 <= j < |first| ensures first[j] == Count(a, 0, 0, 0, j) { EmptyCounts(a, 0, j); }
    cumul := [first];
    for i := 0 to |a.aligned|
      invariant |cumul| == i + 1 && forall k :: 0 <= k <= i ==> RowIsCumulative(a, cumul[k], k)
    {
      var row: seq<int> := [0];
      EmptyCounts(a, i + 1, 0);
      for j := 0 to a.n
        invariant |row| == j + 1 && forall k :: 0 <= k <= j ==> row[k] == Count(a, 0, i + 1, 0, k)
      {
        CornerStep(a, i, j);
        assert RowIsCumulative(a, cumul[i], i);
        var c := row[j] + cumul[i][j + 1] - cumul[i][j];
        if a.aligned[i][j] {
          c := c + 1;
        }
        row := row + [c];
      }
      cumul := cumul + [row];
    }
    forall i, j | 0 <= i <= |a.aligned| && 0 <= j <= a.n ensures cumul[i][j] == |Pairs(a, 0, i, 0, j)| {
      assert RowIsCumulative(a, cumul[i], i);
      CountIs(a, 0, i, 0, j);
    }
  }

  function RegionAligned(cumul: seq<seq<int>>, fi: nat, fj: nat, ei: nat, ej: nat): int
    requires fi < |cumul| && fj < |cumul|
    requires ei < |cumul[fi]| && ej < |cumul[fi]| && ei < |cumul[fj]| && ej < |cumul[fj]|
  {
    cumul[fj][ej] - cumul[fi][ej] - cumul[fj][ei] + cumul[fi][ei]
  }

  /** Four table entries give the number of links in any rectangle, so a
      rectangle without links is one whose four entries cancel out. */
  lemma RegionIsCount(a: Links, cumul: seq<seq<int>>, fi: nat, fj: nat, ei: nat, ej: nat)
    requires IsCumulative(a, cumul) && fi <= fj <= |a.aligned| && ei <= ej <= a.n
    ensures RegionAligned(cumul, fi, fj, ei, ej) == |Pairs(a, fi, fj, ei, ej)|
    ensures RegionAligned(cumul, fi, fj, ei, ej) == 0 <==> forall i, j :: fi <= i < fj && ei <= j < ej ==> !Linked(a, i, j)
  {
    assert RowIsCumulative(a, cumul[fi], fi) && RowIsCumulative(a, cumul[fj], fj);
    RowsSplit(a, 0, fi, fj, 0, ej);
    RowsSplit(a, 0, fi, fj, 0, ei);
    ColumnsSplit(a, fi, fj, 0, ei, ej);
    CountIsZero(a, fi, fj, ei, ej);
    CountIs(a, fi, fj, ei, ej);
  }
}
