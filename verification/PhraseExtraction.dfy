/** Enumerating the phrase pairs that have no unaligned word at any edge. */
module PhraseExtraction {
  import opened Wrappers
  import opened PhrasePairs

  // ----- first and last links of rows and columns

  /** The link comes before place (i, j) in the order of reading. */
  predicate Seen(a: Alignment, k: int, m: int, i: nat, j: nat) {
    Linked(a, k, m) && (k < i || (k == i && m < j))
  }

  /** `first` and `last` delimit the row's links seen so far. */
  ghost predicate RowOk(a: Alignment, k: nat, first: nat, last: nat, i: nat, j: nat) {
    && (forall m :: Seen(a, k, m, i, j) ==> first <= m < last)
    && (first < last ==> Seen(a, k, first, i, j) && Seen(a, k, last - 1, i, j))
    && (first >= last ==> first == a.n && last == 0)
  }

  ghost predicate ColumnOk(a: Alignment, m: nat, first: nat, last: nat, i: nat, j: nat) {
    && (forall k :: Seen(a, k, m, i, j) ==> first <= k < last)
    && (first < last ==> Seen(a, first, m, i, j) && Seen(a, last - 1, m, i, j))
    && (first >= last ==> first == |a.aligned| && last == 0)
  }

  ghost predicate SpansOk(a: Alignment, ifirst: seq<nat>, ilast: seq<nat>, jfirst: seq<nat>, jlast: seq<nat>, i: nat, j: nat) {
    && |jfirst| == |jlast| == |a.aligned| && |ifirst| == |ilast| == a.n
    && (forall k {:trigger jfirst[k]} :: 0 <= k < |jfirst| ==> RowOk(a, k, jfirst[k], jlast[k], i, j))
    && (forall m {:trigger ifirst[m]} :: 0 <= m < |ifirst| ==> ColumnOk(a, m, ifirst[m], ilast[m], i, j))
  }

  /** Nothing new is seen in the row between two places. */
  lemma RowSame(a: Links, k: nat, first: nat, last: nat, i: nat, j: nat, i': nat, j': nat)
    requires RowOk(a, k, first, last, i, j)
    requires forall m {:trigger Seen(a, k, m, i', j')} :: Seen(a, k, m, i, j) <==> Seen(a, k, m, i', j')
    ensures RowOk(a, k, first, last, i', j')
  {
    forall m | Seen(a, k, m, i', j') ensures first <= m < last { assert Seen(a, k, m, i, j); }
  }

  lemma ColumnSame(a: Links, m: nat, first: nat, last: nat, i: nat, j: nat, i': nat, j': nat)
    requires ColumnOk(a, m, first, last, i, j)
    requires forall k {:trigger Seen(a, k, m, i', j')} :: Seen(a, k, m, i, j) <==> Seen(a, k, m, i', j')
    ensures ColumnOk(a, m, first, last, i', j')
  {
    forall k | Seen(a, k, m, i', j') ensures first <= k < last { assert Seen(a, k, m, i, j); }
  }

  lemma SameSeen(a: Links, ifirst: seq<nat>, ilast: seq<nat>, jfirst: seq<nat>, jlast: seq<nat>, i: nat, j: nat, i': nat, j': nat)
    requires SpansOk(a, ifirst, ilast, jfirst, jlast, i, j)
    requires forall k, m {:trigger Seen(a, k, m, i', j')} :: Seen(a, k, m, i, j) <==> Seen(a, k, m, i', j')
    ensures SpansOk(a, ifirst, ilast, jfirst, jlast, i', j')
  {
    hide Seen, RowOk, ColumnOk;
    forall k | 0 <= k < |jfirst| ensures RowOk(a, k, jfirst[k], jlast[k], i', j') {
      RowSame(a, k, jfirst[k], jlast[k], i, j, i', j');
    }
    forall m | 0 <= m < |ifirst| ensures ColumnOk(a, m, ifirst[m], ilast[m], i', j') {
      ColumnSame(a, m, ifirst[m], ilast[m], i, j, i', j');
    }
  }

  lemma RowMore(a: Links, first: nat, last: nat, i: nat, j: nat)
    requires RowOk(a, i, first, last, i, j) && Linked(a, i, j)
    ensures RowOk(a, i, if j < first then j else first, j + 1, i, j + 1)
  {
    var f := if j < first then j else first;
    var next := j + 1;
    forall m | Seen(a, i, m, i, next) ensures f <= m < next {
      if m != j { assert Seen(a, i, m, i, j); }
    }
  }

  lemma ColumnMore(a: Links, first: nat, last: nat, i: nat, j: nat)
    requires ColumnOk(a, j, first, last, i, j) && Linked(a, i, j)
    ensures ColumnOk(a, j, if i < first then i else first, i + 1, i, j + 1)
  {
    var f := if i < first then i else first;
    var next := j + 1;
    forall k | Seen(a, k, j, i, next) ensures f <= k < i + 1 {
      if k != i { assert Seen(a, k, j, i, j); }
    }
  }

  lemma RowElse(a: Links, k: nat, first: nat, last: nat, i: nat, j: nat)
    requires RowOk(a, k, first, last, i, j) && k != i
    ensures RowOk(a, k, first, last, i, j + 1)
  {
    RowSame(a, k, first, last, i, j, i, j + 1);
  }

  lemma ColumnElse(a: Links, m: nat, first: nat, last: nat, i: nat, j: nat)
    requires ColumnOk(a, m, first, last, i, j) && m != j
    ensures ColumnOk(a, m, first, last, i, j + 1)
  {
    ColumnSame(a, m, first, last, i, j, i, j + 1);
  }

  lemma LinkNext(a: Links, ifirst: seq<nat>, ilast: seq<nat>, jfirst: seq<nat>, jlast: seq<nat>, i: nat, j: nat)
    requires SpansOk(a, ifirst, ilast, jfirst, jlast, i, j) && Linked(a, i, j)
    ensures SpansOk(a, if i < ifirst[j] then ifirst[j := i] else ifirst, ilast[j := i + 1],
                    if j < jfirst[i] then jfirst[i := j] else jfirst, jlast[i := j + 1], i, j + 1)
  {
    var f, l := if j < jfirst[i] then jfirst[i := j] else jfirst, jlast[i := j + 1];
    var g, h := if i < ifirst[j] then ifirst[j := i] else ifirst, ilast[j := i + 1];
    hide RowOk, ColumnOk, Seen;
    RowMore(a, jfirst[i], jlast[i], i, j);
    ColumnMore(a, ifirst[j], ilast[j], i, j);
    forall k | 0 <= k < |f| ensures RowOk(a, k, f[k], l[k], i, j + 1) {
      if k != i { RowElse(a, k, jfirst[k], jlast[k], i, j); }
    }
    forall m | 0 <= m < |g| ensures ColumnOk(a, m, g[m], h[m], i, j + 1) {
      if m != j { ColumnElse(a, m, ifirst[m], ilast[m], i, j); }
    }
  }

  lemma NothingSeen(a: Links)
    ensures SpansOk(a, seq(a.n, _ => |a.aligned|), seq(a.n, _ => 0), seq(|a.aligned|, _ => a.n), seq(|a.aligned|, _ => 0), 0, 0)
  {
  }

  /** First and one past the last link of every column and row. */
  method LinkSpans(a: Links) returns (ifirst: seq<nat>, ilast: seq<nat>, jfirst: seq<nat>, jlast: seq<nat>)
    ensures SpansOk(a, ifirst, ilast, jfirst, jlast, |a.aligned|, 0)
  {
    ifirst, ilast := seq(a.n, _ => |a.aligned|), seq(a.n, _ => 0);
    jfirst, jlast := seq(|a.aligned|, _ => a.n), seq(|a.aligned|, _ => 0);
    NothingSeen(a);
    hide RowOk, ColumnOk;
    for i := 0 to |a.aligned|
      invariant SpansOk(a, ifirst, ilast, jfirst, jlast, i, 0)
    {
      for j := 0 to a.n
        invariant SpansOk(a, ifirst, ilast, jfirst, jlast, i, j)
      {
        if a.aligned[i][j] {
          LinkNext(a, ifirst, ilast, jfirst, jlast, i, j);
          if j < jfirst[i] { jfirst := jfirst[i := j]; }
          jlast := jlast[i := j + 1];
          if i < ifirst[j] { ifirst := ifirst[j := i]; }
          ilast := ilast[j := i + 1];
        } else {
          SameSeen(a, ifirst, ilast, jfirst, jlast, i, j, i, j + 1);
        }
      }
      SameSeen(a, ifirst, ilast, jfirst, jlast, i, a.n, i + 1, 0);
    }
  }

  // ----- tight phrase pairs

  /** The column's links lie in rows `first` to `last`, and reach both. */
  ghost predicate ColumnSpan(a: Alignment, j: nat, first: nat, last: nat) {
    && (forall i :: Linked(a, i, j) ==> first <= i < last)
    && (EAligned(a, j) ==> 0 < last && Linked(a, first, j) && Linked(a, last - 1, j))
    && (!EAligned(a, j) ==> first == |a.aligned| && last == 0)
  }

  /** The spans say where aligned rows link, and how far up and down columns
      link. */
  ghost predicate Spanned(a: Alignment, ifirst: seq<nat>, ilast: seq<nat>, jfirst: seq<nat>, jlast: seq<nat>) {
    && |jfirst| == |jlast| == |a.aligned| && |ifirst| == |ilast| == a.n
    && (forall i {:trigger jfirst[i]} :: 0 <= i < |jfirst| && FAligned(a, i) ==> Hull(a, i, i + 1, jfirst[i], jlast[i]))
    && (forall j {:trigger ifirst[j]} :: 0 <= j < |ifirst| ==> ColumnSpan(a, j, ifirst[j], ilast[j]))
  }

  lemma RowIsHull(a: Links, i: nat, first: nat, last: nat)
    requires i < |a.aligned| && RowOk(a, i, first, last, |a.aligned|, 0) && FAligned(a, i)
    ensures Hull(a, i, i + 1, first, last)
  {
    var j :| Linked(a, i, j);
    assert Seen(a, i, j, |a.aligned|, 0);
    forall m | Linked(a, i, m) ensures first <= m < last { assert Seen(a, i, m, |a.aligned|, 0); }
    assert Seen(a, i, last - 1, |a.aligned|, 0);
  }

  lemma ColumnIsSpan(a: Links, j: nat, first: nat, last: nat)
    requires ColumnOk(a, j, first, last, |a.aligned|, 0)
    ensures ColumnSpan(a, j, first, last)
  {
    forall i | Linked(a, i, j) ensures first <= i < last { assert Seen(a, i, j, |a.aligned|, 0); }
    if first < last {
      assert Seen(a, first, j, |a.aligned|, 0) && Seen(a, last - 1, j, |a.aligned|, 0);
    }
  }

  lemma SpansAre(a: Links, ifirst: seq<nat>, ilast: seq<nat>, jfirst: seq<nat>, jlast: seq<nat>)
    requires SpansOk(a, ifirst, ilast, jfirst, jlast, |a.aligned|, 0)
    ensures Spanned(a, ifirst, ilast, jfirst, jlast)
  {
    hide RowOk, ColumnOk, ColumnSpan;
    forall i | 0 <= i < |jfirst| && FAligned(a, i) ensures Hull(a, i, i + 1, jfirst[i], jlast[i]) {
      RowIsHull(a, i, jfirst[i], jlast[i]);
    }
    forall j | 0 <= j < |ifirst| ensures ColumnSpan(a, j, ifirst[j], ilast[j]) {
      ColumnIsSpan(a, j, ifirst[j], ilast[j]);
    }
  }

  /** The hull of one row more. */
  lemma HullNext(a: Links, i1: nat, i2: nat, j1: nat, j2: nat, k1: nat, k2: nat)
    requires i1 <= i2 && (i1 < i2 ==> Hull(a, i1, i2, j1, j2)) && Hull(a, i2, i2 + 1, k1, k2)
    requires i1 == i2 ==> j1 >= k1 && j2 <= k2
    ensures Hull(a, i1, i2 + 1, if j1 < k1 then j1 else k1, if j2 > k2 then j2 else k2)
  {
  }

  lemma HullSame(a: Links, i1: nat, i2: nat, j1: nat, j2: nat)
    requires Hull(a, i1, i2, j1, j2) && !FAligned(a, i2)
    ensures Hull(a, i1, i2 + 1, j1, j2)
  {
    forall i, j | i1 <= i < i2 + 1 && Linked(a, i, j) ensures i < i2 {}
  }

  /** A tight box that starts at this row and ends at or below row i2. */
  ghost predicate TightFrom(a: Alignment, b: Box, i1: nat, i2: nat) {
    Tight(a, b) && b.i1 == i1 && i2 <= b.i2
  }

  /** Once the columns are too far apart they stay so. */
  lemma TooWide(a: Links, i1: nat, i2: nat, j1: nat, j2: nat, maxlen: nat, b: Box)
    requires Hull(a, i1, i2, j1, j2) && j2 - j1 > maxlen && TightFrom(a, b, i1, i2)
    ensures !Within(b, maxlen)
  {
    TightIsHull(a, b);
    HullGrows(a, i1, i2, j1, j2, b.i2, b.j1, b.j2);
  }

  /** Once one of the columns links above the first row it stays so. */
  lemma LinkAbove(a: Links, i1: nat, i2: nat, j1: nat, j2: nat, j: nat, first: nat, last: nat, b: Box)
    requires Hull(a, i1, i2, j1, j2) && j1 <= j < j2 && ColumnSpan(a, j, first, last) && first < i1 <= |a.aligned|
    ensures !TightFrom(a, b, i1, i2)
  {
    assert Linked(a, first, j);
    if TightFrom(a, b, i1, i2) {
      TightIsHull(a, b);
      HullGrows(a, i1, i2, j1, j2, b.i2, b.j1, b.j2);
    }
  }

  /** While one of the columns links below row i2 no tight box ends there. */
  lemma LinkBelow(a: Links, i1: nat, i2: nat, j1: nat, j2: nat, j: nat, first: nat, last: nat, b: Box)
    requires Hull(a, i1, i2, j1, j2) && j1 <= j < j2 && ColumnSpan(a, j, first, last) && i2 < last
    ensures Tight(a, b) && b.i1 == i1 ==> b.i2 != i2
  {
    assert Linked(a, last - 1, j);
    if Tight(a, b) && b.i1 == i1 && b.i2 == i2 {
      TightIsHull(a, b);
      HullIsUnique(a, i1, i2, j1, j2, b.j1, b.j2);
    }
  }

  /** Where neither is so, the columns close the box. */
  lemma BoxIsTight(a: Links, ifirst: seq<nat>, ilast: seq<nat>, i1: nat, i2: nat, j1: nat, j2: nat)
    requires i1 < i2 <= |a.aligned| && Hull(a, i1, i2, j1, j2) && FAligned(a, i1) && FAligned(a, i2 - 1)
    requires |ifirst| == |ilast| == a.n && forall j {:trigger ifirst[j]} :: 0 <= j < a.n ==> ColumnSpan(a, j, ifirst[j], ilast[j])
    requires forall j :: j1 <= j < j2 && j < a.n ==> i1 <= ifirst[j] && ilast[j] <= i2
    ensures Tight(a, Box(i1, j1, i2, j2))
  {
    forall i, j | j1 <= j < j2 && Linked(a, i, j) ensures i1 <= i < i2 {
      assert ColumnSpan(a, j, ifirst[j], ilast[j]);
    }
    HullIsTight(a, i1, i2, j1, j2);
  }

  lemma TightByRows(a: Links, i1: nat, i2: nat, j1: nat, j2: nat, b: Box)
    requires Tight(a, b) && b.i1 == i1 && b.i2 == i2 && Hull(a, i1, i2, j1, j2)
    ensures b == Box(i1, j1, i2, j2)
  {
    TightIsHull(a, b);
    HullIsUnique(a, i1, i2, j1, j2, b.j1, b.j2);
  }

  lemma HullBounds(a: Links, i1: nat, i2: nat, j1: nat, j2: nat)
    requires Hull(a, i1, i2, j1, j2)
    ensures j1 < j2 <= a.n
  {
  }

  datatype Columns = Inside | Above(j: nat) | Below(j: nat)

  /** The first column between that links outside rows i1..i2, above or below. */
  method CheckColumns(ifirst: seq<nat>, ilast: seq<nat>, i1: nat, i2: nat, j1: nat, j2: nat) returns (r: Columns)
    requires j1 <= j2 <= |ifirst| == |ilast|
    ensures r.Inside? ==> forall j :: j1 <= j < j2 ==> i1 <= ifirst[j] && ilast[j] <= i2
    ensures r.Above? ==> j1 <= r.j < j2 && ifirst[r.j] < i1
    ensures r.Below? ==> j1 <= r.j < j2 && i2 < ilast[r.j]
  {
    for j := j1 to j2
      invariant forall k :: j1 <= k < j ==> i1 <= ifirst[k] && ilast[k] <= i2
    {
      if ifirst[j] < i1 {
        return Above(j);
      }
      if ilast[j] > i2 {
        return Below(j);
      }
    }
    r := Inside;
  }

  /** The row's tight boxes that end before row i2. */
  ghost predicate FoundTo(a: Alignment, r: seq<Box>, i1: nat, i2: nat, maxlen: nat) {
    && NoRepeat(r)
    && forall b {:trigger b in r} :: b in r <==> Tight(a, b) && b.i1 == i1 && Within(b, maxlen) && b.i2 < i2
  }

  ghost predicate FoundRow(a: Alignment, r: seq<Box>, i1: nat, maxlen: nat) {
    && NoRepeat(r)
    && forall b {:trigger b in r} :: b in r <==> Tight(a, b) && b.i1 == i1 && Within(b, maxlen)
  }

  lemma FoundNone(a: Links, r: seq<Box>, i1: nat, i2: nat, maxlen: nat)
    requires FoundTo(a, r, i1, i2, maxlen) && forall b :: Tight(a, b) && b.i1 == i1 ==> b.i2 != i2
    ensures FoundTo(a, r, i1, i2 + 1, maxlen)
  {
  }

  lemma FoundOne(a: Links, r: seq<Box>, i1: nat, i2: nat, j1: nat, j2: nat, maxlen: nat)
    requires FoundTo(a, r, i1, i2, maxlen) && Tight(a, Box(i1, j1, i2, j2)) && Within(Box(i1, j1, i2, j2), maxlen)
    ensures FoundTo(a, r + [Box(i1, j1, i2, j2)], i1, i2 + 1, maxlen)
  {
    var c := Box(i1, j1, i2, j2);
    TightIsHull(a, c);
    assert c !in r;
    forall b | Tight(a, b) && b.i1 == i1 && b.i2 == i2 ensures b == c { TightByRows(a, i1, i2, j1, j2, b); }
    hide Tight, Hull;
    forall b ensures b in r + [c] <==> Tight(a, b) && b.i1 == i1 && Within(b, maxlen) && b.i2 < i2 + 1 {}
  }

  lemma FoundAll(a: Links, r: seq<Box>, i1: nat, i2: nat, maxlen: nat)
    requires FoundTo(a, r, i1, i2, maxlen) && forall b :: TightFrom(a, b, i1, i2) ==> !Within(b, maxlen)
    ensures FoundRow(a, r, i1, maxlen)
  {
    hide Tight;
  }

  method FromRow(a: Links, faligned: seq<bool>, ifirst: seq<nat>, ilast: seq<nat>, jfirst: seq<nat>, jlast: seq<nat>,
                 i1: nat, maxlen: nat)
    returns (r: seq<Box>)
    requires Spanned(a, ifirst, ilast, jfirst, jlast)
    requires |faligned| == |a.aligned| && forall i :: 0 <= i < |faligned| ==> (faligned[i] <==> FAligned(a, i))
    requires i1 < |a.aligned| && faligned[i1]
    ensures FoundRow(a, r, i1, maxlen)
  {
    hide Hull, Tight, ColumnSpan, FoundTo, FoundRow, FAligned;
    r := [];
    NothingFound(a, i1, maxlen);
    var j1: nat, j2: nat := a.n, 0;
    var limit := if |a.aligned| < i1 + maxlen then |a.aligned| else i1 + maxlen;
    var i2 := i1 + 1;
    while i2 <= limit
      invariant i1 < i2 <= limit + 1
      invariant if i2 == i1 + 1 then j1 == a.n && j2 == 0 else Hull(a, i1, i2 - 1, j1, j2)
      invariant FoundTo(a, r, i1, i2, maxlen)
    {
      if !faligned[i2 - 1] {
        HullSame(a, i1, i2 - 1, j1, j2);
        NoneAtUnaligned(a, i1, i2);
        FoundNone(a, r, i1, i2, maxlen);
      } else {
        HullBounds(a, i2 - 1, i2, jfirst[i2 - 1], jlast[i2 - 1]);
        HullNext(a, i1, i2 - 1, j1, j2, jfirst[i2 - 1], jlast[i2 - 1]);
        j1 := if j1 < jfirst[i2 - 1] then j1 else jfirst[i2 - 1];
        j2 := if j2 > jlast[i2 - 1] then j2 else jlast[i2 - 1];
        HullBounds(a, i1, i2, j1, j2);
        if j2 - j1 > maxlen {
          forall b | TightFrom(a, b, i1, i2) ensures !Within(b, maxlen) { TooWide(a, i1, i2, j1, j2, maxlen, b); }
          FoundAll(a, r, i1, i2, maxlen);
          return;
        }
        var next := CheckColumns(ifirst, ilast, i1, i2, j1, j2);
        if next.Above? {
          forall b ensures TightFrom(a, b, i1, i2) ==> !Within(b, maxlen) {
            LinkAbove(a, i1, i2, j1, j2, next.j, ifirst[next.j], ilast[next.j], b);
          }
          FoundAll(a, r, i1, i2, maxlen);
          return;
        } else if next.Below? {
          forall b | Tight(a, b) && b.i1 == i1 ensures b.i2 != i2 {
            LinkBelow(a, i1, i2, j1, j2, next.j, ifirst[next.j], ilast[next.j], b);
          }
          FoundNone(a, r, i1, i2, maxlen);
        } else {
          BoxIsTight(a, ifirst, ilast, i1, i2, j1, j2);
          FoundOne(a, r, i1, i2, j1, j2, maxlen);
          r := r + [Box(i1, j1, i2, j2)];
        }
      }
      i2 := i2 + 1;
    }
    forall b | TightFrom(a, b, i1, i2) ensures !Within(b, maxlen) { TightInBounds(a, b); }
    FoundAll(a, r, i1, i2, maxlen);
  }

  lemma NothingFound(a: Links, i1: nat, maxlen: nat)
    ensures FoundTo(a, [], i1, i1 + 1, maxlen)
  {
  }

  lemma NoneAtUnaligned(a: Links, i1: nat, i2: nat)
    requires i2 > 0 && !FAligned(a, i2 - 1)
    ensures forall b :: Tight(a, b) && b.i1 == i1 ==> b.i2 != i2
  {
  }

  lemma TightInBounds(a: Links, b: Box)
    requires Tight(a, b)
    ensures b.i2 <= |a.aligned|
  {
  }

  /** All tight phrase pairs of bounded length, each once. */
  method ExtractPhrases(a: Links, faligned: seq<bool>, maxlen: nat) returns (phrases: seq<Box>)
    requires |faligned| == |a.aligned| && forall i :: 0 <= i < |faligned| ==> (faligned[i] <==> FAligned(a, i))
    ensures NoRepeat(phrases)
    ensures forall b :: b in phrases <==> Tight(a, b) && Within(b, maxlen)
  {
    var ifirst, ilast, jfirst, jlast := LinkSpans(a);
    SpansAre(a, ifirst, ilast, jfirst, jlast);
    hide Tight, FAligned, Spanned;
    phrases := [];
    for i1 := 0 to |a.aligned|
      invariant NoRepeat(phrases)
      invariant forall b {:trigger b in phrases} :: b in phrases <==> Tight(a, b) && Within(b, maxlen) && b.i1 < i1
    {
      if faligned[i1] {
        var r := FromRow(a, faligned, ifirst, ilast, jfirst, jlast, i1, maxlen);
        JoinNoRepeat(phrases, r);
        phrases := phrases + r;
      } else {
        NoneFromUnaligned(a, i1);
      }
    }
    forall b | Tight(a, b) ensures b.i1 < |a.aligned| { TightInBounds(a, b); TightIsBox(a, b); }
  }

  lemma NoneFromUnaligned(a: Links, i1: nat)
    requires !FAligned(a, i1)
    ensures forall b :: Tight(a, b) ==> b.i1 != i1
  {
  }

  lemma TightIsBox(a: Links, b: Box)
    requires Tight(a, b)
    ensures b.i1 < b.i2
  {
  }
}
