/** When the score that a line search reports is the score of the point that it
    reports: always strictly between two changes, and at a point where two
    sentences change exactly if rescoring there gives the same counts. */
module MertTruth {
  import opened Wrappers
  import opened MertLines
  import opened Vectors
  import opened MertScan
  import opened MertData
  import opened Mert

  // ----- what stretches of no width do

  /** There are points strictly between the changes before and after. */
  predicate Wide(m: seq<Intersection>, k: nat) {
    k <= |m| && (0 < k < |m| ==> m[k - 1].x < m[k].x)
  }

  lemma WideHasPoint(m: seq<Intersection>, k: nat) returns (x: real)
    requires Wide(m, k)
    ensures Within(m, k, x)
  {
    x := if m == [] then 0.0 else if k == 0 then m[0].x - 1.0 else if k == |m| then m[k - 1].x + 1.0
         else 0.5 * (m[k - 1].x + m[k].x);
  }

  /** A score that only the given counts reach. */
  function Only(c: Comps): Comps -> real {
    a => if a == c then 1.0 else 0.0
  }

  // ----- when a reported score is that of the reported point

  /** Rescoring the point picked for a stretch gives the counts swept there. */
  ghost predicate TrueHere(d: Corpus, origin: seq<real>, dir: seq<real>, comps: Comps, m: seq<Intersection>, k: nat)
    requires k <= |m|
  {
    After(comps, m, k) == SlowComps(d, PointAt(origin, dir, Pick(m, k), d.dim))
  }

  /** No shorter stretch has the counts of the stretch after `k` changes. */
  predicate New(comps: Comps, m: seq<Intersection>, k: nat)
    requires k <= |m|
  {
    forall j :: 0 <= j < k ==> After(comps, m, j) != After(comps, m, k)
  }

  /** The counts after the `k`th of several changes at one point, if they are
      new, are those of rescoring at that point. */
  ghost predicate NarrowIsTrue(d: Corpus, origin: seq<real>, dir: seq<real>, comps: Comps, m: seq<Intersection>, k: nat)
    requires k < |m|
  {
    !Wide(m, k) && New(comps, m, k) ==> After(comps, m, k) == SlowComps(d, PointAt(origin, dir, m[k].x, d.dim))
  }

  /** One rescoring at each point where several changes meet: a check that can
      be made before the sweep, without any score. */
  ghost predicate NarrowAreTrue(d: Corpus, origin: seq<real>, dir: seq<real>, comps: Comps, m: seq<Intersection>) {
    forall k {:trigger NarrowIsTrue(d, origin, dir, comps, m, k)} :: 0 <= k < |m| ==> NarrowIsTrue(d, origin, dir, comps, m, k)
  }

  /** Whatever the score, the best one swept is that of the point picked. */
  ghost predicate SweepIsTrue(d: Corpus, origin: seq<real>, dir: seq<real>, comps: Comps, m: seq<Intersection>) {
    forall score: Comps -> real, k: nat :: FirstBestStretch(comps, m, score, k) ==>
      score(After(comps, m, k)) == score(SlowComps(d, PointAt(origin, dir, Pick(m, k), d.dim)))
  }

  /** The point with the score that rescoring gives it. */
  ghost function Rescored(d: Corpus, score: Comps -> real, weights: seq<real>): Point {
    Point(weights, Some(score(SlowComps(d, weights))))
  }

  /** Whatever the score, a search from a point whose score is true reports a
      true score. */
  ghost predicate SearchIsTrue(d: Corpus, origin: seq<real>, dir: seq<real>, comps: Comps, m: seq<Intersection>) {
    forall score: Comps -> real, k: nat :: FirstBestStretch(comps, m, score, k) ==>
      TrueScore(d, score, Reported(score, Rescored(d, score, origin), dir, d.dim, comps, m, k))
  }

  lemma WideIsHere(d: Corpus, origin: seq<real>, dir: seq<real>, comps: Comps, l: seq<Intersection>, m: seq<Intersection>, k: nat)
    requires Collected(d, origin, dir, |d.sents|, comps, l) && multiset(l) == multiset(m) && Sorted(m)
    requires k <= |m| && Wide(m, k)
    ensures TrueHere(d, origin, dir, comps, m, k)
  {
    assert Within(m, k, Pick(m, k));
    hide Collected, Sorted, After;
    StretchIsRight(d, origin, dir, comps, l, m, k, Pick(m, k));
  }

  lemma NarrowIsHere(m: seq<Intersection>, k: nat)
    requires Sorted(m) && k <= |m| && !Wide(m, k)
    ensures k < |m| && Pick(m, k) == m[k].x
  {
    assert m[k - 1].x <= m[k].x;
  }

  /** A first best stretch shows its counts first. */
  lemma FirstBestIsNew(comps: Comps, m: seq<Intersection>, score: Comps -> real, k: nat)
    requires FirstBestStretch(comps, m, score, k)
    ensures k <= |m| && New(comps, m, k)
  {
    hide After;
  }

  /** New counts are those of the first best stretch for some score. */
  lemma NewIsFirstBest(comps: Comps, m: seq<Intersection>, k: nat)
    requires k <= |m| && New(comps, m, k)
    ensures FirstBestStretch(comps, m, Only(After(comps, m, k)), k)
  {
    hide After;
  }

  lemma NewIsHere(d: Corpus, origin: seq<real>, dir: seq<real>, comps: Comps, l: seq<Intersection>, m: seq<Intersection>, k: nat)
    requires Collected(d, origin, dir, |d.sents|, comps, l) && multiset(l) == multiset(m) && Sorted(m)
    requires NarrowAreTrue(d, origin, dir, comps, m) && k <= |m| && New(comps, m, k)
    ensures TrueHere(d, origin, dir, comps, m, k)
  {
    hide Collected, Sorted, After, New;
    if Wide(m, k) {
      WideIsHere(d, origin, dir, comps, l, m, k);
    } else {
      NarrowIsHere(m, k);
      assert NarrowIsTrue(d, origin, dir, comps, m, k);
    }
  }

  lemma HereIsNarrow(d: Corpus, origin: seq<real>, dir: seq<real>, comps: Comps, m: seq<Intersection>, k: nat)
    requires Sorted(m) && k < |m| && (New(comps, m, k) ==> TrueHere(d, origin, dir, comps, m, k))
    ensures NarrowIsTrue(d, origin, dir, comps, m, k)
  {
    if !Wide(m, k) { NarrowIsHere(m, k); }
  }

  /** The sweep's best score is always that of the point it picks exactly if
      the new counts of every stretch of no width are those of rescoring at its
      point. */
  lemma SweepIsTrueIff(d: Corpus, origin: seq<real>, dir: seq<real>, comps: Comps, l: seq<Intersection>, m: seq<Intersection>)
    requires Collected(d, origin, dir, |d.sents|, comps, l) && multiset(l) == multiset(m) && Sorted(m)
    ensures SweepIsTrue(d, origin, dir, comps, m) <==> NarrowAreTrue(d, origin, dir, comps, m)
  {
    hide Collected, Sorted, After, New, Wide, NarrowIsTrue, Pick;
    if NarrowAreTrue(d, origin, dir, comps, m) {
      forall score: Comps -> real, k: nat | FirstBestStretch(comps, m, score, k)
        ensures score(After(comps, m, k)) == score(SlowComps(d, PointAt(origin, dir, Pick(m, k), d.dim)))
      {
        FirstBestIsNew(comps, m, score, k);
        NewIsHere(d, origin, dir, comps, l, m, k);
      }
    }
    if SweepIsTrue(d, origin, dir, comps, m) {
      forall k | 0 <= k < |m| ensures NarrowIsTrue(d, origin, dir, comps, m, k) {
        if New(comps, m, k) {
          NewIsFirstBest(comps, m, k);
          assert Only(After(comps, m, k))(After(comps, m, k)) == 1.0;
        }
        HereIsNarrow(d, origin, dir, comps, m, k);
      }
    }
  }

  /** The whole line search, from a true score, always reports a true score
      under exactly the same condition. */
  lemma SearchIsTrueIff(d: Corpus, origin: seq<real>, dir: seq<real>, comps: Comps, l: seq<Intersection>, m: seq<Intersection>)
    requires Collected(d, origin, dir, |d.sents|, comps, l) && multiset(l) == multiset(m) && Sorted(m)
    ensures SearchIsTrue(d, origin, dir, comps, m) <==> NarrowAreTrue(d, origin, dir, comps, m)
  {
    hide Collected, Sorted, After, New, Wide, NarrowIsTrue, Pick;
    if NarrowAreTrue(d, origin, dir, comps, m) {
      forall score: Comps -> real, k: nat | FirstBestStretch(comps, m, score, k)
        ensures TrueScore(d, score, Reported(score, Rescored(d, score, origin), dir, d.dim, comps, m, k))
      {
        FirstBestIsNew(comps, m, score, k);
        NewIsHere(d, origin, dir, comps, l, m, k);
      }
    }
    if SearchIsTrue(d, origin, dir, comps, m) {
      forall k | 0 <= k < |m| ensures NarrowIsTrue(d, origin, dir, comps, m, k) {
        if New(comps, m, k) {
          NewIsFirstBest(comps, m, k);
          var p := Reported(Only(After(comps, m, k)), Rescored(d, Only(After(comps, m, k)), origin), dir, d.dim, comps, m, k);
          assert TrueScore(d, Only(After(comps, m, k)), p) && p.score == Some(1.0);
        }
        HereIsNarrow(d, origin, dir, comps, m, k);
      }
    }
  }

  // ----- when it is at least that of some point of the line

  /** Whatever the score, the best one swept is attained at some point of the
      line where no candidates change. */
  ghost predicate Attained(d: Corpus, origin: seq<real>, dir: seq<real>, comps: Comps, m: seq<Intersection>) {
    forall score: Comps -> real, k: nat :: FirstBestStretch(comps, m, score, k) ==>
      exists x :: !Breakpoint(d, origin, dir, x) && score(After(comps, m, k)) == score(SlowComps(d, PointAt(origin, dir, x, d.dim)))
  }

  /** The counts after k changes are those of a stretch of positive width. */
  predicate SeenWide(comps: Comps, m: seq<Intersection>, k: nat)
    requires k <= |m|
  {
    exists j :: 0 <= j <= |m| && Wide(m, j) && After(comps, m, j) == After(comps, m, k)
  }

  /** No counts appear only between changes at one point. */
  predicate NothingBetween(comps: Comps, m: seq<Intersection>) {
    forall k {:trigger SeenWide(comps, m, k)} :: 0 <= k <= |m| ==> SeenWide(comps, m, k)
  }

  lemma WideIsTrue(d: Corpus, origin: seq<real>, dir: seq<real>, comps: Comps, l: seq<Intersection>, m: seq<Intersection>, j: nat)
    returns (x: real)
    requires Collected(d, origin, dir, |d.sents|, comps, l) && multiset(l) == multiset(m) && Sorted(m) && Wide(m, j)
    ensures !Breakpoint(d, origin, dir, x) && SlowComps(d, PointAt(origin, dir, x, d.dim)) == After(comps, m, j)
  {
    x := WideHasPoint(m, j);
    StretchIsRight(d, origin, dir, comps, l, m, j, x);
    assert !Breaks(m, x);
    if Breaks(l, x) { SameBreaks(l, m, x); }
  }

  lemma TrueIsWide(d: Corpus, origin: seq<real>, dir: seq<real>, comps: Comps, l: seq<Intersection>, m: seq<Intersection>, x: real)
    returns (j: nat)
    requires Collected(d, origin, dir, |d.sents|, comps, l) && multiset(l) == multiset(m) && Sorted(m)
    requires !Breakpoint(d, origin, dir, x)
    ensures Wide(m, j) && SlowComps(d, PointAt(origin, dir, x, d.dim)) == After(comps, m, j)
  {
    if Breaks(m, x) { SameBreaks(m, l, x); }
    j := FindStretch(m, x, |m|);
    StretchIsRight(d, origin, dir, comps, l, m, j, x);
  }

  lemma {:induction false} FirstLike(comps: Comps, m: seq<Intersection>, k: nat, n: nat) returns (f: nat)
    requires n <= k <= |m| && forall j :: 0 <= j < n ==> After(comps, m, j) != After(comps, m, k)
    ensures f <= k && After(comps, m, f) == After(comps, m, k) && FirstBestStretch(comps, m, Only(After(comps, m, k)), f)
    decreases k - n
  {
    if After(comps, m, n) == After(comps, m, k) { f := n; } else { f := FirstLike(comps, m, k, n + 1); }
  }

  /** The best score swept is attained where no candidates change, whatever the
      score is, exactly if no counts appear only between changes at one point. */
  lemma AttainedIff(d: Corpus, origin: seq<real>, dir: seq<real>, comps: Comps, l: seq<Intersection>, m: seq<Intersection>)
    requires Collected(d, origin, dir, |d.sents|, comps, l) && multiset(l) == multiset(m) && Sorted(m)
    ensures Attained(d, origin, dir, comps, m) <==> NothingBetween(comps, m)
  {
    hide Collected, Breakpoint, Sorted, Wide, After;
    if NothingBetween(comps, m) {
      forall score: Comps -> real, k: nat | FirstBestStretch(comps, m, score, k)
        ensures exists x :: !Breakpoint(d, origin, dir, x) && score(After(comps, m, k)) == score(SlowComps(d, PointAt(origin, dir, x, d.dim)))
      {
        assert SeenWide(comps, m, k);
        var j :| 0 <= j <= |m| && Wide(m, j) && After(comps, m, j) == After(comps, m, k);
        var x := WideIsTrue(d, origin, dir, comps, l, m, j);
      }
    }
    if Attained(d, origin, dir, comps, m) {
      forall k | 0 <= k <= |m| ensures SeenWide(comps, m, k) {
        var score := Only(After(comps, m, k));
        var f := FirstLike(comps, m, k, 0);
        var x :| !Breakpoint(d, origin, dir, x) && score(After(comps, m, f)) == score(SlowComps(d, PointAt(origin, dir, x, d.dim)));
        var j := TrueIsWide(d, origin, dir, comps, l, m, x);
        WideFits(m, j);
      }
    }
  }

  lemma WideFits(m: seq<Intersection>, j: nat)
    requires Wide(m, j)
    ensures j <= |m|
  {
  }

  // ----- two sentences that change at one point

  /** A candidate of one feature and one component. */
  function Simple(f: real, c: int): Candidate {
    Candidate([f], [c])
  }

  /** Two sentences whose best candidates change at the origin, one for the
      better and one for the worse. */
  const TWO_AT_ONCE: Lists := Lists([[Simple(0.0, 0), Simple(1.0, 1)], [Simple(0.0, 0), Simple(1.0, -1)]], 1, 1)

  /** What collecting the two sentences gives, already in order. */
  const TWO_CHANGES: seq<Intersection> := [Intersection(0.0, [1]), Intersection(0.0, [-1])]

  lemma TwoDots(x: real, f: real)
    ensures Dot(PointAt([0.0], [1.0], x, 1), [f], 1) == x * f
  {
    assert Dot(PointAt([0.0], [1.0], x, 1), [f], 0) == 0.0;
    assert PointAt([0.0], [1.0], x, 1)[0] == x;
  }

  /** At every point the two sentences' counts cancel out. */
  lemma TwoCancel(x: real)
    ensures SlowComps(TWO_AT_ONCE, PointAt([0.0], [1.0], x, 1)) == [0]
  {
    var w := PointAt([0.0], [1.0], x, 1);
    TwoDots(x, 0.0);
    TwoDots(x, 1.0);
    var a, b := TWO_AT_ONCE.sents[0], TWO_AT_ONCE.sents[1];
    assert ValueAt(w, a[0]) == ValueAt(w, b[0]) == 0.0;
    assert ValueAt(w, a[1]) == ValueAt(w, b[1]) == x;
    assert BestUpTo(w, a, 1) == BestUpTo(w, b, 1) == 0;
    assert BestUpTo(w, a, 2) == BestUpTo(w, b, 2);
    assert BestSum(TWO_AT_ONCE, w, 0, 0) == 0;
    assert BestSum(TWO_AT_ONCE, w, 0, 1) == At(a[BestUpTo(w, a, 2)].comps, 0);
    assert BestSum(TWO_AT_ONCE, w, 0, 2) == BestSum(TWO_AT_ONCE, w, 0, 1) + At(b[BestUpTo(w, b, 2)].comps, 0);
  }

  lemma TwoCorners(s: nat, x: real)
    requires s < 2
    ensures CornerOf(TWO_AT_ONCE, [0.0], [1.0], s, x) <==> x == 0.0
  {
    var ls := LinesOf([0.0], [1.0], TWO_AT_ONCE.sents[s]);
    TwoLines(s);
    if x == 0.0 {
      assert HighestAt(ls, 0, x) && HighestAt(ls, 1, x);
    }
  }

  lemma TwoLines(s: nat)
    requires s < 2
    ensures LinesOf([0.0], [1.0], TWO_AT_ONCE.sents[s]) == [Line(0.0, 0.0), Line(1.0, 0.0)]
  {
    forall f | f == 0.0 || f == 1.0 ensures Dot([1.0], [f], 1) == f && Dot([0.0], [f], 1) == 0.0 {
      assert Dot([1.0], [f], 0) == Dot([0.0], [f], 0) == 0.0;
    }
  }

  lemma TwoSums(p: Probe)
    ensures Sum(TWO_CHANGES, p) == Weigh(TWO_CHANGES[0], p) + Weigh(TWO_CHANGES[1], p)
    ensures Sum(TWO_CHANGES[..1], p) == Weigh(TWO_CHANGES[0], p)
  {
    assert TWO_CHANGES == [TWO_CHANGES[0]] + [TWO_CHANGES[1]];
    assert TWO_CHANGES[..1] == [] + [TWO_CHANGES[0]];
    Pushed([], TWO_CHANGES[0], p);
    Pushed([TWO_CHANGES[0]], TWO_CHANGES[1], p);
  }

  lemma TwoCollected()
    ensures Uniform(TWO_AT_ONCE) && Collected(TWO_AT_ONCE, [0.0], [1.0], 2, [0], TWO_CHANGES)
  {
    forall x ensures Breaks(TWO_CHANGES, x) <==> BreaksBefore(TWO_AT_ONCE, [0.0], [1.0], 2, x) {
      TwoCorners(0, x);
      TwoCorners(1, x);
      if x == 0.0 { assert TWO_CHANGES[0].x == x; }
    }
    forall x | !Breaks(TWO_CHANGES, x) ensures AgreesAt(TWO_AT_ONCE, [0.0], [1.0], 2, [0], TWO_CHANGES, x) {
      TwoSums(LeftOf(x, 0));
      TwoCancel(x);
      assert SlowComps(TWO_AT_ONCE, PointAt([0.0], [1.0], x, 1))[0] == 0;
    }
    TwoCorners(0, 0.0);
    TwoCorners(1, 0.0);
  }

  /** Counts of one component, taken as the score. */
  function Plain(c: Comps): real {
    At(c, 0) as real
  }

  /** When two sentences change at one point, the sweep may report a score that
      no point of the line has. */
  lemma SharedChangeMisleads()
    ensures Uniform(TWO_AT_ONCE) && Collected(TWO_AT_ONCE, [0.0], [1.0], 2, [0], TWO_CHANGES) && Sorted(TWO_CHANGES)
    ensures FirstBestStretch([0], TWO_CHANGES, Plain, 1) && Plain(After([0], TWO_CHANGES, 1)) == 1.0
    ensures forall x :: Plain(SlowComps(TWO_AT_ONCE, PointAt([0.0], [1.0], x, 1))) == 0.0
    ensures !Separate(TWO_AT_ONCE, [0.0], [1.0]) && !NarrowAreTrue(TWO_AT_ONCE, [0.0], [1.0], [0], TWO_CHANGES)
  {
    TwoCollected();
    TwoStretches();
    TwoNarrow();
    hide NarrowAreTrue;
    forall x ensures Plain(SlowComps(TWO_AT_ONCE, PointAt([0.0], [1.0], x, 1))) == 0.0 {
      TwoCancel(x);
    }
    TwoCorners(0, 0.0);
    TwoCorners(1, 0.0);
    assert CornerOf(TWO_AT_ONCE, [0.0], [1.0], 0, 0.0) && CornerOf(TWO_AT_ONCE, [0.0], [1.0], 1, 0.0);
  }

  lemma TwoStretches()
    ensures Sorted(TWO_CHANGES)
    ensures FirstBestStretch([0], TWO_CHANGES, Plain, 1) && Plain(After([0], TWO_CHANGES, 1)) == 1.0
  {
    TwoSums(Everywhere(0));
    assert TWO_CHANGES[..2] == TWO_CHANGES;
    hide Total;
    TwoTotals();
    assert forall k :: 0 <= k <= 2 ==> After([0], TWO_CHANGES, k)[0] == Total(TWO_CHANGES[..k], 0);
  }

  /** Rescoring at the point of the two changes does not give the counts
      between them. */
  lemma TwoNarrow()
    ensures !NarrowAreTrue(TWO_AT_ONCE, [0.0], [1.0], [0], TWO_CHANGES)
  {
    TwoStretches();
    TwoCancel(0.0);
    assert Plain([0]) == 0.0;
    FirstBestIsNew([0], TWO_CHANGES, Plain, 1);
    hide SlowComps, After, New;
    assert !NarrowIsTrue(TWO_AT_ONCE, [0.0], [1.0], [0], TWO_CHANGES, 1);
  }

  lemma TwoTotals()
    ensures Total(TWO_CHANGES[..0], 0) == 0 && Total(TWO_CHANGES[..1], 0) == 1 && Total(TWO_CHANGES[..2], 0) == 0
  {
    TwoSums(Everywhere(0));
    assert TWO_CHANGES[..2] == TWO_CHANGES;
  }
}
