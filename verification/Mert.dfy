/** Line search over all sentences: collect, sort, sweep, compare. */
module Mert {
  import opened Wrappers
  import opened MertScan
  import opened MertData

  datatype Point = Point(weights: seq<real>, score: Option<real>)

  // ----- sorting and sweeping

  predicate Sorted(l: seq<Intersection>) {
    forall i, j :: 0 <= i < j < |l| ==> l[i].x <= l[j].x
  }

  lemma Inserted(r: seq<Intersection>, k: nat, e: Intersection)
    requires Sorted(r) && k <= |r|
    requires k > 0 ==> r[k - 1].x <= e.x
    requires k < |r| ==> e.x <= r[k].x
    ensures Sorted(r[..k] + [e] + r[k..])
  {
    var s := r[..k] + [e] + r[k..];
    forall i, j | 0 <= i < j < |s| ensures s[i].x <= s[j].x {
      InsertedPair(r, k, e, i, j);
    }
  }

  lemma InsertedPair(r: seq<Intersection>, k: nat, e: Intersection, i: nat, j: nat)
    requires Sorted(r) && k <= |r| && i < j <= |r|
    requires k > 0 ==> r[k - 1].x <= e.x
    requires k < |r| ==> e.x <= r[k].x
    ensures (r[..k] + [e] + r[k..])[i].x <= (r[..k] + [e] + r[k..])[j].x
  {
    if j == k {
      assert r[i].x <= r[k - 1].x;
    } else if i == k {
      assert r[k].x <= r[j - 1].x;
    }
  }

  lemma InsertedElements(r: seq<Intersection>, k: nat, e: Intersection)
    requires k <= |r|
    ensures multiset(r[..k] + [e] + r[k..]) == multiset(r) + multiset{e}
  {
    assert r == r[..k] + r[k..];
    assert multiset(r) == multiset(r[..k]) + multiset(r[k..]);
  }

  method Sort(l: seq<Intersection>) returns (r: seq<Intersection>)
    ensures Sorted(r) && multiset(r) == multiset(l)
  {
    hide Sorted;
    r := [];
    assert Sorted(r) by { EmptyIsSorted(); }
    for i := 0 to |l|
      invariant Sorted(r) && multiset(r) == multiset(l[..i])
    {
      var k := |r|;
      while k > 0 && l[i].x < r[k - 1].x
        invariant 0 <= k <= |r| && (k < |r| ==> l[i].x < r[k].x)
      {
        k := k - 1;
      }
      Inserted(r, k, l[i]);
      InsertedElements(r, k, l[i]);
      assert l[..i + 1] == l[..i] + [l[i]];
      r := r[..k] + [l[i]] + r[k..];
    }
    assert l[..|l|] == l;
  }

  lemma EmptyIsSorted()
    ensures Sorted([])
  {
  }

  /** The counts after the first `k` changes. */
  function After(comps: Comps, l: seq<Intersection>, k: nat): (r: Comps)
    requires k <= |l|
    ensures |r| == |comps| && forall c :: 0 <= c < |r| ==> r[c] == comps[c] + Total(l[..k], c)
  {
    seq(|comps|, c requires 0 <= c < |comps| => comps[c] + Total(l[..k], c))
  }

  /** `x` lies strictly between the `k`th change and the next. */
  predicate Within(l: seq<Intersection>, k: nat, x: real) {
    k <= |l| && (k > 0 ==> l[k - 1].x < x) && (k < |l| ==> x < l[k].x)
  }

  /** The point the sweep picks for the stretch after `k` changes. */
  function Pick(l: seq<Intersection>, k: nat): real
    requires k <= |l|
  {
    if l == [] then 0.0
    else if k == 0 then l[0].x - 1000.0
    else if k < |l| then 0.5 * (l[k - 1].x + l[k].x)
    else l[k - 1].x + 0.1
  }

  /** The first of the best stretches. */
  predicate FirstBestStretch(comps: Comps, l: seq<Intersection>, score: Comps -> real, k: nat) {
    && k <= |l|
    && (forall j :: 0 <= j <= |l| ==> score(After(comps, l, j)) <= score(After(comps, l, k)))
    && (forall j :: 0 <= j < k ==> score(After(comps, l, j)) < score(After(comps, l, k)))
  }

  method Sweep(comps: Comps, l: seq<Intersection>, score: Comps -> real) returns (bestScore: real, bestX: real, ghost k: nat)
    ensures FirstBestStretch(comps, l, score, k)
    ensures bestScore == score(After(comps, l, k)) && bestX == Pick(l, k)
  {
    var now := comps;
    assert now == After(comps, l, 0);
    bestScore, k := score(now), 0;
    bestX := if l == [] then 0.0 else l[0].x - 1000.0;
    for i := 0 to |l|
      invariant now == After(comps, l, i) && k <= i
      invariant bestScore == score(After(comps, l, k)) && bestX == Pick(l, k)
      invariant forall j :: 0 <= j <= i ==> score(After(comps, l, j)) <= bestScore
      invariant forall j :: 0 <= j < k ==> score(After(comps, l, j)) < bestScore
    {
      now := Plus(now, l[i].delta);
      OneMore(comps, l, i);
      var s := score(now);
      if s > bestScore {
        bestScore, k := s, i + 1;
        if i + 1 < |l| {
          bestX := 0.5 * (l[i].x + l[i + 1].x);
        } else {
          bestX := l[i].x + 0.1;
        }
      }
    }
  }

  lemma OneMore(comps: Comps, l: seq<Intersection>, i: nat)
    requires i < |l|
    ensures Plus(After(comps, l, i), l[i].delta) == After(comps, l, i + 1)
  {
    forall c | 0 <= c < |comps| ensures Total(l[..i + 1], c) == Total(l[..i], c) + At(l[i].delta, c) {
      assert l[..i + 1] == l[..i] + [l[i]];
      Pushed(l[..i], l[i], Everywhere(c));
    }
  }

  // ----- what the stretches stand for

  lemma {:induction false} PassedNone(l: seq<Intersection>, x: real, c: nat)
    requires forall i :: 0 <= i < |l| ==> x < l[i].x
    ensures Passed(l, x, c) == 0
  {
    if l != [] { PassedNone(l[..|l| - 1], x, c); }
  }

  lemma PassedWithin(l: seq<Intersection>, k: nat, x: real, c: nat)
    requires Sorted(l) && Within(l, k, x)
    ensures Passed(l, x, c) == Total(l[..k], c)
  {
    var m, n := l[..k], l[k..];
    forall i | 0 <= i < |m| ensures m[i].x < x {
      assert l[i].x <= l[k - 1].x;
    }
    forall i | 0 <= i < |n| ensures x < n[i].x {
      assert n[i] == l[k + i] && l[k].x <= l[k + i].x;
    }
    hide Sorted, Within;
    assert l == m + n;
    Joined(m, n, LeftOf(x, c));
    PassedAll(m, x, c);
    PassedNone(n, x, c);
  }

  lemma {:induction false} FindStretch(l: seq<Intersection>, x: real, n: nat) returns (k: nat)
    requires Sorted(l) && !Breaks(l, x) && n <= |l| && (n < |l| ==> x < l[n].x)
    ensures Within(l, k, x)
  {
    if n == 0 || l[n - 1].x < x {
      k := n;
    } else {
      k := FindStretch(l, x, n - 1);
    }
  }

  lemma SameBreaks(l: seq<Intersection>, m: seq<Intersection>, x: real)
    requires multiset(l) == multiset(m) && Breaks(l, x)
    ensures Breaks(m, x)
  {
    var i :| 0 <= i < |l| && l[i].x == x;
    assert l[i] in multiset(m);
    assert l[i] in m;
  }

  /** Within a stretch the swept counts are what rescoring selects. */
  lemma StretchIsRight(d: Corpus, origin: seq<real>, dir: seq<real>, comps: Comps, l: seq<Intersection>, m: seq<Intersection>, k: nat, x: real)
    requires Collected(d, origin, dir, |d.sents|, comps, l) && multiset(l) == multiset(m) && Sorted(m)
    requires Within(m, k, x)
    ensures After(comps, m, k) == SlowComps(d, PointAt(origin, dir, x, d.dim))
  {
    assert !Breaks(m, x);
    if Breaks(l, x) { SameBreaks(l, m, x); }
    assert AgreesAt(d, origin, dir, |d.sents|, comps, l, x);
    forall c | 0 <= c < d.width
      ensures comps[c] + Total(m[..k], c) == BestSum(d, PointAt(origin, dir, x, d.dim), c, |d.sents|)
    {
      PassedWithin(m, k, x, c);
      Permuted(l, m, LeftOf(x, c));
    }
  }

  /** No point that is not a breakpoint scores better than the sweep's best. */
  lemma SweptBest(d: Corpus, origin: seq<real>, dir: seq<real>, comps: Comps, l: seq<Intersection>, m: seq<Intersection>,
                  score: Comps -> real, k: nat, x: real)
    requires Collected(d, origin, dir, |d.sents|, comps, l) && multiset(l) == multiset(m) && Sorted(m)
    requires FirstBestStretch(comps, m, score, k) && !Breakpoint(d, origin, dir, x)
    ensures score(SlowComps(d, PointAt(origin, dir, x, d.dim))) <= score(After(comps, m, k))
  {
    if Breaks(m, x) { SameBreaks(m, l, x); }
    var j := FindStretch(m, x, |m|);
    StretchIsRight(d, origin, dir, comps, l, m, j, x);
  }

  lemma {:induction false} TwiceHere(l: seq<Intersection>, i: nat, x: real)
    requires 0 < i < |l| && l[i - 1].x == l[i].x == x
    ensures Sum(l, Here(x)) >= 2
  {
    assert l == l[..i + 1] + l[i + 1..];
    Joined(l[..i + 1], l[i + 1..], Here(x));
    assert l[..i + 1] == l[..i] + [l[i]];
    Pushed(l[..i], l[i], Here(x));
    assert l[..i] == l[..i - 1] + [l[i - 1]];
    Pushed(l[..i - 1], l[i - 1], Here(x));
    HereIsCount(l[..i - 1], x);
    HereIsCount(l[i + 1..], x);
  }

  lemma {:induction false} HereIsCount(l: seq<Intersection>, x: real)
    ensures Sum(l, Here(x)) >= 0
  {
    if l != [] { HereIsCount(l[..|l| - 1], x); }
  }

  /** Unless two sentences change at one point, the picked point lies within
      the stretch it was picked for. */
  lemma PickIsWithin(d: Corpus, origin: seq<real>, dir: seq<real>, comps: Comps, l: seq<Intersection>, m: seq<Intersection>, k: nat)
    requires Collected(d, origin, dir, |d.sents|, comps, l) && multiset(l) == multiset(m) && Sorted(m) && k <= |m|
    requires !Within(m, k, Pick(m, k))
    ensures !Separate(d, origin, dir) && Breakpoint(d, origin, dir, Pick(m, k))
  {
    assert 0 < k < |m| && m[k - 1].x == m[k].x == Pick(m, k);
    TwiceHere(m, k, m[k].x);
    Permuted(l, m, Here(m[k].x));
    assert Breaks(m, m[k].x);
    SameBreaks(m, l, m[k].x);
  }

  // ----- the search along a line

  /** Far-left counts and changes of all sentences. */
  method Collect(d: Corpus, origin: seq<real>, dir: seq<real>) returns (comps: Comps, inters: seq<Intersection>)
    ensures Collected(d, origin, dir, |d.sents|, comps, inters)
  {
    comps := seq(d.width, _ => 0);
    inters := [];
    NoSentence(d, origin, dir, comps);
    hide Collected;
    for s := 0 to |d.sents|
      invariant Collected(d, origin, dir, s, comps, inters)
    {
      if d.sents[s] == [] {
        EmptySentence(d, origin, dir, s, comps, inters);
      } else {
        LinesShaped(d, origin, dir, s);
        var start, l := Scan(LinesOf(origin, dir, d.sents[s]), CompsOf(d.sents[s]), d.width);
        NextSentence(d, origin, dir, s, comps, inters, start, l);
        comps := Plus(comps, d.sents[s][start].comps);
        inters := inters + l;
      }
    }
  }

  /** No point of the line that is not a breakpoint scores above `v`. */
  ghost predicate LineBest(d: Corpus, score: Comps -> real, origin: seq<real>, dir: seq<real>, v: real) {
    forall x :: !Breakpoint(d, origin, dir, x) ==> score(SlowComps(d, PointAt(origin, dir, x, d.dim))) <= v
  }

  /** The score is what rescoring every candidate at the point gives. */
  ghost predicate TrueScore(d: Corpus, score: Comps -> real, p: Point) {
    p.score == Some(score(SlowComps(d, p.weights)))
  }

  /** The point is on the line, and its score is true unless it is a
      breakpoint, which it is only if two sentences change there. */
  ghost predicate OnLine(d: Corpus, score: Comps -> real, origin: seq<real>, dir: seq<real>, p: Point) {
    exists x :: p.weights == PointAt(origin, dir, x, d.dim)
      && (Separate(d, origin, dir) ==> !Breakpoint(d, origin, dir, x))
      && (!Breakpoint(d, origin, dir, x) ==> TrueScore(d, score, p))
  }

  lemma SweptIsOnLine(d: Corpus, origin: seq<real>, dir: seq<real>, comps: Comps, l: seq<Intersection>, m: seq<Intersection>,
                      score: Comps -> real, k: nat, p: Point)
    requires Collected(d, origin, dir, |d.sents|, comps, l) && multiset(l) == multiset(m) && Sorted(m) && k <= |m|
    requires p == Point(PointAt(origin, dir, Pick(m, k), d.dim), Some(score(After(comps, m, k))))
    ensures OnLine(d, score, origin, dir, p)
  {
    var x := Pick(m, k);
    if Within(m, k, x) {
      StretchIsRight(d, origin, dir, comps, l, m, k, x);
      assert !Breaks(m, x);
      if Breaks(l, x) { SameBreaks(l, m, x); }
      assert !Breakpoint(d, origin, dir, x);
    } else {
      PickIsWithin(d, origin, dir, comps, l, m, k);
    }
  }

  /** The origin if it scores more than the stretch after `k` changes, else
      the point picked for that stretch. */
  function Reported(score: Comps -> real, origin: Point, dir: seq<real>, dim: nat, comps: Comps, m: seq<Intersection>, k: nat): Point
    requires k <= |m|
  {
    if origin.score.Some? && score(After(comps, m, k)) < origin.score.value then origin
    else Point(PointAt(origin.weights, dir, Pick(m, k), dim), Some(score(After(comps, m, k))))
  }

  /** A best point on the line through the origin, or the origin itself: what
      is reported for the first best stretch of the sorted changes `m`. */
  method LineOptimize(d: Corpus, score: Comps -> real, origin: Point, dir: seq<real>)
    returns (p: Point, scored: Point, ghost comps: Comps, ghost l: seq<Intersection>, ghost m: seq<Intersection>, ghost k: nat)
    ensures scored.weights == origin.weights
    ensures if origin.score.Some? then scored == origin else TrueScore(d, score, scored)
    ensures p.score.Some? && scored.score.Some? && scored.score.value <= p.score.value
    ensures LineBest(d, score, origin.weights, dir, p.score.value)
    ensures p == scored || OnLine(d, score, origin.weights, dir, p)
    ensures Collected(d, origin.weights, dir, |d.sents|, comps, l) && multiset(l) == multiset(m) && Sorted(m)
    ensures FirstBestStretch(comps, m, score, k) && p == Reported(score, scored, dir, d.dim, comps, m, k)
  {
    scored := origin;
    if origin.score.None? {
      var s := SlowBleu(d, origin.weights, score);
      scored := Point(origin.weights, Some(s));
    }
    var found, inters := Collect(d, origin.weights, dir);
    var inOrder := Sort(inters);
    var bestScore, bestX;
    bestScore, bestX, k := Sweep(found, inOrder, score);
    comps, l, m := found, inters, inOrder;
    FirstBestWithin(comps, m, score, k);
    hide Collected, Breakpoint, Sorted, FirstBestStretch;
    forall x | !Breakpoint(d, origin.weights, dir, x)
      ensures score(SlowComps(d, PointAt(origin.weights, dir, x, d.dim))) <= bestScore
    {
      SweptBest(d, origin.weights, dir, comps, l, m, score, k, x);
    }
    p := Point(PointAt(origin.weights, dir, bestX, d.dim), Some(bestScore));
    SweptIsOnLine(d, origin.weights, dir, comps, l, m, score, k, p);
    if bestScore < scored.score.value {
      p := scored;
    }
  }

  lemma FirstBestWithin(comps: Comps, l: seq<Intersection>, score: Comps -> real, k: nat)
    requires FirstBestStretch(comps, l, score, k)
    ensures k <= |l|
  {
  }

  /** With no point shared by two sentences, a true starting score leads to a
      true score. */
  lemma SeparateIsTrue(d: Corpus, score: Comps -> real, origin: Point, dir: seq<real>, p: Point)
    requires Separate(d, origin.weights, dir) && (p == origin || OnLine(d, score, origin.weights, dir, p))
    requires TrueScore(d, score, origin)
    ensures TrueScore(d, score, p)
  {
  }
}
