/** Coordinate-wise search by repeated line searches. */
module MertKoehn {
  import opened Wrappers
  import opened Vectors
  import opened MertLines
  import opened MertScan
  import opened MertData
  import opened Mert

  const MIN_GAIN: real := 0.000001

  /** The direction of one weight. */
  function Unit(i: nat, dim: nat): seq<real> {
    seq(dim, j => if j == i then 1.0 else 0.0)
  }

  function ScoreOf(p: Point): real {
    if p.score.Some? then p.score.value else 0.0
  }

  /** Scores are bounded, as translation quality scores are. */
  ghost predicate Bounded(score: Comps -> real, bound: real) {
    forall c :: score(c) <= bound
  }

  /** A bound on the number of rounds that gain enough. */
  function Rounds(gap: real): nat {
    if gap < 0.0 then 0 else (gap / MIN_GAIN).Floor + 1
  }

  lemma FewerRounds(gap: real, gain: real)
    requires gain >= MIN_GAIN && gap - gain >= 0.0
    ensures Rounds(gap - gain) < Rounds(gap)
  {
    assert (gap - gain) / MIN_GAIN <= gap / MIN_GAIN - 1.0;
  }

  /** The score a point has or would be given first. */
  ghost function Start(d: Corpus, score: Comps -> real, p: Point): real {
    if p.score.Some? then p.score.value else score(SlowComps(d, p.weights))
  }

  /** Line searches from the point along the first `n` weights. */
  ghost predicate Tried(d: Corpus, score: Comps -> real, bound: real, p: Point, news: seq<Point>, n: nat) {
    n <= |news| && forall j :: 0 <= j < n ==>
      && news[j].score.Some? && ScoreOf(p) <= ScoreOf(news[j]) <= bound
      && LineBest(d, score, p.weights, Unit(j, d.dim), ScoreOf(news[j]))
  }

  /** The best of the first `n` of this round, or the last round's result,
      which none of them has beaten. */
  predicate BestSoFar(p: Point, news: seq<Point>, best: int, n: nat) {
    && n <= |news| && best < |news|
    && (best < 0 ==> n == 0)
    && (best >= 0 ==> forall j :: 0 <= j < n ==> ScoreOf(news[j]) <= ScoreOf(news[best]))
    && (best >= n ==> ScoreOf(news[best]) == ScoreOf(p))
  }

  lemma NewBest(d: Corpus, score: Comps -> real, bound: real, p: Point, news: seq<Point>, best: int, n: nat, q: Point)
    requires n < |news| && Tried(d, score, bound, p, news, n) && BestSoFar(p, news, best, n)
    requires q.score.Some? && ScoreOf(p) <= ScoreOf(q) <= bound && LineBest(d, score, p.weights, Unit(n, d.dim), ScoreOf(q))
    ensures var news' := news[n := q];
            var best' := if best < 0 || ScoreOf(q) > ScoreOf(news'[best]) then n else best;
            Tried(d, score, bound, p, news', n + 1) && BestSoFar(p, news', best', n + 1)
  {
    hide LineBest;
  }

  // ----- in terms of the weights themselves

  /** No candidate of the sentence has a higher model score at the weights. */
  predicate Tops(w: seq<real>, sent: seq<Candidate>, a: nat) {
    a < |sent| && forall i :: 0 <= i < |sent| ==> ValueAt(w, sent[i]) <= ValueAt(w, sent[a])
  }

  /** Two candidates of a sentence that differ in feature `j` tie for best. */
  ghost predicate Tie(d: Corpus, w: seq<real>, j: nat)
    requires j < d.dim
  {
    exists s: nat, a: nat, b: nat {:trigger Tops(w, d.sents[s], a), Tops(w, d.sents[s], b)} ::
      s < |d.sents| && Tops(w, d.sents[s], a) && Tops(w, d.sents[s], b)
      && d.sents[s][a].features[j] != d.sents[s][b].features[j]
  }

  /** The weights with `x` added to the `j`th. */
  function Shifted(w: seq<real>, j: nat, x: real): seq<real>
    requires j < |w|
  {
    w[j := w[j] + x]
  }

  /** Changing any one weight, save to where the best candidate changes, leads
      to no score above `v`. */
  ghost predicate NoBetterAlone(d: Corpus, score: Comps -> real, w: seq<real>, v: real) {
    |w| == d.dim && forall j: nat, x {:trigger Shifted(w, j, x)} :: j < d.dim && !Tie(d, Shifted(w, j, x), j) ==>
      score(SlowComps(d, Shifted(w, j, x))) <= v
  }

  /** From one point to the next: one weight changes, the score gains at least
      the minimum, and it is true unless the best candidate changes there. */
  ghost predicate Climbs(d: Corpus, score: Comps -> real, p: Point, q: Point) {
    && |p.weights| == d.dim && p.score.Some? && q.score.Some? && q.score.value >= p.score.value + 0.000001
    && exists j: nat, x {:trigger Shifted(p.weights, j, x)} :: j < d.dim && q.weights == Shifted(p.weights, j, x)
         && (Tie(d, q.weights, j) || TrueScore(d, score, q))
  }

  /** The points taken one after the other. */
  ghost predicate Climb(d: Corpus, score: Comps -> real, path: seq<Point>) {
    forall k {:trigger Climbs(d, score, path[k], path[k + 1])} :: 0 <= k < |path| - 1 ==> Climbs(d, score, path[k], path[k + 1])
  }

  lemma {:induction false} DotUnit(j: nat, dim: nat, f: seq<real>, n: nat)
    requires n <= |f| == dim && j < dim
    ensures Dot(Unit(j, dim), f, n) == if j < n then f[j] else 0.0
  {
    if n > 0 { DotUnit(j, dim, f, n - 1); }
  }

  lemma AxisPoint(w: seq<real>, j: nat, dim: nat, x: real)
    requires |w| == dim && j < dim
    ensures PointAt(w, Unit(j, dim), x, dim) == Shifted(w, j, x)
  {
  }

  /** Where nothing ties along a weight, no best candidate changes. */
  lemma UntiedIsNoBreak(d: Corpus, w: seq<real>, j: nat, x: real)
    requires |w| == d.dim && j < d.dim && !Tie(d, Shifted(w, j, x), j)
    ensures !Breakpoint(d, w, Unit(j, d.dim), x)
  {
    AxisPoint(w, j, d.dim, x);
    if Breakpoint(d, w, Unit(j, d.dim), x) {
      var s: nat :| s < |d.sents| && CornerOf(d, w, Unit(j, d.dim), s, x);
      var ls := LinesOf(w, Unit(j, d.dim), d.sents[s]);
      var a: nat, b: nat :| HighestAt(ls, a, x) && HighestAt(ls, b, x) && ls[a].m < ls[b].m;
      HighestTops(d, w, j, s, x, a);
      HighestTops(d, w, j, s, x, b);
    }
  }

  lemma HighestTops(d: Corpus, w: seq<real>, j: nat, s: nat, x: real, a: nat)
    requires |w| == d.dim && j < d.dim && s < |d.sents| && HighestAt(LinesOf(w, Unit(j, d.dim), d.sents[s]), a, x)
    ensures Tops(Shifted(w, j, x), d.sents[s], a)
    ensures LinesOf(w, Unit(j, d.dim), d.sents[s])[a].m == d.sents[s][a].features[j]
  {
    var ls, sent, v := LinesOf(w, Unit(j, d.dim), d.sents[s]), d.sents[s], Shifted(w, j, x);
    hide Unit, Dot;
    AxisPoint(w, j, d.dim, x);
    forall i | 0 <= i < |sent| ensures ValueAt(v, sent[i]) == Val(ls[i], x) {
      DotOnLine(w, Unit(j, d.dim), x, d.dim, sent[i].features, d.dim);
    }
    DotUnit(j, d.dim, sent[a].features, d.dim);
  }

  lemma NoneBetter(d: Corpus, score: Comps -> real, w: seq<real>, v: real)
    requires |w| == d.dim && forall j :: 0 <= j < d.dim ==> LineBest(d, score, w, Unit(j, d.dim), v)
    ensures NoBetterAlone(d, score, w, v)
  {
    hide Tie, Breakpoint, Unit;
    forall j: nat, x | j < d.dim && !Tie(d, Shifted(w, j, x), j) ensures score(SlowComps(d, Shifted(w, j, x))) <= v {
      UntiedIsNoBreak(d, w, j, x);
      AxisPoint(w, j, d.dim, x);
      assert LineBest(d, score, w, Unit(j, d.dim), v);
    }
  }

  /** What a line search along a weight reports, if it gains enough. */
  lemma OneClimbs(d: Corpus, score: Comps -> real, p: Point, j: nat, q: Point)
    requires |p.weights| == d.dim && j < d.dim && p.score.Some? && q.score.Some? && q.score.value >= p.score.value + 0.000001
    requires OnLine(d, score, p.weights, Unit(j, d.dim), q)
    ensures Climbs(d, score, p, q)
  {
    hide Tie, Breakpoint, Unit, Separate;
    var x :| q.weights == PointAt(p.weights, Unit(j, d.dim), x, d.dim)
      && (!Breakpoint(d, p.weights, Unit(j, d.dim), x) ==> TrueScore(d, score, q));
    AxisPoint(p.weights, j, d.dim, x);
    if !Tie(d, q.weights, j) { UntiedIsNoBreak(d, p.weights, j, x); }
  }

  lemma ClimbOn(d: Corpus, score: Comps -> real, path: seq<Point>, q: Point)
    requires path != [] && Climb(d, score, path) && Climbs(d, score, path[|path| - 1], q)
    ensures Climb(d, score, path + [q])
  {
    hide Climbs;
    var more := path + [q];
    forall k | 0 <= k < |more| - 1 ensures Climbs(d, score, more[k], more[k + 1]) {
      if k < |path| - 1 { assert Climbs(d, score, path[k], path[k + 1]); }
    }
  }

  /** The best result of this round is what its line search reported. */
  ghost predicate Found(d: Corpus, score: Comps -> real, p: Point, news: seq<Point>, n: nat) {
    n <= |news| && forall j {:trigger FoundAt(d, score, p, news[j], j)} :: 0 <= j < n ==> FoundAt(d, score, p, news[j], j)
  }

  ghost predicate FoundAt(d: Corpus, score: Comps -> real, p: Point, q: Point, j: nat) {
    (q.weights == p.weights && q.score == p.score) || OnLine(d, score, p.weights, Unit(j, d.dim), q)
  }

  lemma FoundNext(d: Corpus, score: Comps -> real, p: Point, news: seq<Point>, n: nat, q: Point)
    requires n < |news| && Found(d, score, p, news, n) && FoundAt(d, score, p, q, n)
    ensures Found(d, score, p, news[n := q], n + 1)
  {
    hide FoundAt;
    var more := news[n := q];
    forall j | 0 <= j < n + 1 ensures FoundAt(d, score, p, more[j], j) {
      if j < n { assert FoundAt(d, score, p, news[j], j); }
    }
  }

  /** Repeats the best of the line searches along all weights until none gains
      enough. `path` has the points taken, the scored start first. */
  method OptimizeKoehn(d: Corpus, score: Comps -> real, start: Point, ghost bound: real) returns (p: Point, ghost path: seq<Point>)
    requires d.dim > 0 && Bounded(score, bound) && (start.score.Some? ==> start.score.value <= bound)
    ensures p.score.Some? && Start(d, score, start) <= p.score.value <= bound
    ensures path != [] && path[0] == Point(start.weights, Some(Start(d, score, start))) && path[|path| - 1] == p
    ensures |start.weights| == d.dim ==> Climb(d, score, path)
    ensures |start.weights| == d.dim ==> NoBetterAlone(d, score, p.weights, p.score.value + 0.000001)
  {
    hide LineBest, Climb, Climbs, FoundAt;
    p := start;
    var news: seq<Point> := seq(d.dim, _ => start);
    var best: int := -1;
    path := [Point(start.weights, Some(Start(d, score, start)))];
    NoClimb(d, score, path[0]);
    while true
      invariant |news| == d.dim && BestSoFar(p, news, best, 0) && (p.score.None? ==> best < 0)
      invariant Start(d, score, start) <= Start(d, score, p) <= bound
      invariant path != [] && path[0] == Point(start.weights, Some(Start(d, score, start)))
      invariant path[|path| - 1] == Point(p.weights, Some(Start(d, score, p)))
      invariant |start.weights| == d.dim ==> |p.weights| == d.dim && Climb(d, score, path)
      decreases Rounds(bound - Start(d, score, p))
    {
      ghost var before, w := Start(d, score, p), p.weights;
      for i := 0 to d.dim
        invariant |news| == d.dim && Start(d, score, p) == before && (if i > 0 then p.score.Some? else p.score.None? ==> best < 0)
        invariant Tried(d, score, bound, p, news, i) && BestSoFar(p, news, best, i)
        invariant p.weights == w && Found(d, score, p, news, i)
      {
        var q, scored, _, _, _, _ := LineOptimize(d, score, p, Unit(i, d.dim));
        if i == 0 && p.score.None? { NothingTried(p, scored, news, best); }
        FoundHere(d, score, p, scored, q, i);
        p := scored;
        NewBest(d, score, bound, p, news, best, i, q);
        FoundNext(d, score, p, news, i, q);
        news := news[i := q];
        if best < 0 || ScoreOf(news[i]) > ScoreOf(news[best]) {
          best := i;
        }
      }
      if news[best].score.value - p.score.value < MIN_GAIN {
        forall j | 0 <= j < d.dim ensures LineBest(d, score, p.weights, Unit(j, d.dim), p.score.value + 0.000001) {
          RaiseLineBest(d, score, p.weights, Unit(j, d.dim), ScoreOf(news[j]), p.score.value + 0.000001);
        }
        if |start.weights| == d.dim { NoneBetter(d, score, p.weights, p.score.value + 0.000001); }
        break;
      }
      FewerRounds(bound - p.score.value, news[best].score.value - p.score.value);
      assert FoundAt(d, score, p, news[best], best);
      if |start.weights| == d.dim {
        FoundClimbs(d, score, p, best, news[best]);
        ClimbOn(d, score, path, news[best]);
      }
      p := news[best];
      path := path + [p];
    }
  }

  lemma NoClimb(d: Corpus, score: Comps -> real, p: Point)
    ensures Climb(d, score, [p])
  {
  }

  lemma FoundHere(d: Corpus, score: Comps -> real, p: Point, scored: Point, q: Point, j: nat)
    requires scored.weights == p.weights && (q == scored || OnLine(d, score, p.weights, Unit(j, d.dim), q))
    ensures FoundAt(d, score, scored, q, j)
  {
  }

  /** A result that gains enough is not the point itself. */
  lemma FoundClimbs(d: Corpus, score: Comps -> real, p: Point, j: nat, q: Point)
    requires |p.weights| == d.dim && j < d.dim && p.score.Some? && q.score.Some? && q.score.value >= p.score.value + 0.000001
    requires FoundAt(d, score, p, q, j)
    ensures Climbs(d, score, p, q) && |q.weights| == d.dim
  {
    OneClimbs(d, score, p, j, q);
  }

  lemma NothingTried(p: Point, scored: Point, news: seq<Point>, best: int)
    requires BestSoFar(p, news, best, 0)
    ensures best < 0 ==> BestSoFar(scored, news, best, 0)
  {
  }

  lemma RaiseLineBest(d: Corpus, score: Comps -> real, origin: seq<real>, dir: seq<real>, v: real, w: real)
    requires LineBest(d, score, origin, dir, v) && v <= w
    ensures LineBest(d, score, origin, dir, w)
  {
  }
}
