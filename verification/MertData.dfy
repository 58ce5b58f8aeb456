/** Candidate translations as feature vectors, and the component counts that
    rescoring them at a point selects. */
module MertData {
  import opened Vectors
  import opened MertLines
  import opened MertScan

  datatype Candidate = Candidate(features: seq<real>, comps: Comps)

  /** Sentences with their candidates, the number of features and of
      component counts. */
  datatype Lists = Lists(sents: seq<seq<Candidate>>, dim: nat, width: nat)

  predicate Uniform(d: Lists) {
    forall s, i :: 0 <= s < |d.sents| && 0 <= i < |d.sents[s]| ==>
      |d.sents[s][i].features| == d.dim && |d.sents[s][i].comps| == d.width
  }

  type Corpus = d: Lists | Uniform(d) witness Lists([], 0, 0)

  /** The point at distance `x` from the origin in a direction. */
  function PointAt(origin: seq<real>, dir: seq<real>, x: real, dim: nat): (w: seq<real>)
    ensures |w| == dim && forall i :: 0 <= i < dim ==> w[i] == Co(dir, i) * x + Co(origin, i)
  {
    seq(dim, i requires 0 <= i < dim => Co(dir, i) * x + Co(origin, i))
  }

  function LineOf(origin: seq<real>, dir: seq<real>, c: Candidate): Line {
    Line(Dot(dir, c.features, |c.features|), Dot(origin, c.features, |c.features|))
  }

  function LinesOf(origin: seq<real>, dir: seq<real>, sent: seq<Candidate>): (ls: seq<Line>)
    ensures |ls| == |sent| && forall i :: 0 <= i < |sent| ==> ls[i] == LineOf(origin, dir, sent[i])
  {
    seq(|sent|, i requires 0 <= i < |sent| => LineOf(origin, dir, sent[i]))
  }

  function CompsOf(sent: seq<Candidate>): (cs: seq<Comps>)
    ensures |cs| == |sent| && forall i :: 0 <= i < |sent| ==> cs[i] == sent[i].comps
  {
    seq(|sent|, i requires 0 <= i < |sent| => sent[i].comps)
  }

  /** A candidate's model score at a point. */
  function ValueAt(w: seq<real>, c: Candidate): real {
    Dot(w, c.features, |c.features|)
  }

  /** A candidate's value on the line is its line's. */
  lemma {:induction false} DotOnLine(origin: seq<real>, dir: seq<real>, x: real, dim: nat, f: seq<real>, k: nat)
    requires k <= |f| <= dim
    ensures Dot(PointAt(origin, dir, x, dim), f, k) == Dot(dir, f, k) * x + Dot(origin, f, k)
  {
    if k > 0 {
      DotOnLine(origin, dir, x, dim, f, k - 1);
      var d, o, g := Co(dir, k - 1), Co(origin, k - 1), f[k - 1];
      assert (d * x + o) * g == (d * g) * x + o * g;
      assert (Dot(dir, f, k - 1) + d * g) * x == Dot(dir, f, k - 1) * x + (d * g) * x;
    }
  }

  /** The first of the highest among the first `k` candidates at a point. */
  function BestUpTo(w: seq<real>, sent: seq<Candidate>, k: nat): (b: nat)
    requires 0 < k <= |sent|
    ensures b < k
    ensures forall i :: 0 <= i < k ==> ValueAt(w, sent[i]) <= ValueAt(w, sent[b])
    ensures forall i :: 0 <= i < b ==> ValueAt(w, sent[i]) < ValueAt(w, sent[b])
  {
    if k == 1 then 0
    else
      var b := BestUpTo(w, sent, k - 1);
      if ValueAt(w, sent[k - 1]) > ValueAt(w, sent[b]) then k - 1 else b
  }

  /** Sum of one component over the best candidates of the first `s` sentences
      that have any. */
  function BestSum(d: Lists, w: seq<real>, c: nat, s: nat): int
    requires s <= |d.sents|
  {
    if s == 0 then 0
    else
      BestSum(d, w, c, s - 1)
      + (if d.sents[s - 1] == [] then 0 else At(d.sents[s - 1][BestUpTo(w, d.sents[s - 1], |d.sents[s - 1]|)].comps, c))
  }

  /** The component counts that rescoring all candidates at a point selects. */
  function SlowComps(d: Lists, w: seq<real>): (r: Comps)
    ensures |r| == d.width && forall c :: 0 <= c < d.width ==> r[c] == BestSum(d, w, c, |d.sents|)
  {
    seq(d.width, c requires 0 <= c < d.width => BestSum(d, w, c, |d.sents|))
  }

  method SlowBleu(d: Corpus, w: seq<real>, score: Comps -> real) returns (r: real)
    ensures r == score(SlowComps(d, w))
  {
    var comps: Comps := seq(d.width, _ => 0);
    for s := 0 to |d.sents|
      invariant |comps| == d.width && forall c :: 0 <= c < d.width ==> comps[c] == BestSum(d, w, c, s)
    {
      var cands := d.sents[s];
      if cands != [] {
        var best := 0;
        var bestP := ValueAt(w, cands[0]);
        for i := 1 to |cands|
          invariant best == BestUpTo(w, cands, i) && bestP == ValueAt(w, cands[best])
        {
          var p := ValueAt(w, cands[i]);
          if p > bestP {
            bestP, best := p, i;
          }
        }
        comps := Plus(comps, cands[best].comps);
      }
    }
    assert comps == SlowComps(d, w);
    r := score(comps);
  }

  // ----- along a line

  /** At `x` two candidates of sentence `s` with different slopes are both best. */
  ghost predicate CornerOf(d: Lists, origin: seq<real>, dir: seq<real>, s: nat, x: real) {
    s < |d.sents| && d.sents[s] != [] && Corner(LinesOf(origin, dir, d.sents[s]), x)
  }

  /** The best candidate of one of the first `n` sentences changes at `x`. */
  ghost predicate BreaksBefore(d: Lists, origin: seq<real>, dir: seq<real>, n: nat, x: real) {
    exists s: nat :: s < n && CornerOf(d, origin, dir, s, x)
  }

  ghost predicate Breakpoint(d: Lists, origin: seq<real>, dir: seq<real>, x: real) {
    BreaksBefore(d, origin, dir, |d.sents|, x)
  }

  /** No two sentences change their best candidates at the same point. */
  ghost predicate Separate(d: Lists, origin: seq<real>, dir: seq<real>) {
    forall s: nat, t: nat, x :: s < t && CornerOf(d, origin, dir, s, x) ==> !CornerOf(d, origin, dir, t, x)
  }

  /** The first best line is the candidate that rescoring selects. */
  lemma BestIsFirstBest(d: Corpus, origin: seq<real>, dir: seq<real>, s: nat, x: real)
    requires s < |d.sents| && d.sents[s] != []
    ensures FirstBest(LinesOf(origin, dir, d.sents[s]), x, BestUpTo(PointAt(origin, dir, x, d.dim), d.sents[s], |d.sents[s]|))
  {
    var sent, w := d.sents[s], PointAt(origin, dir, x, d.dim);
    forall i | 0 <= i < |sent| ensures ValueAt(w, sent[i]) == Val(LinesOf(origin, dir, sent)[i], x) {
      DotOnLine(origin, dir, x, d.dim, sent[i].features, |sent[i].features|);
    }
  }

  lemma LinesShaped(d: Corpus, origin: seq<real>, dir: seq<real>, s: nat)
    requires s < |d.sents| && d.sents[s] != []
    ensures Shaped(LinesOf(origin, dir, d.sents[s]), CompsOf(d.sents[s]), d.width)
  {
  }

  /** At any other point of the line the first `n` sentences' counts are what
      is collected at the far left and the changes passed since. */
  ghost predicate AgreesAt(d: Lists, origin: seq<real>, dir: seq<real>, n: nat, comps: Comps, l: seq<Intersection>, x: real)
    requires |comps| == d.width && n <= |d.sents|
  {
    forall c :: 0 <= c < d.width ==>
      comps[c] + Passed(l, x, c) == BestSum(d, PointAt(origin, dir, x, d.dim), c, n)
  }

  /** All changes of the first `n` sentences have been collected. */
  ghost predicate Collected(d: Lists, origin: seq<real>, dir: seq<real>, n: nat, comps: Comps, l: seq<Intersection>) {
    && |comps| == d.width && n <= |d.sents|
    && (forall i :: 0 <= i < |l| ==> |l[i].delta| == d.width)
    && (forall x :: Breaks(l, x) <==> BreaksBefore(d, origin, dir, n, x))
    && (forall x :: !Breaks(l, x) ==> AgreesAt(d, origin, dir, n, comps, l, x))
    && (Separate(d, origin, dir) ==> forall x :: Sum(l, Here(x)) <= 1)
  }

  lemma {:induction false} NotHere(l: seq<Intersection>, x: real)
    requires !Breaks(l, x)
    ensures Sum(l, Here(x)) == 0
  {
    if l != [] {
      var m := l[..|l| - 1];
      forall i | 0 <= i < |m| ensures m[i].x != x { assert l[i] == m[i]; }
      NotHere(m, x);
      assert l[|l| - 1].x != x;
    }
  }

  lemma {:induction false} HereOnce(l: seq<Intersection>, x: real)
    requires Increasing(l)
    ensures 0 <= Sum(l, Here(x)) <= 1
  {
    if l != [] {
      var m := l[..|l| - 1];
      HereOnce(m, x);
      if l[|l| - 1].x == x {
        assert !Breaks(m, x);
        NotHere(m, x);
      }
    }
  }

  lemma NoSentence(d: Corpus, origin: seq<real>, dir: seq<real>, comps: Comps)
    requires |comps| == d.width && forall c :: 0 <= c < d.width ==> comps[c] == 0
    ensures Collected(d, origin, dir, 0, comps, [])
  {
  }

  lemma EmptySentence(d: Corpus, origin: seq<real>, dir: seq<real>, n: nat, comps: Comps, l: seq<Intersection>)
    requires n < |d.sents| && d.sents[n] == [] && Collected(d, origin, dir, n, comps, l)
    ensures Collected(d, origin, dir, n + 1, comps, l)
  {
    hide Uniform;
    forall x ensures BreaksBefore(d, origin, dir, n, x) <==> BreaksBefore(d, origin, dir, n + 1, x) {
      assert !CornerOf(d, origin, dir, n, x);
    }
    forall x | !Breaks(l, x) ensures AgreesAt(d, origin, dir, n + 1, comps, l, x) {
      assert AgreesAt(d, origin, dir, n, comps, l, x);
    }
  }

  lemma JoinedBreaks(l: seq<Intersection>, m: seq<Intersection>, x: real)
    ensures Breaks(l + m, x) <==> Breaks(l, x) || Breaks(m, x)
  {
    if i :| 0 <= i < |l| && l[i].x == x { assert (l + m)[i].x == x; }
    if i :| 0 <= i < |m| && m[i].x == x { assert (l + m)[|l| + i].x == x; }
  }

  /** The traced breaks of a sentence are its corners. */
  lemma TracedBreaks(d: Corpus, origin: seq<real>, dir: seq<real>, s: nat, start: nat, m: seq<Intersection>, x: real)
    requires s < |d.sents| && d.sents[s] != [] && start < |d.sents[s]|
    requires Shaped(LinesOf(origin, dir, d.sents[s]), CompsOf(d.sents[s]), d.width)
    requires Traces(LinesOf(origin, dir, d.sents[s]), CompsOf(d.sents[s]), d.width, start, m)
    ensures Breaks(m, x) <==> CornerOf(d, origin, dir, s, x)
  {
  }

  lemma TracedSum(d: Corpus, origin: seq<real>, dir: seq<real>, s: nat, start: nat, m: seq<Intersection>, x: real, c: nat)
    requires s < |d.sents| && d.sents[s] != [] && start < |d.sents[s]| && c < d.width
    requires Shaped(LinesOf(origin, dir, d.sents[s]), CompsOf(d.sents[s]), d.width)
    requires TracesAt(LinesOf(origin, dir, d.sents[s]), CompsOf(d.sents[s]), d.width, start, m, x)
    ensures var w := PointAt(origin, dir, x, d.dim);
            BestSum(d, w, c, s + 1) == BestSum(d, w, c, s) + d.sents[s][start].comps[c] + Passed(m, x, c)
  {
    BestIsFirstBest(d, origin, dir, s, x);
  }

  /** Adding one sentence's far-left candidate and its list. */
  lemma NextSentence(d: Corpus, origin: seq<real>, dir: seq<real>, n: nat, comps: Comps, l: seq<Intersection>,
                     start: nat, m: seq<Intersection>)
    requires n < |d.sents| && d.sents[n] != [] && start < |d.sents[n]| && Collected(d, origin, dir, n, comps, l)
    requires Shaped(LinesOf(origin, dir, d.sents[n]), CompsOf(d.sents[n]), d.width)
    requires Traces(LinesOf(origin, dir, d.sents[n]), CompsOf(d.sents[n]), d.width, start, m)
    ensures Collected(d, origin, dir, n + 1, Plus(comps, d.sents[n][start].comps), l + m)
  {
    hide CornerOf, Breaks, PointAt, LinesOf, CompsOf, BestSum;
    var comps' := Plus(comps, d.sents[n][start].comps);
    forall x
      ensures Breaks(l + m, x) <==> Breaks(l, x) || Breaks(m, x)
      ensures Breaks(m, x) <==> CornerOf(d, origin, dir, n, x)
    {
      JoinedBreaks(l, m, x);
      TracedBreaks(d, origin, dir, n, start, m, x);
    }
    forall x ensures Breaks(l + m, x) <==> BreaksBefore(d, origin, dir, n + 1, x) {
      assert BreaksBefore(d, origin, dir, n + 1, x) <==> BreaksBefore(d, origin, dir, n, x) || CornerOf(d, origin, dir, n, x);
    }
    forall x | !Breaks(l + m, x) ensures AgreesAt(d, origin, dir, n + 1, comps', l + m, x) {
      assert AgreesAt(d, origin, dir, n, comps, l, x);
      forall c | 0 <= c < d.width
        ensures comps'[c] + Passed(l + m, x, c) == BestSum(d, PointAt(origin, dir, x, d.dim), c, n + 1)
      {
        TracedSum(d, origin, dir, n, start, m, x, c);
        Joined(l, m, LeftOf(x, c));
      }
    }
    if Separate(d, origin, dir) {
      forall x ensures Sum(l + m, Here(x)) <= 1 {
        Joined(l, m, Here(x));
        HereOnce(m, x);
        if !Breaks(m, x) { NotHere(m, x); }
        if !Breaks(l, x) { NotHere(l, x); }
      }
    }
  }
}
