/** Tracing the upper envelope of one sentence's candidates, as a list of
    points where the first best candidate's component counts change. */
module MertScan {
  import opened MertLines

  /** Component counts change by `delta` when the point passes `x`. */
  datatype Intersection = Intersection(x: real, delta: seq<int>)

  type Comps = seq<int>

  function Plus(a: Comps, b: Comps): (r: Comps)
    ensures |r| == |a| && forall c :: 0 <= c < |a| ==> r[c] == a[c] + (if c < |b| then b[c] else 0)
  {
    seq(|a|, c requires 0 <= c < |a| => a[c] + (if c < |b| then b[c] else 0))
  }

  function Minus(a: Comps, b: Comps): (r: Comps)
    ensures |r| == |a| && forall c :: 0 <= c < |a| ==> r[c] == a[c] - (if c < |b| then b[c] else 0)
  {
    seq(|a|, c requires 0 <= c < |a| => a[c] - (if c < |b| then b[c] else 0))
  }

  function At(a: Comps, c: nat): int {
    if c < |a| then a[c] else 0
  }

  /** What to add up over a list: one component's changes left of a point,
      all of them, or the entries at a point. */
  datatype Probe = LeftOf(x: real, c: nat) | Everywhere(c: nat) | Here(x: real)

  function Weigh(i: Intersection, p: Probe): int {
    match p
    case LeftOf(x, c) => if i.x < x then At(i.delta, c) else 0
    case Everywhere(c) => At(i.delta, c)
    case Here(x) => if i.x == x then 1 else 0
  }

  function Sum(l: seq<Intersection>, p: Probe): int {
    if l == [] then 0 else Sum(l[..|l| - 1], p) + Weigh(l[|l| - 1], p)
  }

  /** Sum of one component's changes left of `x`. */
  function Passed(l: seq<Intersection>, x: real, c: nat): int {
    Sum(l, LeftOf(x, c))
  }

  function Total(l: seq<Intersection>, c: nat): int {
    Sum(l, Everywhere(c))
  }

  predicate Breaks(l: seq<Intersection>, x: real) {
    exists i :: 0 <= i < |l| && l[i].x == x
  }

  predicate Increasing(l: seq<Intersection>) {
    forall i, j :: 0 <= i < j < |l| ==> l[i].x < l[j].x
  }

  lemma {:induction false} PassedAll(l: seq<Intersection>, x: real, c: nat)
    requires forall i :: 0 <= i < |l| ==> l[i].x < x
    ensures Passed(l, x, c) == Total(l, c)
  {
    if l != [] { PassedAll(l[..|l| - 1], x, c); }
  }

  lemma Pushed(l: seq<Intersection>, i: Intersection, p: Probe)
    ensures Sum(l + [i], p) == Sum(l, p) + Weigh(i, p)
  {
    assert (l + [i])[..|l|] == l;
  }

  lemma {:induction false} Joined(l: seq<Intersection>, m: seq<Intersection>, p: Probe)
    ensures Sum(l + m, p) == Sum(l, p) + Sum(m, p)
  {
    if m == [] {
      assert l + m == l;
    } else {
      assert (l + m)[..|l + m| - 1] == l + m[..|m| - 1];
      Joined(l, m[..|m| - 1], p);
    }
  }

  lemma OneLess<T>(l: seq<T>, m: seq<T>, k: nat)
    requires multiset(l) == multiset(m) && l != [] && k < |m| && m[k] == l[|l| - 1]
    ensures multiset(l[..|l| - 1]) == multiset(m[..k] + m[k + 1..])
  {
    assert l == l[..|l| - 1] + [m[k]];
    assert m == m[..k] + [m[k]] + m[k + 1..];
    Cancel(multiset(l[..|l| - 1]), multiset(m[..k] + m[k + 1..]), m[k]);
  }

  lemma Cancel<T>(a: multiset<T>, b: multiset<T>, e: T)
    requires a + multiset{e} == b + multiset{e}
    ensures a == b
  {
    assert a == (a + multiset{e}) - multiset{e};
  }

  /** Sums do not depend on the order of the list. */
  lemma {:induction false} Permuted(l: seq<Intersection>, m: seq<Intersection>, p: Probe)
    requires multiset(l) == multiset(m)
    ensures Sum(l, p) == Sum(m, p)
    decreases |l|
  {
    if l == [] {
      assert |multiset(m)| == 0;
    } else {
      var e := l[|l| - 1];
      assert e in multiset(m);
      var k: nat :| 0 <= k < |m| && m[k] == e;
      OneLess(l, m, k);
      Permuted(l[..|l| - 1], m[..k] + m[k + 1..], p);
      Taken(m, k, p);
    }
  }

  lemma Taken(m: seq<Intersection>, k: nat, p: Probe)
    requires k < |m|
    ensures Sum(m, p) == Sum(m[..k] + m[k + 1..], p) + Weigh(m[k], p)
  {
    Joined(m[..k], m[k + 1..], p);
    Joined(m[..k] + [m[k]], m[k + 1..], p);
    Pushed(m[..k], m[k], p);
    assert m == m[..k] + [m[k]] + m[k + 1..];
  }

  // ----- one sentence

  /** Candidates as lines with component counts of one width. */
  predicate Shaped(ls: seq<Line>, comps: seq<Comps>, n: nat) {
    |comps| == |ls| > 0 && forall i :: 0 <= i < |comps| ==> |comps[i]| == n
  }

  /** At `x` the changes so far lead from the far-left candidate's counts to
      the first best candidate's counts. */
  predicate TracesAt(ls: seq<Line>, comps: seq<Comps>, n: nat, start: nat, l: seq<Intersection>, x: real)
    requires Shaped(ls, comps, n) && start < |ls|
  {
    forall k, c :: 0 <= k < |ls| && 0 <= c < n && FirstBest(ls, x, k) ==> comps[start][c] + Passed(l, x, c) == comps[k][c]
  }

  /** The list traces the whole envelope, and breaks exactly at its corners. */
  ghost predicate Traces(ls: seq<Line>, comps: seq<Comps>, n: nat, start: nat, l: seq<Intersection>)
    requires Shaped(ls, comps, n) && start < |ls|
  {
    && Increasing(l)
    && (forall i :: 0 <= i < |l| ==> |l[i].delta| == n && Corner(ls, l[i].x))
    && (forall x :: !Breaks(l, x) ==> TracesAt(ls, comps, n, start, l, x) && !Corner(ls, x))
  }

  /** The scan so far: line `k` has been reached, and the list is right left
      of there. */
  ghost predicate Scanned(ls: seq<Line>, comps: seq<Comps>, n: nat, start: nat, l: seq<Intersection>, k: nat, px: real)
    requires Shaped(ls, comps, n) && start < |ls|
  {
    && Reached(ls, k, l == [], px) && Increasing(l)
    && (l != [] ==> l[|l| - 1].x == px)
    && (forall i :: 0 <= i < |l| ==> |l[i].delta| == n && Corner(ls, l[i].x))
    && (forall c :: 0 <= c < n ==> comps[start][c] + Total(l, c) == comps[k][c])
    && (forall x :: x < px && l != [] && !Breaks(l, x) ==> TracesAt(ls, comps, n, start, l, x) && !Corner(ls, x))
  }

  /** Right of where it was reached, line `k` stays traced until crossed. */
  lemma TracesHere(ls: seq<Line>, comps: seq<Comps>, n: nat, start: nat, l: seq<Intersection>, k: nat, px: real, x: real)
    requires Shaped(ls, comps, n) && start < |ls| && Scanned(ls, comps, n, start, l, k, px)
    requires (l != [] ==> px < x) && FirstBest(ls, x, k)
    ensures TracesAt(ls, comps, n, start, l, x)
  {
    forall j, c | 0 <= j < |ls| && 0 <= c < n && FirstBest(ls, x, j)
      ensures comps[start][c] + Passed(l, x, c) == comps[j][c]
    {
      FirstBestIsUnique(ls, x, j, k);
      PassedAll(l, x, c);
    }
  }

  /** The list's changes when line `k` is crossed by line `r`:
      a new entry, or the last one replaced when it is not to the left. */
  function Crossed(l: seq<Intersection>, q: real, delta: Comps): seq<Intersection> {
    if l == [] || q - l[|l| - 1].x > 0.0 then l + [Intersection(q, delta)]
    else l[..|l| - 1] + [Intersection(q, Plus(delta, l[|l| - 1].delta))]
  }

  /** The crossing changes the sums only right of it. */
  lemma CrossedSums(l: seq<Intersection>, q: real, delta: Comps, n: nat, x: real, c: nat)
    requires |delta| == n && (forall i :: 0 <= i < |l| ==> |l[i].delta| == n) && c < n
    requires l != [] ==> l[|l| - 1].x <= q
    ensures Passed(Crossed(l, q, delta), x, c) == Passed(l, x, c) + (if q < x then delta[c] else 0)
    ensures Total(Crossed(l, q, delta), c) == Total(l, c) + delta[c]
  {
    var i := Intersection(q, if l == [] || q - l[|l| - 1].x > 0.0 then delta else Plus(delta, l[|l| - 1].delta));
    var l0 := if l == [] || q - l[|l| - 1].x > 0.0 then l else l[..|l| - 1];
    Pushed(l0, i, LeftOf(x, c));
    Pushed(l0, i, Everywhere(c));
  }

  lemma CrossedShape(l: seq<Intersection>, q: real, delta: Comps)
    requires Increasing(l) && (l != [] ==> l[|l| - 1].x <= q)
    ensures Increasing(Crossed(l, q, delta)) && Crossed(l, q, delta) != []
    ensures Crossed(l, q, delta)[|Crossed(l, q, delta)| - 1].x == q
    ensures forall x :: Breaks(Crossed(l, q, delta), x) <==> Breaks(l, x) || x == q
    ensures |Crossed(l, q, delta)| >= |l| && forall i :: 0 <= i < |l| ==> Crossed(l, q, delta)[i].x == l[i].x
  {
    var l' := Crossed(l, q, delta);
    assert l'[|l'| - 1].x == q;
    forall x ensures Breaks(l', x) <==> Breaks(l, x) || x == q {
      if i :| 0 <= i < |l| && l[i].x == x { assert l'[i].x == x; }
    }
  }

  /** One crossing keeps the scan right. */
  lemma CrossingKeeps(ls: seq<Line>, comps: seq<Comps>, n: nat, start: nat, l: seq<Intersection>, k: nat, px: real, r: nat)
    requires Shaped(ls, comps, n) && start < |ls| && Scanned(ls, comps, n, start, l, k, px) && FirstToCross(ls, k, r)
    ensures var q := Meet(ls[k], ls[r]);
            Scanned(ls, comps, n, start, Crossed(l, q, Minus(comps[r], comps[k])), r, q)
  {
    var q := Meet(ls[k], ls[r]);
    var delta := Minus(comps[r], comps[k]);
    var l' := Crossed(l, q, delta);
    CrossOver(ls, k, l == [], px, r);
    CrossedShape(l, q, delta);
    assert Corner(ls, q) by {
      MeetDivides(ls[k], ls[r], q);
      assert HighestAt(ls, r, q) && HighestAt(ls, k, q);
    }
    forall x | x < q && !Breaks(l', x) ensures TracesAt(ls, comps, n, start, l', x) && !Corner(ls, x) {
      if l == [] || px < x {
        BestUntilCrossed(ls, k, l == [], px, x);
        TracesHere(ls, comps, n, start, l, k, px, x);
      } else {
        assert Breaks(l, px);
      }
      forall c | 0 <= c < n ensures Passed(l', x, c) == Passed(l, x, c) { CrossedSums(l, q, delta, n, x, c); }
    }
    forall c | 0 <= c < n ensures Total(l', c) == Total(l, c) + delta[c] { CrossedSums(l, q, delta, n, 0.0, c); }
  }

  /** At the steepest line the whole envelope has been traced. */
  lemma ScanEnds(ls: seq<Line>, comps: seq<Comps>, n: nat, start: nat, l: seq<Intersection>, k: nat, px: real)
    requires Shaped(ls, comps, n) && start < |ls| && Scanned(ls, comps, n, start, l, k, px) && Steepest(ls, k)
    ensures Traces(ls, comps, n, start, l)
  {
    assert l != [] ==> Breaks(l, px);
    forall x | !Breaks(l, x) ensures TracesAt(ls, comps, n, start, l, x) && !Corner(ls, x) {
      if l == [] || px < x {
        BestUntilCrossed(ls, k, l == [], px, x);
        TracesHere(ls, comps, n, start, l, k, px, x);
      }
    }
  }

  // ----- the scan itself

  /** The first of the highest lines for x at minus infinity. */
  method FindFlattest(ls: seq<Line>) returns (prev: nat)
    requires ls != []
    ensures FirstOfSlope(ls, prev) && Flattest(ls, prev)
  {
    prev := 0;
    for i := 0 to |ls|
      invariant prev < |ls| && (i == 0 ==> prev == 0) && (i > 0 ==> prev < i)
      invariant forall j :: 0 <= j < i ==> ls[prev].m <= ls[j].m && (ls[j].m == ls[prev].m ==> ls[j].b <= ls[prev].b)
      invariant forall j :: 0 <= j < prev && ls[j].m == ls[prev].m ==> ls[j].b < ls[prev].b
    {
      if i == 0 || ls[i].m < ls[prev].m || (ls[i].m == ls[prev].m && ls[prev].b < ls[i].b) {
        prev := i;
      }
    }
  }

  /** The line that is first to cross, if any does. */
  method FindCrossing(ls: seq<Line>, prev: nat) returns (leftmost: int, x: real)
    requires prev < |ls|
    ensures leftmost < 0 ==> Steepest(ls, prev)
    ensures leftmost >= 0 ==> FirstToCross(ls, prev, leftmost) && x == Meet(ls[prev], ls[leftmost])
  {
    leftmost, x := -1, 0.0;
    for i := 0 to |ls|
      invariant leftmost < i
      invariant leftmost < 0 ==> forall j :: 0 <= j < i ==> ls[j].m <= ls[prev].m
      invariant leftmost >= 0 ==> ls[prev].m < ls[leftmost].m && x == Meet(ls[prev], ls[leftmost])
      invariant leftmost >= 0 ==> forall j :: 0 <= j < i && ls[prev].m < ls[j].m ==> x <= Meet(ls[prev], ls[j])
      invariant leftmost >= 0 ==> forall j :: 0 <= j < leftmost && ls[prev].m < ls[j].m ==> x < Meet(ls[prev], ls[j])
    {
      if ls[prev].m == ls[i].m || ls[i].m < ls[prev].m {
        continue;
      }
      var xi := -(ls[prev].b - ls[i].b) / (ls[prev].m - ls[i].m);
      if leftmost < 0 || xi < x {
        leftmost, x := i, xi;
      }
    }
  }

  /** How many lines are steeper. */
  ghost function Steeper(ls: seq<Line>, m: real): nat {
    |set i | 0 <= i < |ls| && m < ls[i].m|
  }

  lemma FewerSteeper(ls: seq<Line>, k: nat, r: nat)
    requires k < |ls| && r < |ls| && ls[k].m < ls[r].m
    ensures Steeper(ls, ls[r].m) < Steeper(ls, ls[k].m)
  {
    var a := set i | 0 <= i < |ls| && ls[k].m < ls[i].m;
    var b := set i | 0 <= i < |ls| && ls[r].m < ls[i].m;
    assert r in a && r !in b && b <= a;
    assert |a - b| > 0 by { assert r in a - b; }
    assert |a| == |b| + |a - b| by { assert a == b + (a - b); }
  }

  /** One sentence: its best candidate at the far left and the points where
      the best candidate changes, with the changes in its counts. */
  method Scan(ls: seq<Line>, comps: seq<Comps>, n: nat) returns (start: nat, inters: seq<Intersection>)
    requires Shaped(ls, comps, n)
    ensures start < |ls| && Traces(ls, comps, n, start, inters)
  {
    start := FindFlattest(ls);
    inters := [];
    var prev: nat, px := start, 0.0;
    while true
      invariant start < |ls| && prev < |ls| && Scanned(ls, comps, n, start, inters, prev, px)
      decreases Steeper(ls, ls[prev].m)
    {
      var leftmost, x := FindCrossing(ls, prev);
      if leftmost < 0 {
        ScanEnds(ls, comps, n, start, inters, prev, px);
        break;
      }
      CrossingKeeps(ls, comps, n, start, inters, prev, px, leftmost);
      FewerSteeper(ls, prev, leftmost);
      var delta := Minus(comps[leftmost], comps[prev]);
      if inters == [] || x - px > 0.0 {
        inters := inters + [Intersection(x, delta)];
      } else {
        inters := inters[..|inters| - 1] + [Intersection(x, Plus(delta, inters[|inters| - 1].delta))];
      }
      prev, px := leftmost, x;
    }
  }
}
