/** Candidates as lines along a search direction, where two of them meet, and
    which one is the first best at a point. */
module MertLines {

  /** A candidate's score along the direction: slope and intercept. */
  datatype Line = Line(m: real, b: real)

  function Val(l: Line, x: real): real {
    l.m * x + l.b
  }

  /** Where two lines of different slope meet. */
  function Meet(l: Line, r: Line): real
    requires l.m < r.m
  {
    -(l.b - r.b) / (l.m - r.m)
  }

  lemma Gap(l: Line, r: Line, x: real)
    requires l.m < r.m
    ensures Val(r, x) - Val(l, x) == (r.m - l.m) * (x - Meet(l, r))
  {
    var d := r.m - l.m;
    var q := Meet(l, r);
    assert q * (l.m - r.m) == -(l.b - r.b);
    assert d * (x - q) == d * x - d * q;
    assert d * q == l.b - r.b;
  }

  lemma Signs(d: real, t: real)
    requires d > 0.0
    ensures t > 0.0 ==> d * t > 0.0
    ensures t < 0.0 ==> d * t < 0.0
    ensures t == 0.0 ==> d * t == 0.0
  {
    if t < 0.0 { assert d * (-t) > 0.0; }
  }

  /** The flatter line is above before they meet, the steeper one after. */
  lemma MeetDivides(l: Line, r: Line, x: real)
    requires l.m < r.m
    ensures x < Meet(l, r) <==> Val(r, x) < Val(l, x)
    ensures x == Meet(l, r) <==> Val(r, x) == Val(l, x)
  {
    Gap(l, r, x);
    Signs(r.m - l.m, x - Meet(l, r));
  }

  /** A line that is not below a line that is no steeper stays so. */
  lemma StaysAbove(l: Line, r: Line, x: real, y: real)
    requires l.m <= r.m && x <= y && Val(l, x) <= Val(r, x)
    ensures Val(l, y) <= Val(r, y)
    ensures l.m < r.m && x < y ==> Val(l, y) < Val(r, y)
  {
    if l.m < r.m {
      MeetDivides(l, r, x);
      MeetDivides(l, r, y);
    } else {
      assert l.b <= r.b;
    }
  }

  /** The first of the lines that are highest at `x`. */
  predicate FirstBest(ls: seq<Line>, x: real, k: nat) {
    && k < |ls|
    && (forall i :: 0 <= i < |ls| ==> Val(ls[i], x) <= Val(ls[k], x))
    && (forall i :: 0 <= i < k ==> Val(ls[i], x) < Val(ls[k], x))
  }

  lemma FirstBestIsUnique(ls: seq<Line>, x: real, j: nat, k: nat)
    requires FirstBest(ls, x, j) && FirstBest(ls, x, k)
    ensures j == k
  {
    assert Val(ls[j], x) == Val(ls[k], x);
  }

  /** The first of the highest among the lines of its slope. */
  predicate FirstOfSlope(ls: seq<Line>, k: nat) {
    && k < |ls|
    && (forall i :: 0 <= i < |ls| && ls[i].m == ls[k].m ==> ls[i].b <= ls[k].b)
    && (forall i :: 0 <= i < k && ls[i].m == ls[k].m ==> ls[i].b < ls[k].b)
  }

  /** No line is higher than line `k` at `x`. */
  predicate HighestAt(ls: seq<Line>, k: nat, x: real) {
    k < |ls| && forall i :: 0 <= i < |ls| ==> Val(ls[i], x) <= Val(ls[k], x)
  }

  /** Two lines of different slopes are both highest at `x`. */
  ghost predicate Corner(ls: seq<Line>, x: real) {
    exists j: nat, k: nat :: HighestAt(ls, j, x) && HighestAt(ls, k, x) && ls[j].m < ls[k].m
  }

  /** Line `k` has the least slope there is. */
  predicate Flattest(ls: seq<Line>, k: nat) {
    k < |ls| && forall i :: 0 <= i < |ls| ==> ls[k].m <= ls[i].m
  }

  /** Line `r` is the first of those that cross line `k` soonest on its right. */
  predicate FirstToCross(ls: seq<Line>, k: nat, r: nat) {
    && k < |ls| && r < |ls| && ls[k].m < ls[r].m
    && (forall i :: 0 <= i < |ls| && ls[k].m < ls[i].m ==> Meet(ls[k], ls[r]) <= Meet(ls[k], ls[i]))
    && (forall i :: 0 <= i < r && ls[k].m < ls[i].m ==> Meet(ls[k], ls[r]) < Meet(ls[k], ls[i]))
  }

  predicate Steepest(ls: seq<Line>, k: nat) {
    k < |ls| && forall i :: 0 <= i < |ls| ==> ls[i].m <= ls[k].m
  }

  /** The scan has come to line `k`: at the far left, or where the envelope
      last changed. */
  predicate Reached(ls: seq<Line>, k: nat, first: bool, px: real) {
    FirstOfSlope(ls, k) && (if first then Flattest(ls, k) else HighestAt(ls, k, px))
  }

  /** Between where it was reached and where it is next crossed, line `k` is
      the first best. */
  lemma BestUntilCrossed(ls: seq<Line>, k: nat, first: bool, px: real, x: real)
    requires Reached(ls, k, first, px) && (!first ==> px < x)
    requires Steepest(ls, k) || exists r: nat :: FirstToCross(ls, k, r) && x < Meet(ls[k], ls[r])
    ensures FirstBest(ls, x, k) && !Corner(ls, x)
  {
    forall i | 0 <= i < |ls| ensures Val(ls[i], x) <= Val(ls[k], x) {
      BestUntilCrossedAt(ls, k, first, px, x, i);
    }
    if i: nat, j: nat :| HighestAt(ls, i, x) && HighestAt(ls, j, x) && ls[i].m < ls[j].m {
      BestUntilCrossedAt(ls, k, first, px, x, i);
      BestUntilCrossedAt(ls, k, first, px, x, j);
      assert false;
    }
    forall i | 0 <= i < k ensures Val(ls[i], x) < Val(ls[k], x) {
      BestUntilCrossedAt(ls, k, first, px, x, i);
    }
  }

  lemma BestUntilCrossedAt(ls: seq<Line>, k: nat, first: bool, px: real, x: real, i: nat)
    requires Reached(ls, k, first, px) && (!first ==> px < x) && i < |ls|
    requires Steepest(ls, k) || exists r: nat :: FirstToCross(ls, k, r) && x < Meet(ls[k], ls[r])
    ensures Val(ls[i], x) <= Val(ls[k], x) && (i < k || ls[i].m != ls[k].m ==> Val(ls[i], x) < Val(ls[k], x))
  {
    if ls[i].m < ls[k].m {
      StaysAbove(ls[i], ls[k], px, x);
    } else if ls[i].m > ls[k].m {
      var r: nat :| FirstToCross(ls, k, r) && x < Meet(ls[k], ls[r]);
      MeetDivides(ls[k], ls[i], x);
    } else {
      assert ls[i].m * x == ls[k].m * x;
    }
  }

  /** Crossing over keeps the scan on the envelope, and never goes left. */
  lemma CrossOver(ls: seq<Line>, k: nat, first: bool, px: real, r: nat)
    requires Reached(ls, k, first, px) && FirstToCross(ls, k, r)
    ensures Reached(ls, r, false, Meet(ls[k], ls[r])) && (!first ==> px <= Meet(ls[k], ls[r]))
  {
    var q := Meet(ls[k], ls[r]);
    if !first { MeetDivides(ls[k], ls[r], px); }
    MeetDivides(ls[k], ls[r], q);
    forall i | 0 <= i < |ls| ensures Val(ls[i], q) <= Val(ls[r], q) {
      if ls[i].m < ls[k].m {
        StaysAbove(ls[i], ls[k], px, q);
      } else if ls[i].m > ls[k].m {
        MeetDivides(ls[k], ls[i], q);
      }
    }
    forall i | 0 <= i < |ls| && ls[i].m == ls[r].m
      ensures ls[i].b <= ls[r].b && (i < r ==> ls[i].b < ls[r].b)
    {
      MeetDivides(ls[k], ls[i], q);
      MeetDivides(ls[k], ls[i], Meet(ls[k], ls[i]));
      MeetsByHeight(ls[k], ls[i], ls[r]);
    }
  }

  /** Of two lines of one slope the higher one is met sooner. */
  lemma MeetsByHeight(l: Line, r: Line, s: Line)
    requires l.m < r.m == s.m
    ensures Meet(l, s) <= Meet(l, r) <==> r.b <= s.b
    ensures Meet(l, s) < Meet(l, r) <==> r.b < s.b
  {
    var d := s.m - l.m;
    MeetDivides(l, r, Meet(l, s));
    MeetDivides(l, s, Meet(l, s));
  }
}
