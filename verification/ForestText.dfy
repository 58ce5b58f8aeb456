/** Forests with costs, and which deductions of an item are printed: the best
    ones, in order of cost. */
module ForestText {

  import opened ForestTokens

  // ----- keeping the best deductions

  /** A deduction with the cost of its best derivation. */
  datatype Rated = Rated(viterbi: real, ded: And)

  function Insert(x: Rated, s: seq<Rated>): (r: seq<Rated>)
    ensures multiset(r) == multiset(s) + multiset{x}
  {
    if s == [] || x.viterbi < s[0].viterbi then [x] + s
    else
      assert s == [s[0]] + s[1..];
      [s[0]] + Insert(x, s[1..])
  }

  /** In order of cost; equal costs stay in order. */
  function Sorted(s: seq<Rated>): (r: seq<Rated>)
    ensures multiset(r) == multiset(s) && |r| == |s|
  {
    if s == [] then []
    else
      assert s == s[..|s| - 1] + [s[|s| - 1]];
      var r := Insert(s[|s| - 1], Sorted(s[..|s| - 1]));
      assert |multiset(r)| == |multiset(s)|;
      r
  }

  predicate Rising(s: seq<Rated>) {
    forall a, b :: 0 <= a < b < |s| ==> s[a].viterbi <= s[b].viterbi
  }

  lemma {:induction false} InsertRises(x: Rated, s: seq<Rated>)
    requires Rising(s)
    ensures Rising(Insert(x, s))
  {
    if s != [] && s[0].viterbi <= x.viterbi {
      InsertRises(x, s[1..]);
      var r := Insert(x, s[1..]);
      forall b | 0 <= b < |r| ensures s[0].viterbi <= r[b].viterbi {
        assert r[b] in multiset(r);
        assert r[b] == x || r[b] in s[1..];
      }
    }
  }

  lemma {:induction false} SortedRises(s: seq<Rated>)
    ensures Rising(Sorted(s))
  {
    if s != [] {
      SortedRises(s[..|s| - 1]);
      InsertRises(s[|s| - 1], Sorted(s[..|s| - 1]));
    }
  }

  function Deds(s: seq<Rated>): (r: seq<And>)
    ensures |r| == |s| && forall k :: 0 <= k < |r| ==> r[k] == s[k].ded
  {
    seq(|s|, k requires 0 <= k < |s| => s[k].ded)
  }

  /** The deductions of an item that are printed, in the order of printing; a
      limit of 0 is none. */
  function Slim(s: seq<Rated>, max: nat): seq<And> {
    if |s| == 1 then Deds(s)
    else if max > 0 && max < |s| then Deds(Sorted(s)[..max])
    else Deds(Sorted(s))
  }

  /** The kept and the left deductions are those of the item; the kept ones are
      in order of cost, and none is dearer than one that is left out. */
  predicate Divides(s: seq<Rated>, kept: seq<Rated>, left: seq<Rated>) {
    && multiset(kept + left) == multiset(s) && Rising(kept)
    && forall a, b :: a in kept && b in left ==> a.viterbi <= b.viterbi
  }

  /** What is kept are best deductions of the item: all of them if there are no
      more than the limit, or no limit, and as many as the limit otherwise. */
  lemma SlimIsBest(s: seq<Rated>, max: nat) returns (kept: seq<Rated>, left: seq<Rated>)
    ensures Slim(s, max) == Deds(kept) && Divides(s, kept, left)
    ensures |s| <= max || max == 0 ==> |kept| == |s| && left == [] && multiset(Slim(s, max)) == multiset(Deds(s))
    ensures |s| > max > 0 ==> |kept| == max
  {
    hide Sorted, Deds;
    SortedRises(s);
    if |s| == 1 {
      kept, left := s, [];
      assert kept + left == s;
    } else {
      var n := if max > 0 && max < |s| then max else |s|;
      kept, left := Sorted(s)[..n], Sorted(s)[n..];
      assert kept + left == Sorted(s);
      RisingSplits(Sorted(s), n);
      if n == |s| {
        assert kept == Sorted(s);
        DedsPermuted(Sorted(s), s);
      }
    }
  }

  function Out(b: seq<Rated>, k: nat): seq<Rated>
    requires k < |b|
  {
    b[..k] + b[k + 1..]
  }

  lemma Without(b: seq<Rated>, k: nat)
    requires k < |b|
    ensures |Out(b, k)| == |b| - 1 && multiset(b) == multiset(Out(b, k)) + multiset{b[k]}
    ensures multiset(Deds(b)) == multiset(Deds(Out(b, k))) + multiset{b[k].ded}
  {
    assert b == b[..k] + [b[k]] + b[k + 1..];
    var d := Deds(b);
    assert Deds(Out(b, k)) == d[..k] + d[k + 1..];
    assert d == d[..k] + [d[k]] + d[k + 1..];
  }

  lemma SameRest(a: multiset<Rated>, b: multiset<Rated>, x: Rated)
    requires a + multiset{x} == b + multiset{x}
    ensures a == b
  {
    assert a == (a + multiset{x}) - multiset{x} == (b + multiset{x}) - multiset{x} == b;
  }

  lemma {:induction false} DedsPermuted(a: seq<Rated>, b: seq<Rated>)
    requires multiset(a) == multiset(b)
    ensures multiset(Deds(a)) == multiset(Deds(b))
    decreases |a|
  {
    assert |multiset(a)| == |multiset(b)|;
    if a != [] {
      assert a[0] in multiset(b);
      var k :| 0 <= k < |b| && b[k] == a[0];
      hide Deds, Out;
      Without(a, 0);
      Without(b, k);
      SameRest(multiset(Out(a, 0)), multiset(Out(b, k)), a[0]);
      DedsPermuted(Out(a, 0), Out(b, k));
    }
  }

  lemma RisingSplits(s: seq<Rated>, n: nat)
    requires Rising(s) && n <= |s|
    ensures Rising(s[..n]) && forall a, b :: a in s[..n] && b in s[n..] ==> a.viterbi <= b.viterbi
  {
    forall a, b | a in s[..n] && b in s[n..] ensures a.viterbi <= b.viterbi {
      var j :| 0 <= j < n && s[j] == a;
      var k :| n <= k < |s| && s[k] == b;
    }
  }

  lemma SlimIsPart(s: seq<Rated>, max: nat, e: nat) returns (x: nat)
    requires e < |Slim(s, max)|
    ensures x < |s| && Slim(s, max)[e] == s[x].ded
  {
    var kept, left := SlimIsBest(s, max);
    assert kept[e] == (kept + left)[e] && (kept + left)[e] in multiset(kept + left);
    assert kept[e] in multiset(s) && kept[e] in s;
    x :| x < |s| && s[x] == kept[e];
  }

  /** The forest as printed. */
  function Slimmed(f: seq<seq<Rated>>, max: nat): (r: seq<Node>)
    ensures |r| == |f| && forall i :: 0 <= i < |f| ==> r[i] == Node(Slim(f[i], max))
  {
    seq(|f|, i requires 0 <= i < |f| => Node(Slim(f[i], max)))
  }

  function AllDeds(f: seq<seq<Rated>>): (r: seq<Node>)
    ensures |r| == |f| && forall i :: 0 <= i < |f| ==> r[i] == Node(Deds(f[i]))
  {
    seq(|f|, i requires 0 <= i < |f| => Node(Deds(f[i])))
  }

  /** Leaving out deductions makes no cycles. */
  lemma SlimmedIsAcyclic(f: seq<seq<Rated>>, rank: seq<nat>, max: nat)
    requires Acyclic(Ranked(AllDeds(f), rank))
    ensures Acyclic(Ranked(Slimmed(f, max), rank))
  {
    var d, d' := Ranked(AllDeds(f), rank), Ranked(Slimmed(f, max), rank);
    forall i | 0 <= i < |f| ensures NodeOk(d', i) {
      assert d.f[i].deds == Deds(f[i]) && NodeOk(d, i);
      forall e | 0 <= e < |d'.f[i].deds| ensures AndOk(d', i, d'.f[i].deds[e]) {
        var x := SlimIsPart(f[i], max, e);
        assert AndOk(d, i, d.f[i].deds[x]);
        AndOkStays(d, d', i, d.f[i].deds[x]);
      }
    }
  }

  lemma AndOkStays(d: Ranked, d': Ranked, i: nat, ded: And)
    requires i < |d.f| == |d.rank| && |d'.f| == |d.f| && d'.rank == d.rank && AndOk(d, i, ded)
    ensures AndOk(d', i, ded)
  {
    forall k | 0 <= k < |ded.kids| ensures KidOk(d', i, ded.kids[k]) { assert KidOk(d, i, ded.kids[k]); }
  }
}
