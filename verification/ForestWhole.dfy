/** A forest none of whose needed items has too many deductions: all of it that
    the root needs is printed, and comes back. */
module ForestWhole {

  import opened Wrappers
  import opened ForestTokens
  import opened ForestReading
  import opened ForestRoundTrip
  import opened ForestText

  /** The printed deductions are best ones of the item's: all if there are no
      more than the limit, and as many as the limit otherwise. */
  ghost predicate BestOf(s: seq<Rated>, deds: seq<And>, max: nat) {
    exists kept, left :: Divides(s, kept, left) && deds == Deds(kept) && |kept| == if |s| <= max then |s| else max
  }

  /** Each item of the one forest has best deductions of the other's. */
  ghost predicate AllBest(f: seq<seq<Rated>>, d: Dag, max: nat) {
    |d.f| == |f| && forall i {:trigger BestOf(f[i], d.f[i].deds, max)} :: 0 <= i < |f| ==> BestOf(f[i], d.f[i].deds, max)
  }

  lemma BestSize(f: seq<seq<Rated>>, d: Dag, max: nat)
    requires AllBest(f, d, max)
    ensures |d.f| == |f|
  {
  }

  lemma SlimmedAreBest(f: seq<seq<Rated>>, rank: seq<nat>, max: nat)
    requires Acyclic(Ranked(Slimmed(f, max), rank)) && max > 0
    ensures AllBest(f, Ranked(Slimmed(f, max), rank), max)
  {
    hide Slim, Divides, Acyclic;
    forall i | 0 <= i < |f| ensures BestOf(f[i], Slimmed(f, max)[i].deds, max) {
      var kept, left := SlimIsBest(f[i], max);
    }
  }

  lemma {:induction false} BestAreAll(s: seq<Rated>, deds: seq<And>, max: nat)
    requires BestOf(s, deds, max) && |s| <= max
    ensures multiset(deds) == multiset(Deds(s))
  {
    var kept, left :| Divides(s, kept, left) && deds == Deds(kept) && |kept| == if |s| <= max then |s| else max;
    assert |multiset(kept + left)| == |multiset(s)|;
    assert kept + left == kept;
    DedsPermuted(kept, s);
  }

  // ----- the items needed

  /** The root and all that it needs have no more deductions than the limit. */
  predicate FewEnough(f: seq<seq<Rated>>, full: Dag, root: nat, max: nat)
    requires root < |full.f| == |f|
  {
    forall x :: x in Printed(full, root) ==> x < |f| && |f[x]| <= max
  }

  /** The two forests have the same deductions for these items, in some order. */
  ghost predicate SameDeds(a: Dag, b: Dag, s: set<nat>) {
    |a.f| == |b.f| && forall x :: x in s && x < |a.f| ==> multiset(a.f[x].deds) == multiset(b.f[x].deds)
  }

  lemma SameIsClosed(a: Dag, b: Dag, s: set<nat>)
    requires SameDeds(a, b, s) && ClosedSet(a, s)
    ensures ClosedSet(b, s)
  {
    forall x | x in s
      ensures x < |b.f| && forall e, k :: 0 <= e < |b.f[x].deds| && 0 <= k < |b.f[x].deds[e].kids| ==> KidIn(s, b.f[x].deds[e].kids[k])
    {
      forall e, k | 0 <= e < |b.f[x].deds| && 0 <= k < |b.f[x].deds[e].kids| ensures KidIn(s, b.f[x].deds[e].kids[k]) {
        assert b.f[x].deds[e] in multiset(b.f[x].deds);
        var m :| 0 <= m < |a.f[x].deds| && a.f[x].deds[m] == b.f[x].deds[e];
      }
    }
  }

  /** What the root needs is the same in both forests. */
  lemma SameNeeds(f: seq<seq<Rated>>, full: Dag, d: Dag, root: nat, max: nat)
    requires root < |f| && full.f == AllDeds(f) && AllBest(f, d, max) && FewEnough(f, full, root, max)
    ensures SameDeds(full, d, Printed(full, root)) && Printed(d, root) == Printed(full, root)
  {
    hide Printed, ClosedSet, BestOf, Deds;
    var s := Printed(full, root);
    forall x | x in s && x < |f| ensures multiset(full.f[x].deds) == multiset(d.f[x].deds) {
      assert BestOf(f[x], d.f[x].deds, max);
      BestAreAll(f[x], d.f[x].deds, max);
    }
    PrintedIsNeeded(full, root, {});
    SameIsClosed(full, d, s);
    PrintedIsNeeded(d, root, s);
    var t := Printed(d, root);
    assert SameDeds(d, full, t);
    SameIsClosed(d, full, t);
    PrintedIsNeeded(full, root, t);
  }

  lemma SameFull(a: Dag, b: Dag, s: set<nat>, x: nat)
    requires SameDeds(a, b, s) && x in s && Full(a, x)
    ensures Full(b, x)
  {
    assert |multiset(a.f[x].deds)| == |multiset(b.f[x].deds)|;
    forall e | 0 <= e < |b.f[x].deds| ensures b.f[x].deds[e].kids != [] {
      assert b.f[x].deds[e] in multiset(b.f[x].deds);
      var m :| 0 <= m < |a.f[x].deds| && a.f[x].deds[m] == b.f[x].deds[e];
    }
  }

  // ----- the forest read

  /** A child that was read, with the original item that it stands for. */
  function Original(of: seq<nat>, kid: Kid): Kid {
    match kid
    case Word(text) => Word(text)
    case Sub(n) => Sub(if n < |of| then of[n] else 0)
  }

  function OriginalDed(of: seq<nat>, ded: And): And {
    And(ded.ruleid, ded.dcost, seq(|ded.kids|, k requires 0 <= k < |ded.kids| => Original(of, ded.kids[k])))
  }

  function OriginalDeds(of: seq<nat>, deds: seq<And>): seq<And> {
    seq(|deds|, e requires 0 <= e < |deds| => OriginalDed(of, deds[e]))
  }

  /** The node has all deductions of the item it stands for, and no others. */
  ghost predicate AllThere(full: Dag, p: Parsed, of: seq<nat>, n: nat) {
    n < |of| == |p.nodes| && of[n] < |full.f| && multiset(OriginalDeds(of, p.nodes[n].deds)) == multiset(full.f[of[n]].deds)
  }

  /** The forest read is all that the root needs of the original, item for item
      and deduction for deduction. */
  ghost predicate WholeForest(full: Dag, root: nat, p: Parsed, of: seq<nat>)
    requires root < |full.f|
  {
    && p.root.Sub? && p.root.n < |of| == |p.nodes| && of[p.root.n] == root
    && NoRepeat(of) && (forall x :: x in of <==> x in Printed(full, root))
    && (forall n: nat {:trigger AllThere(full, p, of, n)} :: n < |of| ==> AllThere(full, p, of, n))
  }

  lemma MatchIsOriginal(of: seq<nat>, ded: And, ded': And)
    requires DedMatches(of, ded, ded')
    ensures OriginalDed(of, ded') == ded
  {
    forall k | 0 <= k < |ded.kids| ensures Original(of, ded'.kids[k]) == ded.kids[k] {
      assert KidMatches(of, ded.kids[k], ded'.kids[k]);
    }
    assert OriginalDed(of, ded').kids == ded.kids;
  }

  lemma StandsIsThere(full: Dag, d: Dag, s: set<nat>, p: Parsed, of: seq<nat>, n: nat)
    requires Stands(d, p, of, n) && SameDeds(full, d, s) && of[n] in s
    ensures AllThere(full, p, of, n)
  {
    hide OriginalDed, DedMatches;
    var deds, deds' := d.f[of[n]].deds, p.nodes[n].deds;
    forall e | 0 <= e < |deds| ensures OriginalDed(of, deds'[e]) == deds[e] {
      assert DedMatches(of, deds[e], deds'[e]);
      MatchIsOriginal(of, deds[e], deds'[e]);
    }
    assert OriginalDeds(of, deds') == deds;
  }

  lemma SameIsWhole(f: seq<seq<Rated>>, full: Dag, d: Dag, root: nat, max: nat, p: Parsed, of: seq<nat>)
    requires root < |f| && full.f == AllDeds(f) && AllBest(f, d, max) && FewEnough(f, full, root, max)
    requires SameForest(d, root, p, of)
    ensures WholeForest(full, root, p, of)
  {
    hide Printed, AllThere, SameDeds, FewEnough, AllBest;
    SameNeeds(f, full, d, root, max);
    forall n: nat | n < |of| ensures AllThere(full, p, of, n) {
      assert Stands(d, p, of, n);
      StandsIsThere(full, d, Printed(full, root), p, of, n);
    }
  }

  /** The printed items are full exactly if all that the root needs are. */
  lemma SameAreFull(f: seq<seq<Rated>>, full: Dag, d: Dag, root: nat, max: nat)
    requires root < |f| && full.f == AllDeds(f) && AllBest(f, d, max) && FewEnough(f, full, root, max)
    ensures (forall x :: x in Printed(d, root) ==> Full(d, x)) <==> forall x :: x in Printed(full, root) ==> Full(full, x)
  {
    hide Printed, Full, FewEnough, AllBest;
    SameNeeds(f, full, d, root, max);
    var s := Printed(full, root);
    forall x | x in s ensures Full(d, x) <==> Full(full, x) {
      if Full(d, x) { SameFull(d, full, s, x); }
      if Full(full, x) { SameFull(full, d, s, x); }
    }
  }
}
