/** Printing a forest and reading it back: when it works, and what comes back. */
module ForestRoundTrip {

  import opened Wrappers
  import opened ForestTokens
  import opened ForestReading
  import opened ForestLexing

  /** What reading gives: the root and all items. */
  datatype Parsed = Parsed(root: Kid, nodes: seq<Node>)

  /** Reads one item (or word) and expects nothing after it. */
  function FromText(s: string): Option<Parsed> {
    var l := Lex(s);
    if l.end != Finished then None
    else match ParseKid(l.toks, Store([], map[]))
      case GotKid(kid, rest, st) => if rest.Nil? then Some(Parsed(kid, st.nodes)) else None
      case NoKid => None
  }

  function ToText(d: Dag, i: nat): string
    requires i < |d.f|
  {
    Line(ItemToks(d, i, [], Nil))
  }

  // ----- tokens are written properly

  lemma {:induction false} ItemToksOk(d: Dag, i: nat, memo: seq<nat>, rest: List<Token>)
    requires i < |d.f| && TokensOk(rest)
    ensures TokensOk(ItemToks(d, i, memo, rest))
    decreases d.rank[i], 1, 0, 0
  {
    if i !in memo {
      var memo1 := memo + [i];
      if |d.f[i].deds| == 1 {
        DedToksOk(d, i, 0, Some(Digits(|memo| + 1)), memo1, rest);
      } else {
        DedsToksOk(d, i, 0, memo1, Cons(Pop, rest));
      }
    }
  }

  lemma {:induction false} DedsToksOk(d: Dag, i: nat, e: nat, memo: seq<nat>, rest: List<Token>)
    requires i < |d.f| && e <= |d.f[i].deds| && TokensOk(rest)
    ensures TokensOk(DedsToks(d, i, e, memo, rest))
    decreases d.rank[i], 0, |d.f[i].deds| - e, 2
  {
    if e < |d.f[i].deds| {
      var memo1 := VisitKids(d, i, e, 0, memo);
      DedsToksOk(d, i, e + 1, memo1, rest);
      DedToksOk(d, i, e, None, memo, DedsToks(d, i, e + 1, memo1, rest));
    }
  }

  lemma {:induction false} DedToksOk(d: Dag, i: nat, e: nat, name: Option<string>, memo: seq<nat>, rest: List<Token>)
    requires i < |d.f| && e < |d.f[i].deds| && TokensOk(rest) && NameOk(name)
    ensures TokensOk(DedToks(d, i, e, name, memo, rest))
    decreases d.rank[i], 0, 0, |d.f[i].deds[e].kids| + 1
  {
    assert AndOk(d, i, d.f[i].deds[e]);
    KidsToksOk(d, i, e, 0, memo, Cons(Pop, rest));
    var x := d.f[i].deds[e].dcost["cost"];
    assert ("cost:" + x)[..5] == "cost:" && ("cost:" + x)[5..] == x;
  }

  lemma {:induction false} KidsToksOk(d: Dag, i: nat, e: nat, k: nat, memo: seq<nat>, rest: List<Token>)
    requires i < |d.f| && e < |d.f[i].deds| && k <= |d.f[i].deds[e].kids| && TokensOk(rest)
    ensures TokensOk(KidsToks(d, i, e, k, memo, rest))
    decreases d.rank[i], 0, 0, |d.f[i].deds[e].kids| - k
  {
    if k < |d.f[i].deds[e].kids| {
      assert AndOk(d, i, d.f[i].deds[e]);
      var kid := d.f[i].deds[e].kids[k];
      var memo1 := VisitKid(d, i, kid, memo);
      KidsToksOk(d, i, e, k + 1, memo1, rest);
      if kid.Sub? { ItemToksOk(d, kid.n, memo, KidsToks(d, i, e, k + 1, memo1, rest)); }
    }
  }

  // ----- when no bracket is empty

  /** The item has a deduction, and all its deductions have children. */
  predicate Full(d: Dag, i: nat) {
    i < |d.f| && d.f[i].deds != [] && forall e :: 0 <= e < |d.f[i].deds| ==> d.f[i].deds[e].kids != []
  }

  predicate NewFull(d: Dag, memo: seq<nat>, memo': seq<nat>) {
    forall x :: x in memo' ==> x in memo || Full(d, x)
  }

  predicate Grown(memo: seq<nat>, memo': seq<nat>) {
    forall x :: x in memo ==> x in memo'
  }

  lemma {:induction false} FillKids(d: Dag, i: nat, e: nat, k: nat, memo: seq<nat>, rest: List<Token>)
    requires i < |d.f| && e < |d.f[i].deds| && k <= |d.f[i].deds[e].kids|
    ensures var memo' := VisitKids(d, i, e, k, memo);
            && (Filled(KidsToks(d, i, e, k, memo, rest)) <==> Filled(rest) && NewFull(d, memo, memo'))
            && Grown(memo, memo')
    ensures k < |d.f[i].deds[e].kids| ==> KidsToks(d, i, e, k, memo, rest).Cons? && !KidsToks(d, i, e, k, memo, rest).head.Pop?
    decreases d.rank[i], 0, 0, |d.f[i].deds[e].kids| - k
  {
    if k < |d.f[i].deds[e].kids| {
      assert AndOk(d, i, d.f[i].deds[e]);
      var kid := d.f[i].deds[e].kids[k];
      var memo1 := VisitKid(d, i, kid, memo);
      FillKids(d, i, e, k + 1, memo1, rest);
      if kid.Sub? { FillItem(d, kid.n, memo, KidsToks(d, i, e, k + 1, memo1, rest)); }
    }
  }

  lemma {:induction false} FillDed(d: Dag, i: nat, e: nat, name: Option<string>, memo: seq<nat>, rest: List<Token>)
    requires i < |d.f| && e < |d.f[i].deds|
    ensures var memo' := VisitKids(d, i, e, 0, memo);
            && (Filled(DedToks(d, i, e, name, memo, rest))
                <==> d.f[i].deds[e].kids != [] && Filled(rest) && NewFull(d, memo, memo'))
            && Grown(memo, memo')
    decreases d.rank[i], 0, 0, |d.f[i].deds[e].kids| + 1
  {
    FillKids(d, i, e, 0, memo, Cons(Pop, rest));
  }

  lemma {:induction false} FillDeds(d: Dag, i: nat, e: nat, memo: seq<nat>, rest: List<Token>)
    requires i < |d.f| && e <= |d.f[i].deds|
    ensures var memo' := VisitDeds(d, i, e, memo);
            && (Filled(DedsToks(d, i, e, memo, rest))
                <==> Filled(rest) && NewFull(d, memo, memo') && forall x :: e <= x < |d.f[i].deds| ==> d.f[i].deds[x].kids != [])
            && Grown(memo, memo')
    decreases d.rank[i], 0, |d.f[i].deds| - e, 2
  {
    if e < |d.f[i].deds| {
      var memo1 := VisitKids(d, i, e, 0, memo);
      FillDeds(d, i, e + 1, memo1, rest);
      FillDed(d, i, e, None, memo, DedsToks(d, i, e + 1, memo1, rest));
    }
  }

  lemma {:induction false} FillItem(d: Dag, i: nat, memo: seq<nat>, rest: List<Token>)
    requires i < |d.f|
    ensures var memo' := Visit(d, i, memo);
            && (Filled(ItemToks(d, i, memo, rest)) <==> Filled(rest) && NewFull(d, memo, memo'))
            && Grown(memo, memo') && i in memo'
    ensures ItemToks(d, i, memo, rest).Cons? && !ItemToks(d, i, memo, rest).head.Pop?
    decreases d.rank[i], 1, 0, 0
  {
    if i !in memo {
      var memo1 := memo + [i];
      if |d.f[i].deds| == 1 {
        FillDed(d, i, 0, Some(Digits(|memo| + 1)), memo1, rest);
        assert VisitDeds(d, i, 1, VisitKids(d, i, 0, 0, memo1)) == VisitKids(d, i, 0, 0, memo1);
      } else {
        FillDeds(d, i, 0, memo1, Cons(Pop, rest));
        ChoiceFilled(d, i, memo1, rest);
      }
    }
  }

  /** A choice between nothing is an empty bracket. */
  lemma ChoiceFilled(d: Dag, i: nat, memo: seq<nat>, rest: List<Token>)
    requires i < |d.f|
    ensures var toks := DedsToks(d, i, 0, memo, Cons(Pop, rest));
            Filled(Cons(Or(Some("1")), toks)) <==> Filled(toks) && d.f[i].deds != []
  {
  }

  // ----- what is printed is what the root needs

  /** Whatever the members' deductions need are members. */
  predicate ClosedSet(d: Dag, s: set<nat>) {
    forall x :: x in s ==> x < |d.f| && forall e, k :: 0 <= e < |d.f[x].deds| && 0 <= k < |d.f[x].deds[e].kids| ==>
      KidIn(s, d.f[x].deds[e].kids[k])
  }

  predicate KidIn(s: set<nat>, kid: Kid) {
    kid.Sub? ==> kid.n in s
  }

  lemma {:induction false} VisitWithin(d: Dag, s: set<nat>, i: nat, memo: seq<nat>)
    requires ClosedSet(d, s) && i in s
    ensures i < |d.f| && forall x :: x in Visit(d, i, memo) ==> x in memo || x in s
    decreases if i < |d.rank| then d.rank[i] else 0, 1, 0, 0
  {
    if i !in memo { DedsWithin(d, s, i, 0, memo + [i]); }
  }

  lemma {:induction false} DedsWithin(d: Dag, s: set<nat>, i: nat, e: nat, memo: seq<nat>)
    requires ClosedSet(d, s) && i in s && i < |d.f| && e <= |d.f[i].deds|
    ensures forall x :: x in VisitDeds(d, i, e, memo) ==> x in memo || x in s
    decreases d.rank[i], 0, |d.f[i].deds| - e, 0
  {
    if e < |d.f[i].deds| {
      KidsWithin(d, s, i, e, 0, memo);
      DedsWithin(d, s, i, e + 1, VisitKids(d, i, e, 0, memo));
    }
  }

  lemma {:induction false} KidsWithin(d: Dag, s: set<nat>, i: nat, e: nat, k: nat, memo: seq<nat>)
    requires ClosedSet(d, s) && i in s && i < |d.f| && e < |d.f[i].deds| && k <= |d.f[i].deds[e].kids|
    ensures forall x :: x in VisitKids(d, i, e, k, memo) ==> x in memo || x in s
    decreases d.rank[i], 0, 0, |d.f[i].deds[e].kids| - k
  {
    if k < |d.f[i].deds[e].kids| {
      assert AndOk(d, i, d.f[i].deds[e]);
      var kid := d.f[i].deds[e].kids[k];
      assert KidIn(s, kid);
      if kid.Sub? { VisitWithin(d, s, kid.n, memo); }
      KidsWithin(d, s, i, e, k + 1, VisitKid(d, i, kid, memo));
    }
  }

  function Printed(d: Dag, i: nat): set<nat>
    requires i < |d.f|
  {
    set x | x in Visit(d, i, [])
  }

  /** The items printed are the least set that has the root and all that its
      members need. */
  lemma PrintedIsNeeded(d: Dag, i: nat, s: set<nat>)
    requires i < |d.f|
    ensures i in Printed(d, i) && ClosedSet(d, Printed(d, i))
    ensures ClosedSet(d, s) && i in s ==> Printed(d, i) <= s
  {
    var p, of := TokensRound(d, i);
    forall x | x in Printed(d, i)
      ensures x < |d.f| && forall e, k :: 0 <= e < |d.f[x].deds| && 0 <= k < |d.f[x].deds[e].kids| ==>
                KidIn(Printed(d, i), d.f[x].deds[e].kids[k])
    {
      var n :| 0 <= n < |of| && of[n] == x;
      MatchedIsClosed(d, i, p, of, n);
    }
    if ClosedSet(d, s) && i in s { VisitWithin(d, s, i, []); }
  }

  lemma MatchedIsClosed(d: Dag, i: nat, p: Parsed, of: seq<nat>, n: nat)
    requires i < |d.f| && SameForest(d, i, p, of) && n < |of|
    ensures var x := of[n];
            x < |d.f| && forall e, k :: 0 <= e < |d.f[x].deds| && 0 <= k < |d.f[x].deds[e].kids| ==>
              KidIn(Printed(d, i), d.f[x].deds[e].kids[k])
  {
    var x := of[n];
    assert Stands(d, p, of, n);
    forall e, k | 0 <= e < |d.f[x].deds| && 0 <= k < |d.f[x].deds[e].kids|
      ensures KidIn(Printed(d, i), d.f[x].deds[e].kids[k])
    {
      assert DedMatches(of, d.f[x].deds[e], p.nodes[n].deds[e]);
      assert KidMatches(of, d.f[x].deds[e].kids[k], p.nodes[n].deds[e].kids[k]);
    }
  }

  // ----- the round trip

  predicate Stands(d: Dag, p: Parsed, of: seq<nat>, n: int) {
    0 <= n < |of| == |p.nodes| && of[n] < |d.f| && NodeMatches(of, d.f[of[n]], p.nodes[n])
  }

  /** The forest read is the printed part of the original, item for item: `of`
      is a one-to-one map from its items to the printed ones that keeps the
      root, the deductions in order with their names and numbers, and their
      children, so also which children are shared. */
  ghost predicate SameForest(d: Dag, i: nat, p: Parsed, of: seq<nat>)
    requires i < |d.f|
  {
    && p.root.Sub? && p.root.n < |of| == |p.nodes| && of[p.root.n] == i
    && NoRepeat(of) && (forall x :: x in of <==> x in Printed(d, i))
    && (forall n {:trigger Stands(d, p, of, n)} :: 0 <= n < |of| ==> Stands(d, p, of, n))
  }

  lemma TokensRound(d: Dag, i: nat) returns (p: Parsed, of: seq<nat>)
    requires i < |d.f|
    ensures SameForest(d, i, p, of)
    ensures exists st :: ParseKid(ItemToks(d, i, [], Nil), Store([], map[])) == GotKid(p.root, Nil, st) && st.nodes == p.nodes
  {
    var n, of', st' := ItemRound(d, i, [], Nil, [], Store([], map[]));
    p, of := Parsed(Sub(n), st'.nodes), of';
    forall k | 0 <= k < |of| ensures Stands(d, p, of, k) && of[k] in Printed(d, i) {
      assert StandsFor(d, Visit(d, i, []), of, st', k);
    }
  }

  /** Printed text can be read exactly if no printed item is without deductions
      and no printed deduction without children; and then what is read is the
      printed forest. */
  lemma RoundTrip(d: Dag, i: nat)
    requires i < |d.f|
    ensures FromText(ToText(d, i)).Some? <==> forall x :: x in Printed(d, i) ==> Full(d, x)
    ensures FromText(ToText(d, i)).Some? ==> exists of :: SameForest(d, i, FromText(ToText(d, i)).value, of)
  {
    hide Lex, SameForest;
    var toks := ItemToks(d, i, [], Nil);
    ItemToksOk(d, i, [], Nil);
    FillItem(d, i, [], Nil);
    LexLine(toks);
    var p, of := TokensRound(d, i);
  }

  /** An item without deductions. */
  const BARREN: Dag := Ranked([Node([])], [0])

  /** The text of an item without deductions is not that of any forest. */
  lemma BarrenIsLost()
    ensures Printed(BARREN, 0) == {0} && FromText(ToText(BARREN, 0)) == None
  {
    assert VisitDeds(BARREN, 0, 0, [0]) == [0];
    assert Visit(BARREN, 0, []) == [0];
    RoundTrip(BARREN, 0);
    assert 0 in Printed(BARREN, 0) && !Full(BARREN, 0);
  }
}
