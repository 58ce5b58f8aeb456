/** The printer of forests, with its buffer and memo. */
module ForestPrinter {

  import opened Wrappers
  import opened ForestTokens
  import opened ForestLexing
  import opened ForestRoundTrip
  import opened ForestText
  import opened ForestWhole

  const MAX_DEDS: nat := 20

  // ----- the memo

  predicate HasName(memo: map<nat, string>, names: seq<nat>, x: nat)
    requires x in names
  {
    x in memo && memo[x] == "#" + Digits(IndexOf(names, x) + 1)
  }

  /** The memo has the name of each item named so far. */
  predicate Names(memo: map<nat, string>, names: seq<nat>) {
    && |memo| == |names| && (forall x :: x in memo ==> x in names)
    && forall x {:trigger HasName(memo, names, x)} :: x in names ==> HasName(memo, names, x)
  }

  lemma OneMoreName(memo: map<nat, string>, i: nat, name: string)
    requires i !in memo
    ensures |memo[i := name]| == |memo| + 1
  {
    var memo' := memo[i := name];
    assert memo'.Keys == memo.Keys + {i};
    assert |memo| == |memo.Keys| && |memo'| == |memo'.Keys|;
  }

  lemma NamesGrow(memo: map<nat, string>, names: seq<nat>, i: nat)
    requires Names(memo, names) && i !in memo
    ensures Names(memo[i := "#" + Digits(|memo| + 1)], names + [i])
  {
    hide Digits;
    var memo', names' := memo[i := "#" + Digits(|memo| + 1)], names + [i];
    OneMoreName(memo, i, "#" + Digits(|memo| + 1));
    forall x | x in names' ensures HasName(memo', names', x) {
      assert names'[..|names|] == names;
      assert x != i ==> HasName(memo, names, x);
    }
  }

  lemma NameOf(memo: map<nat, string>, names: seq<nat>, i: nat)
    requires Names(memo, names)
    ensures i in memo <==> i in names
    ensures i in memo ==> memo[i] == "#" + Digits(IndexOf(names, i) + 1)
    ensures |memo| == |names|
  {
    assert i in names ==> HasName(memo, names, i);
  }

  // ----- the text, piece by piece

  lemma RefText(d: Dag, i: nat, memo: seq<nat>, rest: List<Token>)
    requires i < |d.f| && i in memo
    ensures Line(ItemToks(d, i, memo, rest)) == "#" + Digits(IndexOf(memo, i) + 1) + Text(rest)
  {
  }

  lemma ChoiceText(d: Dag, i: nat, name: string, memo: seq<nat>, rest: List<Token>)
    requires i < |d.f| && |d.f[i].deds| != 1
    ensures Line(NodeToks(d, i, Some(name), memo, rest))
            == ("#" + name) + ("(OR" + Text(DedsToks(d, i, 0, memo, Cons(Pop, rest))))
  {
    assert "(" + "OR" == "(OR";
    hide DedsToks, Text;
  }

  lemma EndText(rest: List<Token>)
    ensures Text(Cons(Pop, rest)) == ")" + Text(rest)
  {
  }

  lemma DedsText(d: Dag, i: nat, e: nat, memo: seq<nat>, rest: List<Token>)
    requires i < |d.f| && e < |d.f[i].deds|
    ensures var memo1 := VisitKids(d, i, e, 0, memo);
            && VisitDeds(d, i, e, memo) == VisitDeds(d, i, e + 1, memo1)
            && Text(DedsToks(d, i, e, memo, rest)) == " " + Line(DedToks(d, i, e, None, memo, DedsToks(d, i, e + 1, memo1, rest)))
  {
    hide Spell, VisitKids, KidsToks;
  }

  lemma DedsTextEnd(d: Dag, i: nat, memo: seq<nat>, rest: List<Token>)
    requires i < |d.f|
    ensures DedsToks(d, i, |d.f[i].deds|, memo, rest) == rest && VisitDeds(d, i, |d.f[i].deds|, memo) == memo
  {
  }

  function LabelOf(ded: And): string
    requires "cost" in ded.dcost
  {
    ded.ruleid + ("<" + ("cost:" + ded.dcost["cost"]) + ">")
  }

  lemma DedText(d: Dag, i: nat, e: nat, name: Option<string>, memo: seq<nat>, rest: List<Token>)
    requires i < |d.f| && e < |d.f[i].deds|
    ensures "cost" in d.f[i].deds[e].dcost
    ensures Line(DedToks(d, i, e, name, memo, rest))
            == NameText(name) + ("(" + LabelOf(d.f[i].deds[e]) + Text(KidsToks(d, i, e, 0, memo, Cons(Pop, rest))))
  {
    hide KidsToks, Text;
    assert AndOk(d, i, d.f[i].deds[e]);
    var lab, z := LabelOf(d.f[i].deds[e]), Text(KidsToks(d, i, e, 0, memo, Cons(Pop, rest)));
    assert NameText(name) + "(" + lab + z == NameText(name) + ("(" + lab + z);
  }

  lemma KidsText(d: Dag, i: nat, e: nat, k: nat, memo: seq<nat>, rest: List<Token>)
    requires i < |d.f| && e < |d.f[i].deds| && k < |d.f[i].deds[e].kids|
    ensures var kid := d.f[i].deds[e].kids[k];
            KidOk(d, i, kid) &&
            var memo1 := VisitKid(d, i, kid, memo);
            && VisitKids(d, i, e, k, memo) == VisitKids(d, i, e, k + 1, memo1)
            && Text(KidsToks(d, i, e, k, memo, rest)) == " " + Line(KidToks(d, i, kid, memo, KidsToks(d, i, e, k + 1, memo1, rest)))
  {
    assert AndOk(d, i, d.f[i].deds[e]);
    FillKids(d, i, e, k, memo, rest);
    TextIsLine(KidsToks(d, i, e, k, memo, rest));
    hide Text, Line;
  }

  /** Only closing brackets come without a space. */
  lemma TextIsLine(toks: List<Token>)
    requires toks.Cons? && !toks.head.Pop?
    ensures Text(toks) == " " + Line(toks)
  {
  }

  lemma KidsTextEnd(d: Dag, i: nat, e: nat, memo: seq<nat>, rest: List<Token>)
    requires i < |d.f| && e < |d.f[i].deds|
    ensures KidsToks(d, i, e, |d.f[i].deds[e].kids|, memo, rest) == rest
    ensures VisitKids(d, i, e, |d.f[i].deds[e].kids|, memo) == memo
  {
  }

  lemma WordText(d: Dag, i: nat, kid: Kid, memo: seq<nat>, rest: List<Token>)
    requires i < |d.f| && KidOk(d, i, kid) && kid.Word?
    ensures Line(KidToks(d, i, kid, memo, rest)) == QuoteAttr(kid.text) + Text(rest) && VisitKid(d, i, kid, memo) == memo
  {
  }

  lemma NewText(d: Dag, i: nat, memo: seq<nat>, rest: List<Token>)
    requires i < |d.f| && i !in memo
    ensures ItemToks(d, i, memo, rest) == NodeToks(d, i, Some(Digits(|memo| + 1)), memo + [i], rest)
    ensures Visit(d, i, memo) == VisitDeds(d, i, 0, memo + [i])
  {
  }

  lemma SingleText(d: Dag, i: nat, name: Option<string>, memo: seq<nat>, rest: List<Token>)
    requires i < |d.f| && |d.f[i].deds| == 1
    ensures NodeToks(d, i, name, memo, rest) == DedToks(d, i, 0, name, memo, rest)
    ensures VisitDeds(d, i, 0, memo) == VisitKids(d, i, 0, 0, memo)
  {
    assert VisitDeds(d, i, 1, VisitKids(d, i, 0, 0, memo)) == VisitKids(d, i, 0, 0, memo);
  }

  class Printer {
    const f: seq<seq<Rated>>
    /** The forest without the deductions that are left out. */
    ghost const d: Dag
    var result: string
    var memo: map<nat, string>
    ghost var names: seq<nat>

    ghost predicate Valid()
      reads this
    {
      d.f == Slimmed(f, MAX_DEDS) && Names(memo, names)
    }

    constructor (f: seq<seq<Rated>>, ghost rank: seq<nat>)
      requires Acyclic(Ranked(AllDeds(f), rank))
      ensures Valid() && result == "" && names == [] && this.f == f && d == Ranked(Slimmed(f, MAX_DEDS), rank)
      ensures AllBest(f, d, 20)
    {
      SlimmedIsAcyclic(f, rank, MAX_DEDS);
      SlimmedAreBest(f, rank, MAX_DEDS);
      this.f, d := f, Ranked(Slimmed(f, MAX_DEDS), rank);
      result, memo, names := "", map[], [];
    }

    lemma DedsAre(i: nat)
      requires Valid() && i < |f|
      ensures i < |d.f| && d.f[i].deds == Slim(f[i], MAX_DEDS)
      ensures |f[i]| == 1 <==> |d.f[i].deds| == 1
      ensures |f[i]| == 1 ==> d.f[i].deds == [f[i][0].ded]
    {
      assert |f[i]| == 1 ==> Deds(f[i]) == [f[i][0].ded];
    }

    /** Writes the item, or its name when it has one. */
    method ItemToText(i: nat, ghost rest: List<Token>)
      requires Valid() && i < |f|
      modifies this`result, this`memo, this`names
      ensures Valid() && names == Visit(d, i, old(names))
      ensures result + Text(rest) == old(result) + Line(ItemToks(d, i, old(names), rest))
      decreases d.rank[i], 1, 0, 0
    {
      hide Names, Digits, Line, Text, Slimmed, Slim, NodeToks, VisitDeds, DedToks, VisitKids;
      NameOf(memo, names, i);
      DedsAre(i);
      if i in memo {
        RefText(d, i, names, rest);
        Associate(result, memo[i], Text(rest));
        result := result + memo[i];
        return;
      }
      NewText(d, i, names, rest);
      NamesGrow(memo, names, i);
      ghost var base := result;
      var nodeid := Digits(|memo| + 1);
      memo := memo[i := "#" + nodeid];
      names := names + [i];
      result := result + ("#" + nodeid);
      if |f[i]| == 1 {
        SingleText(d, i, Some(nodeid), names, rest);
        DedToText(i, 0, f[i][0].ded, base, Some(nodeid), rest);
      } else {
        DedsToText(i, base, nodeid, rest);
      }
    }

    /** Writes a choice after its name. */
    method DedsToText(i: nat, ghost base: string, ghost name: string, ghost rest: List<Token>)
      requires Valid() && i < |f| && |f[i]| != 1 && result == base + ("#" + name)
      modifies this`result, this`memo, this`names
      ensures Valid() && names == VisitDeds(d, i, 0, old(names))
      ensures result + Text(rest) == base + Line(NodeToks(d, i, Some(name), old(names), rest))
      decreases d.rank[i], 0, |d.f[i].deds| + 1, 0
    {
      hide Names, Line, Text, Slimmed, Slim, NodeToks, VisitDeds, DedsToks, DedToks, VisitKids;
      DedsAre(i);
      ChoiceText(d, i, name, names, rest);
      ghost var names0, all := names, base + Line(NodeToks(d, i, Some(name), names, rest));
      Regroup(base, "#" + name, "(OR", Text(DedsToks(d, i, 0, names, Cons(Pop, rest))));
      result := result + "(OR";
      var deds := Slim(f[i], MAX_DEDS);
      var e := 0;
      while e < |deds|
        invariant e <= |deds| && Valid() && VisitDeds(d, i, e, names) == VisitDeds(d, i, 0, names0)
        invariant result + Text(DedsToks(d, i, e, names, Cons(Pop, rest))) == all
      {
        DedsText(d, i, e, names, Cons(Pop, rest));
        ghost var more := DedsToks(d, i, e + 1, VisitKids(d, i, e, 0, names), Cons(Pop, rest));
        Associate(result, " ", Line(DedToks(d, i, e, None, names, more)));
        result := result + " ";
        assert result + NameText(None) == result;
        DedToText(i, e, deds[e], result, None, more);
        e := e + 1;
      }
      DedsTextEnd(d, i, names, Cons(Pop, rest));
      EndText(rest);
      Associate(result, ")", Text(rest));
      result := result + ")";
    }

    /** Writes the deduction after its name, if it has one. */
    method DedToText(i: nat, ghost e: nat, ded: And, ghost base: string, ghost name: Option<string>, ghost rest: List<Token>)
      requires Valid() && i < |f| && i < |d.f| && e < |d.f[i].deds| && ded == d.f[i].deds[e] && result == base + NameText(name)
      modifies this`result, this`memo, this`names
      ensures Valid() && names == VisitKids(d, i, e, 0, old(names))
      ensures result + Text(rest) == base + Line(DedToks(d, i, e, name, old(names), rest))
      decreases d.rank[i], 0, 0, |d.f[i].deds[e].kids| + 1
    {
      hide Names, Line, Text, Slimmed, NameText, LabelOf, DedToks, KidsToks, VisitKids, VisitKid, KidToks, QuoteAttr, Acyclic;
      DedText(d, i, e, name, names, rest);
      ghost var names0, all := names, base + Line(DedToks(d, i, e, name, names, rest));
      Regroup(base, NameText(name), "(" + LabelOf(ded), Text(KidsToks(d, i, e, 0, names, Cons(Pop, rest))));
      result := result + ("(" + LabelOf(ded));
      var k := 0;
      while k < |ded.kids|
        invariant k <= |ded.kids| && Valid() && VisitKids(d, i, e, k, names) == VisitKids(d, i, e, 0, names0)
        invariant result + Text(KidsToks(d, i, e, k, names, Cons(Pop, rest))) == all
      {
        KidsText(d, i, e, k, names, Cons(Pop, rest));
        ghost var more := KidsToks(d, i, e, k + 1, VisitKid(d, i, ded.kids[k], names), Cons(Pop, rest));
        Associate(result, " ", Line(KidToks(d, i, ded.kids[k], names, more)));
        result := result + " ";
        KidToText(i, ded.kids[k], more);
        k := k + 1;
      }
      KidsTextEnd(d, i, e, names, Cons(Pop, rest));
      EndText(rest);
      Associate(result, ")", Text(rest));
      result := result + ")";
    }

    method KidToText(i: nat, kid: Kid, ghost rest: List<Token>)
      requires Valid() && i < |f| && i < |d.f| && KidOk(d, i, kid)
      modifies this`result, this`memo, this`names
      ensures Valid() && names == VisitKid(d, i, kid, old(names))
      ensures result + Text(rest) == old(result) + Line(KidToks(d, i, kid, old(names), rest))
      decreases d.rank[i], 0, 0, 0
    {
      hide Names, Line, Text, Visit, ItemToks, QuoteAttr;
      match kid
      case Sub(n) => ItemToText(n, rest);
      case Word(text) =>
        WordText(d, i, kid, names, rest);
        Associate(result, QuoteAttr(text), Text(rest));
        result := result + QuoteAttr(text);
    }
  }

  lemma Regroup(a: string, b: string, c: string, z: string)
    ensures a + b + c + z == a + (b + (c + z))
  {
  }

  /** The text of a whole forest: of `d`, which has the best twenty deductions
      of each item. */
  method ForestToText(f: seq<seq<Rated>>, ghost rank: seq<nat>, root: nat) returns (s: string, ghost d: Dag)
    requires Acyclic(Ranked(AllDeds(f), rank)) && root < |f|
    ensures d.rank == rank && AllBest(f, d, 20) && s == ToText(d, root)
  {
    SlimmedIsAcyclic(f, rank, MAX_DEDS);
    SlimmedAreBest(f, rank, MAX_DEDS);
    var p := new Printer(f, rank);
    d := p.d;
    p.ItemToText(root, Nil);
    s := p.result;
    assert s + Text(Nil) == s;
  }
}
