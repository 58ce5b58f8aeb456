/** Reading a forest back from its tokens, and why that gives the same forest. */
module ForestReading {

  import opened Wrappers
  import opened ForestTokens

  /** What a name stands for. */
  datatype Named = NamedItem(n: nat) | NamedDed

  /** The items built so far, and the names given. */
  datatype Store = Store(nodes: seq<Node>, memo: map<string, Named>)

  datatype KidRead = GotKid(kid: Kid, rest: List<Token>, st: Store) | NoKid
  datatype KidsRead = GotKids(kids: seq<Kid>, rest: List<Token>, st: Store) | NoKids
  datatype DedRead = GotDed(ded: And, rest: List<Token>, st: Store) | NoDed
  datatype DedsRead = GotDeds(deds: seq<And>, rest: List<Token>, st: Store) | NoDeds

  // ----- feature vectors

  function Find(s: string, c: char): (j: nat)
    ensures j <= |s| && c !in s[..j] && (j < |s| ==> s[j] == c)
  {
    if s == "" || s[0] == c then 0 else Find(s[1..], c) + 1
  }

  function ParseVector(v: string, acc: map<string, string>): Option<map<string, string>>
    decreases |v|
  {
    var j := Find(v, ',');
    var fv := v[..j];
    var c := Find(fv, ':');
    if c == |fv| then None
    else
      var acc' := acc[fv[..c] := fv[c + 1..]];
      if j == |v| then Some(acc') else ParseVector(v[j + 1..], acc')
  }

  function Dcost(vector: Option<string>): Option<map<string, string>> {
    if vector.None? || vector.value == "" then Some(map[]) else ParseVector(vector.value, map[])
  }

  lemma FirstFound(s: string, c: char, j: nat)
    requires j < |s| && s[j] == c && forall k :: 0 <= k < j ==> s[k] != c
    ensures Find(s, c) == j
  {
    var r := Find(s, c);
    forall k | 0 <= k < r ensures s[k] != c { assert s[k] in s[..r]; }
  }

  lemma OneNumber(x: string)
    requires IsNumeral(x)
    ensures Dcost(Some("cost:" + x)) == Some(map["cost" := x])
  {
    var v := "cost:" + x;
    assert forall k :: 0 <= k < |v| ==> v[k] != ',' by {
      forall k | 0 <= k < |v| ensures v[k] != ',' { assert k >= 5 ==> v[k] == x[k - 5]; }
    }
    assert Find(v, ',') == |v| && v[..|v|] == v;
    var c := Find(v, ':');
    FirstFound(v, ':', 4);
    assert v[..4] == "cost" && v[5..] == x;
  }

  // ----- reading

  function GiveName(st: Store, name: Option<string>, x: Named): Store {
    if name.None? then st else st.(memo := st.memo[name.value := x])
  }

  /** Adds an item. */
  function AddNode(st: Store, name: Option<string>, node: Node): Store {
    GiveName(st.(nodes := st.nodes + [node]), name, NamedItem(|st.nodes|))
  }

  function RuleId(s: string): string {
    if s == "" then "X" else s
  }

  /** Where an item or a word is wanted. */
  function ParseKid(toks: List<Token>, st: Store): (r: KidRead)
    ensures r.GotKid? ==> Len(r.rest) < Len(toks)
    decreases Len(toks), 0
  {
    match toks
    case Nil => NoKid
    case Cons(Or(name), more) =>
      (match ParseDeds(more, st, [])
       case GotDeds(deds, rest, st') => GotKid(Sub(|st'.nodes|), rest, AddNode(st', name, Node(deds)))
       case NoDeds => NoKid)
    case Cons(Nonterm(name, ruleid, vector), more) =>
      (match ParseDed(more, st, ruleid, vector)
       case GotDed(ded, rest, st') => GotKid(Sub(|st'.nodes|), rest, AddNode(st', name, Node([ded])))
       case NoDed => NoKid)
    case Cons(Term(text), more) => GotKid(Word(text), more, st)
    case Cons(Ref(name), more) =>
      if name in st.memo && st.memo[name].NamedItem? then GotKid(Sub(st.memo[name].n), more, st) else NoKid
    case Cons(Pop, _) => NoKid
  }

  function ParseKids(toks: List<Token>, st: Store, acc: seq<Kid>): (r: KidsRead)
    ensures r.GotKids? ==> Len(r.rest) < Len(toks)
    decreases Len(toks), 1
  {
    if toks.Nil? then NoKids
    else if toks.head.Pop? then GotKids(acc, toks.tail, st)
    else match ParseKid(toks, st)
      case GotKid(kid, rest, st') => ParseKids(rest, st', acc + [kid])
      case NoKid => NoKids
  }

  /** The rest of a deduction, after its label. */
  function ParseDed(toks: List<Token>, st: Store, ruleid: string, vector: Option<string>): (r: DedRead)
    ensures r.GotDed? ==> Len(r.rest) < Len(toks)
    decreases Len(toks), 2
  {
    match Dcost(vector)
    case None => NoDed
    case Some(dcost) =>
      match ParseKids(toks, st, [])
      case GotKids(kids, rest, st') => GotDed(And(RuleId(ruleid), dcost, kids), rest, st')
      case NoKids => NoDed
  }

  function ParseDeds(toks: List<Token>, st: Store, acc: seq<And>): (r: DedsRead)
    ensures r.GotDeds? ==> Len(r.rest) < Len(toks)
    decreases Len(toks), 1
  {
    if toks.Nil? then NoDeds
    else match toks.head
      case Pop => GotDeds(acc, toks.tail, st)
      case Nonterm(name, ruleid, vector) =>
        (match ParseDed(toks.tail, st, ruleid, vector)
         case GotDed(ded, rest, st') => ParseDeds(rest, GiveName(st', name, NamedDed), acc + [ded])
         case NoDed => NoDeds)
      case _ => NoDeds
  }

  // ----- what has been read matches what was printed

  /** The node is about the same words and items; `of` names the item that each
      node stands for. */
  predicate KidMatches(of: seq<nat>, kid: Kid, kid': Kid) {
    match kid
    case Word(_) => kid' == kid
    case Sub(i) => kid'.Sub? && kid'.n < |of| && of[kid'.n] == i
  }

  predicate DedMatches(of: seq<nat>, ded: And, ded': And) {
    && ded'.ruleid == ded.ruleid && ded'.dcost == ded.dcost && |ded'.kids| == |ded.kids|
    && forall k {:trigger KidMatches(of, ded.kids[k], ded'.kids[k])} :: 0 <= k < |ded.kids| ==>
         KidMatches(of, ded.kids[k], ded'.kids[k])
  }

  predicate NodeMatches(of: seq<nat>, node: Node, node': Node) {
    && |node'.deds| == |node.deds|
    && forall e {:trigger DedMatches(of, node.deds[e], node'.deds[e])} :: 0 <= e < |node.deds| ==>
         DedMatches(of, node.deds[e], node'.deds[e])
  }

  /** Node n stands for one printed item, matches it, and has its name. */
  predicate StandsFor(d: Dag, memo: seq<nat>, of: seq<nat>, st: Store, n: int) {
    && 0 <= n < |of| == |st.nodes| && of[n] < |d.f| && of[n] in memo
    && NodeMatches(of, d.f[of[n]], st.nodes[n])
    && Digits(IndexOf(memo, of[n]) + 1) in st.memo
    && st.memo[Digits(IndexOf(memo, of[n]) + 1)] == NamedItem(n)
  }

  ghost predicate Corr(d: Dag, memo: seq<nat>, of: seq<nat>, st: Store) {
    && |of| == |st.nodes| && NoRepeat(of) && NoRepeat(memo)
    && (forall k :: 0 <= k < |memo| ==> memo[k] < |d.f|)
    && (forall n {:trigger StandsFor(d, memo, of, st, n)} :: 0 <= n < |of| ==> StandsFor(d, memo, of, st, n))
  }

  /** Printed items of rank below r have been read. */
  ghost predicate Below(d: Dag, memo: seq<nat>, of: seq<nat>, r: int) {
    forall x :: x in memo && x < |d.f| && d.rank[x] < r ==> x in of
  }

  /** Reading on: nodes stay, all items named meanwhile have been read, and all
      items read meanwhile have rank below r. */
  ghost predicate ReadOn(d: Dag, memo: seq<nat>, memo': seq<nat>, of: seq<nat>, of': seq<nat>, r: int) {
    && memo <= memo' && of <= of'
    && (forall x :: x in memo' ==> x in memo || x in of')
    && (forall x :: x in of' ==> x in of || (x < |d.f| && d.rank[x] < r))
  }

  lemma ReadOnTwice(d: Dag, memo0: seq<nat>, memo1: seq<nat>, memo2: seq<nat>, of0: seq<nat>, of1: seq<nat>, of2: seq<nat>, r: int, r0: int)
    requires ReadOn(d, memo0, memo1, of0, of1, r) && ReadOn(d, memo1, memo2, of1, of2, r) && Below(d, memo0, of0, r0)
    ensures ReadOn(d, memo0, memo2, of0, of2, r) && Below(d, memo1, of1, r0)
  {
    forall x | x in of1 ensures x in of2 { var k :| 0 <= k < |of1| && of1[k] == x; assert of2[k] == x; }
    forall x | x in of0 ensures x in of1 { var k :| 0 <= k < |of0| && of0[k] == x; assert of1[k] == x; }
  }

  lemma DedStays(of: seq<nat>, of': seq<nat>, ded: And, ded': And)
    requires DedMatches(of, ded, ded') && of <= of'
    ensures DedMatches(of', ded, ded')
  {
    forall k | 0 <= k < |ded.kids| ensures KidMatches(of', ded.kids[k], ded'.kids[k]) {
      assert KidMatches(of, ded.kids[k], ded'.kids[k]);
    }
  }

  lemma NodeStays(of: seq<nat>, of': seq<nat>, node: Node, node': Node)
    requires NodeMatches(of, node, node') && of <= of'
    ensures NodeMatches(of', node, node')
  {
    forall e | 0 <= e < |node.deds| ensures DedMatches(of', node.deds[e], node'.deds[e]) {
      DedStays(of, of', node.deds[e], node'.deds[e]);
    }
  }

  lemma IndexIs(memo: seq<nat>, k: nat)
    requires NoRepeat(memo) && k < |memo|
    ensures IndexOf(memo, memo[k]) == k
  {
  }

  lemma AllNamed(d: Dag, memo: seq<nat>, of: seq<nat>, st: Store)
    requires Corr(d, memo, of, st)
    ensures NoRepeat(memo) && |of| == |st.nodes| && forall x :: x in of ==> x in memo
  {
    forall n | 0 <= n < |of| ensures of[n] in memo { assert StandsFor(d, memo, of, st, n); }
  }

  lemma OneMatches(of: seq<nat>, node: Node, ded': And)
    requires |node.deds| == 1 && DedMatches(of, node.deds[0], ded')
    ensures NodeMatches(of, node, Node([ded']))
  {
  }

  /** A new item gets a name. */
  lemma NameNew(d: Dag, memo: seq<nat>, of: seq<nat>, st: Store, i: nat)
    requires Corr(d, memo, of, st) && i < |d.f| && i !in memo
    ensures Corr(d, memo + [i], of, st)
  {
    var memo' := memo + [i];
    forall n | 0 <= n < |of| ensures StandsFor(d, memo', of, st, n) {
      assert StandsFor(d, memo, of, st, n);
      assert memo'[..|memo|] == memo;
    }
  }

  /** An item has been read. */
  lemma AddRead(d: Dag, memo: seq<nat>, of: seq<nat>, st: Store, i: nat, node: Node)
    requires Corr(d, memo, of, st) && i in memo && i !in of && i < |d.f| && NodeMatches(of, d.f[i], node)
    ensures Corr(d, memo, of + [i], AddNode(st, Some(Digits(IndexOf(memo, i) + 1)), node))
  {
    var of', st' := of + [i], AddNode(st, Some(Digits(IndexOf(memo, i) + 1)), node);
    NodeStays(of, of', d.f[i], node);
    forall n | 0 <= n < |of'| ensures StandsFor(d, memo, of', st', n) {
      if n < |of| {
        assert StandsFor(d, memo, of, st, n);
        NodeStays(of, of', d.f[of[n]], st.nodes[n]);
        DigitsDiffer(IndexOf(memo, i) + 1, IndexOf(memo, of[n]) + 1);
      }
    }
  }

  /** One child after the label. */
  lemma {:induction false} KidsRound(d: Dag, i: nat, e: nat, k: nat, memo: seq<nat>, rest: List<Token>, of: seq<nat>, st: Store, acc: seq<Kid>)
    returns (kids': seq<Kid>, of': seq<nat>, st': Store)
    requires i < |d.f| && e < |d.f[i].deds| && k <= |d.f[i].deds[e].kids|
    requires Corr(d, memo, of, st) && Below(d, memo, of, d.rank[i]) && |acc| == k
    requires forall x :: 0 <= x < k ==> KidMatches(of, d.f[i].deds[e].kids[x], acc[x])
    ensures ParseKids(KidsToks(d, i, e, k, memo, Cons(Pop, rest)), st, acc) == GotKids(kids', rest, st')
    ensures |kids'| == |d.f[i].deds[e].kids|
    ensures forall x :: 0 <= x < |kids'| ==> KidMatches(of', d.f[i].deds[e].kids[x], kids'[x])
    ensures Corr(d, VisitKids(d, i, e, k, memo), of', st')
    ensures ReadOn(d, memo, VisitKids(d, i, e, k, memo), of, of', d.rank[i])
    decreases d.rank[i], 0, 0, |d.f[i].deds[e].kids| - k
  {
    var kids := d.f[i].deds[e].kids;
    if k == |kids| {
      kids', of', st' := acc, of, st;
    } else {
      assert AndOk(d, i, d.f[i].deds[e]);
      var kid := kids[k];
      var memo1 := VisitKid(d, i, kid, memo);
      var more := KidsToks(d, i, e, k + 1, memo1, Cons(Pop, rest));
      var kid', of1, st1 := KidRound(d, i, kid, memo, more, of, st);
      forall x | 0 <= x < k + 1 ensures KidMatches(of1, kids[x], (acc + [kid'])[x]) {
        if x < k { assert KidMatches(of, kids[x], acc[x]); }
      }
      ReadOnTwice(d, memo, memo1, memo1, of, of1, of1, d.rank[i], d.rank[i]);
      kids', of', st' := KidsRound(d, i, e, k + 1, memo1, rest, of1, st1, acc + [kid']);
      ReadOnTwice(d, memo, memo1, VisitKids(d, i, e, k, memo), of, of1, of', d.rank[i], d.rank[i]);
    }
  }

  lemma {:induction false} KidRound(d: Dag, i: nat, kid: Kid, memo: seq<nat>, rest: List<Token>, of: seq<nat>, st: Store)
    returns (kid': Kid, of': seq<nat>, st': Store)
    requires i < |d.f| && KidOk(d, i, kid) && Corr(d, memo, of, st) && Below(d, memo, of, d.rank[i])
    ensures KidToks(d, i, kid, memo, rest).Cons? && !KidToks(d, i, kid, memo, rest).head.Pop?
    ensures ParseKid(KidToks(d, i, kid, memo, rest), st) == GotKid(kid', rest, st') && KidMatches(of', kid, kid')
    ensures Corr(d, VisitKid(d, i, kid, memo), of', st')
    ensures ReadOn(d, memo, VisitKid(d, i, kid, memo), of, of', d.rank[i])
    decreases d.rank[i], 0, 0, 0
  {
    if kid.Word? {
      kid', of', st' := kid, of, st;
    } else {
      var n;
      n, of', st' := ItemRound(d, kid.n, memo, rest, of, st);
      kid' := Sub(n);
    }
  }

  /** One deduction, after its label. */
  lemma {:induction false} DedRound(d: Dag, i: nat, e: nat, memo: seq<nat>, rest: List<Token>, of: seq<nat>, st: Store)
    returns (ded': And, of': seq<nat>, st': Store)
    requires i < |d.f| && e < |d.f[i].deds| && Corr(d, memo, of, st) && Below(d, memo, of, d.rank[i])
    ensures var toks := KidsToks(d, i, e, 0, memo, Cons(Pop, rest));
            ParseDed(toks, st, d.f[i].deds[e].ruleid, Some("cost:" + CostOf(d, i, e))) == GotDed(ded', rest, st')
    ensures DedMatches(of', d.f[i].deds[e], ded')
    ensures Corr(d, VisitKids(d, i, e, 0, memo), of', st')
    ensures ReadOn(d, memo, VisitKids(d, i, e, 0, memo), of, of', d.rank[i])
    decreases d.rank[i], 0, 0, |d.f[i].deds[e].kids| + 1
  {
    var ded := d.f[i].deds[e];
    assert AndOk(d, i, ded);
    OneNumber(ded.dcost["cost"]);
    var kids';
    kids', of', st' := KidsRound(d, i, e, 0, memo, rest, of, st, []);
    ded' := And(ded.ruleid, ded.dcost, kids');
  }

  function CostOf(d: Dag, i: nat, e: nat): string
    requires i < |d.f| && e < |d.f[i].deds|
  {
    assert AndOk(d, i, d.f[i].deds[e]);
    d.f[i].deds[e].dcost["cost"]
  }

  lemma {:induction false} DedsRound(d: Dag, i: nat, e: nat, memo: seq<nat>, rest: List<Token>, of: seq<nat>, st: Store, acc: seq<And>)
    returns (deds': seq<And>, of': seq<nat>, st': Store)
    requires i < |d.f| && e <= |d.f[i].deds| && |acc| == e
    requires Corr(d, memo, of, st) && Below(d, memo, of, d.rank[i])
    requires forall x :: 0 <= x < e ==> DedMatches(of, d.f[i].deds[x], acc[x])
    ensures ParseDeds(DedsToks(d, i, e, memo, Cons(Pop, rest)), st, acc) == GotDeds(deds', rest, st')
    ensures NodeMatches(of', d.f[i], Node(deds'))
    ensures Corr(d, VisitDeds(d, i, e, memo), of', st')
    ensures ReadOn(d, memo, VisitDeds(d, i, e, memo), of, of', d.rank[i])
    decreases d.rank[i], 0, |d.f[i].deds| - e, 0
  {
    var deds := d.f[i].deds;
    if e == |deds| {
      deds', of', st' := acc, of, st;
    } else {
      var memo1 := VisitKids(d, i, e, 0, memo);
      var more := DedsToks(d, i, e + 1, memo1, Cons(Pop, rest));
      var ded', of1, st1 := DedRound(d, i, e, memo, more, of, st);
      forall x | 0 <= x < e + 1 ensures DedMatches(of1, deds[x], (acc + [ded'])[x]) {
        if x < e { DedStays(of, of1, deds[x], acc[x]); }
      }
      ReadOnTwice(d, memo, memo1, memo1, of, of1, of1, d.rank[i], d.rank[i]);
      deds', of', st' := DedsRound(d, i, e + 1, memo1, rest, of1, st1, acc + [ded']);
      ReadOnTwice(d, memo, memo1, VisitDeds(d, i, e, memo), of, of1, of', d.rank[i], d.rank[i]);
    }
  }

  /** Reading an item's tokens gives a node that stands for the item: a new one,
      or the one that has been built for it before. */
  lemma {:induction false} ItemRound(d: Dag, i: nat, memo: seq<nat>, rest: List<Token>, of: seq<nat>, st: Store)
    returns (n: nat, of': seq<nat>, st': Store)
    requires i < |d.f| && Corr(d, memo, of, st) && Below(d, memo, of, d.rank[i] + 1)
    ensures ItemToks(d, i, memo, rest).Cons? && !ItemToks(d, i, memo, rest).head.Pop?
    ensures ParseKid(ItemToks(d, i, memo, rest), st) == GotKid(Sub(n), rest, st')
    ensures n < |of'| && of'[n] == i && Corr(d, Visit(d, i, memo), of', st')
    ensures ReadOn(d, memo, Visit(d, i, memo), of, of', d.rank[i] + 1)
    decreases d.rank[i], 1, 0, 0
  {
    if i in memo {
      n, of', st' := IndexOf(of, i), of, st;
      assert StandsFor(d, memo, of, st, n);
    } else {
      n, of', st' := NewRound(d, i, memo, rest, of, st);
    }
  }

  lemma {:induction false} NewRound(d: Dag, i: nat, memo: seq<nat>, rest: List<Token>, of: seq<nat>, st: Store)
    returns (n: nat, of': seq<nat>, st': Store)
    requires i < |d.f| && i !in memo && Corr(d, memo, of, st) && Below(d, memo, of, d.rank[i] + 1)
    ensures ParseKid(ItemToks(d, i, memo, rest), st) == GotKid(Sub(n), rest, st')
    ensures n < |of'| && of'[n] == i && Corr(d, Visit(d, i, memo), of', st')
    ensures ReadOn(d, memo, Visit(d, i, memo), of, of', d.rank[i] + 1)
    decreases d.rank[i], 0, |d.f[i].deds| + 2, 0
  {
    hide Corr, NodeMatches, ParseKid;
    var memo1 := memo + [i];
    NameNew(d, memo, of, st, i);
    AllNamed(d, memo, of, st);
    var name := Some(Digits(|memo| + 1));
    var deds', of1, st1 := NodeRound(d, i, name, memo1, rest, of, st);
    var memo2 := VisitDeds(d, i, 0, memo1);
    assert memo2[|memo|] == memo1[|memo|] == i;
    AllNamed(d, memo2, of1, st1);
    IndexIs(memo2, |memo|);
    AddRead(d, memo2, of1, st1, i, Node(deds'));
    n, of', st' := |of1|, of1 + [i], AddNode(st1, name, Node(deds'));
  }

  /** Reading a new item's tokens builds a node that matches it. */
  lemma {:induction false} NodeRound(d: Dag, i: nat, name: Option<string>, memo: seq<nat>, rest: List<Token>, of: seq<nat>, st: Store)
    returns (deds': seq<And>, of': seq<nat>, st': Store)
    requires i < |d.f| && Corr(d, memo, of, st) && Below(d, memo, of, d.rank[i])
    ensures ParseKid(NodeToks(d, i, name, memo, rest), st)
            == GotKid(Sub(|st'.nodes|), rest, AddNode(st', name, Node(deds')))
    ensures NodeMatches(of', d.f[i], Node(deds')) && Corr(d, VisitDeds(d, i, 0, memo), of', st')
    ensures ReadOn(d, memo, VisitDeds(d, i, 0, memo), of, of', d.rank[i])
    decreases d.rank[i], 0, |d.f[i].deds| + 1, 0
  {
    hide Corr, NodeMatches;
    if |d.f[i].deds| == 1 {
      var ded';
      ded', of', st' := DedRound(d, i, 0, memo, rest, of, st);
      deds' := [ded'];
      OneMatches(of', d.f[i], ded');
      assert VisitDeds(d, i, 1, VisitKids(d, i, 0, 0, memo)) == VisitKids(d, i, 0, 0, memo);
    } else {
      deds', of', st' := DedsRound(d, i, 0, memo, rest, of, st, []);
    }
  }
}
