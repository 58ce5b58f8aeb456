/** And/or forests with sharing as streams of tokens: printing an item names it
    and later refers to it by name; reading builds the forest anew. */
module ForestTokens {

  import opened Wrappers

  /** A child of an and-node: an item, by its place, or a word. */
  datatype Kid = Sub(n: nat) | Word(text: string)

  datatype And = And(ruleid: string, dcost: map<string, string>, kids: seq<Kid>)

  datatype Node = Node(deds: seq<And>)

  datatype Token =
    | Or(nodeid: Option<string>)
    | Nonterm(nodeid: Option<string>, ruleid: string, vector: Option<string>)
    | Pop
    | Ref(noderef: string)
    | Term(text: string)

  function Len(l: List<Token>): nat {
    if l.Nil? then 0 else 1 + Len(l.tail)
  }

  // ----- forests that can be printed

  /** A forest, with ranks that show that it has no cycle. */
  datatype Ranked = Ranked(f: seq<Node>, rank: seq<nat>)

  predicate KidOk(d: Ranked, i: int, kid: Kid)
    requires 0 <= i < |d.f| == |d.rank|
  {
    kid.Sub? ==> kid.n < |d.f| && d.rank[kid.n] < d.rank[i]
  }

  /** What a printed number consists of. */
  predicate IsNumeral(s: string) {
    s != "" && forall k :: 0 <= k < |s| ==> '0' <= s[k] <= '9' || 'a' <= s[k] <= 'z' || s[k] in "+-."
  }

  predicate IsName(s: string) {
    s != "" && forall k :: 0 <= k < |s| ==> '0' <= s[k] <= '9'
  }

  /** The deduction has a name and one number, and its items have lower rank. */
  predicate AndOk(d: Ranked, i: int, ded: And)
    requires 0 <= i < |d.f| == |d.rank|
  {
    && "cost" in ded.dcost && ded.dcost == map["cost" := ded.dcost["cost"]]
    && IsNumeral(ded.dcost["cost"]) && IsName(ded.ruleid)
    && forall k {:trigger ded.kids[k]} :: 0 <= k < |ded.kids| ==> KidOk(d, i, ded.kids[k])
  }

  predicate NodeOk(d: Ranked, i: int)
    requires 0 <= i < |d.f| == |d.rank|
  {
    forall e {:trigger d.f[i].deds[e]} :: 0 <= e < |d.f[i].deds| ==> AndOk(d, i, d.f[i].deds[e])
  }

  predicate Acyclic(d: Ranked) {
    |d.f| == |d.rank| && forall i {:trigger d.f[i]} :: 0 <= i < |d.f| ==> NodeOk(d, i)
  }

  type Dag = d: Ranked | Acyclic(d) witness Ranked([], [])

  // ----- names

  function Digits(n: nat): (s: string)
    ensures IsName(s)
  {
    var last := [(n % 10) as char + '0'];
    if n < 10 then last else Digits(n / 10) + last
  }

  function Number(s: string): nat {
    if s == "" then 0
    else Number(s[..|s| - 1]) * 10 + DigitOf(s[|s| - 1])
  }

  function DigitOf(c: char): nat {
    if c >= '0' then c as int - '0' as int else 0
  }

  lemma {:induction false} NumberOfDigits(n: nat)
    ensures Number(Digits(n)) == n
  {
    var s := Digits(n);
    assert DigitOf(s[|s| - 1]) == n % 10;
    if n >= 10 {
      NumberOfDigits(n / 10);
      assert s[..|s| - 1] == Digits(n / 10);
    } else {
      assert s[..|s| - 1] == "";
      assert Number("") == 0;
    }
  }

  /** Different numbers make different names. */
  lemma DigitsDiffer(m: nat, n: nat)
    requires m != n
    ensures Digits(m) != Digits(n)
  {
    NumberOfDigits(m);
    NumberOfDigits(n);
  }

  function IndexOf(memo: seq<nat>, i: nat): (k: nat)
    requires i in memo
    ensures k < |memo| && memo[k] == i
  {
    if memo[|memo| - 1] == i then |memo| - 1 else IndexOf(memo[..|memo| - 1], i)
  }

  // ----- printing

  /** The items named once the item (and what it needs) has been printed. */
  function Visit(d: Dag, i: nat, memo: seq<nat>): seq<nat>
    requires i < |d.f|
    decreases d.rank[i], 1, 0, 0
  {
    if i in memo then memo else VisitDeds(d, i, 0, memo + [i])
  }

  function VisitDeds(d: Dag, i: nat, e: nat, memo: seq<nat>): seq<nat>
    requires i < |d.f| && e <= |d.f[i].deds|
    decreases d.rank[i], 0, |d.f[i].deds| - e, 0
  {
    if e == |d.f[i].deds| then memo else VisitDeds(d, i, e + 1, VisitKids(d, i, e, 0, memo))
  }

  function VisitKids(d: Dag, i: nat, e: nat, k: nat, memo: seq<nat>): seq<nat>
    requires i < |d.f| && e < |d.f[i].deds| && k <= |d.f[i].deds[e].kids|
    decreases d.rank[i], 0, 0, |d.f[i].deds[e].kids| - k
  {
    if k == |d.f[i].deds[e].kids| then memo
    else VisitKids(d, i, e, k + 1, VisitKid(d, i, d.f[i].deds[e].kids[k], memo))
  }

  function VisitKid(d: Dag, i: nat, kid: Kid, memo: seq<nat>): seq<nat>
    requires i < |d.f| && KidOk(d, i, kid)
    decreases d.rank[i], 0, 0, 0
  {
    if kid.Word? then memo else Visit(d, kid.n, memo)
  }

  /** The tokens of an item, followed by `rest`. An item's name is its number in
      the order of naming; an item already named is only referred to. */
  function ItemToks(d: Dag, i: nat, memo: seq<nat>, rest: List<Token>): List<Token>
    requires i < |d.f|
    decreases d.rank[i], 1, 0, 0
  {
    if i in memo then Cons(Ref(Digits(IndexOf(memo, i) + 1)), rest)
    else NodeToks(d, i, Some(Digits(|memo| + 1)), memo + [i], rest)
  }

  /** An item is printed as its one deduction, or as a choice. */
  function NodeToks(d: Dag, i: nat, name: Option<string>, memo: seq<nat>, rest: List<Token>): List<Token>
    requires i < |d.f|
    decreases d.rank[i], 0, |d.f[i].deds| + 1, 0
  {
    if |d.f[i].deds| == 1 then DedToks(d, i, 0, name, memo, rest)
    else Cons(Or(name), DedsToks(d, i, 0, memo, Cons(Pop, rest)))
  }

  function DedsToks(d: Dag, i: nat, e: nat, memo: seq<nat>, rest: List<Token>): List<Token>
    requires i < |d.f| && e <= |d.f[i].deds|
    decreases d.rank[i], 0, |d.f[i].deds| - e, 2
  {
    if e == |d.f[i].deds| then rest
    else DedToks(d, i, e, None, memo, DedsToks(d, i, e + 1, VisitKids(d, i, e, 0, memo), rest))
  }

  function DedToks(d: Dag, i: nat, e: nat, name: Option<string>, memo: seq<nat>, rest: List<Token>): List<Token>
    requires i < |d.f| && e < |d.f[i].deds|
    decreases d.rank[i], 0, 0, |d.f[i].deds[e].kids| + 1
  {
    var ded := d.f[i].deds[e];
    assert AndOk(d, i, ded);
    Cons(Nonterm(name, ded.ruleid, Some("cost:" + ded.dcost["cost"])), KidsToks(d, i, e, 0, memo, Cons(Pop, rest)))
  }

  function KidsToks(d: Dag, i: nat, e: nat, k: nat, memo: seq<nat>, rest: List<Token>): List<Token>
    requires i < |d.f| && e < |d.f[i].deds| && k <= |d.f[i].deds[e].kids|
    decreases d.rank[i], 0, 0, |d.f[i].deds[e].kids| - k
  {
    if k == |d.f[i].deds[e].kids| then rest
    else
      var kid := d.f[i].deds[e].kids[k];
      KidToks(d, i, kid, memo, KidsToks(d, i, e, k + 1, VisitKid(d, i, kid, memo), rest))
  }

  function KidToks(d: Dag, i: nat, kid: Kid, memo: seq<nat>, rest: List<Token>): List<Token>
    requires i < |d.f| && KidOk(d, i, kid)
    decreases d.rank[i], 0, 0, 0
  {
    if kid.Word? then Cons(Term(kid.text), rest) else ItemToks(d, kid.n, memo, rest)
  }
}
