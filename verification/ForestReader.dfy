/** The reader of forests: it takes tokens one by one, builds items and
    remembers their names. */
module ForestReader {

  import opened Wrappers
  import opened ForestTokens
  import opened ForestReading
  import opened ForestLexing
  import opened ForestRoundTrip
  import opened ForestText
  import opened ForestWhole
  import opened ForestPrinter

  class Reader {
    var toks: List<Token>
    var nodes: seq<Node>
    var memo: map<string, Named>

    ghost function St(): Store
      reads this
    {
      Store(nodes, memo)
    }

    constructor (toks: List<Token>)
      ensures this.toks == toks && St() == Store([], map[])
    {
      this.toks, nodes, memo := toks, [], map[];
    }

    /** Adds an item, under its name if it has one. */
    method AddItem(name: Option<string>, node: Node) returns (kid: Kid)
      modifies this`nodes, this`memo
      ensures St() == AddNode(old(St()), name, node) && kid == Sub(|old(nodes)|)
    {
      kid := Sub(|nodes|);
      nodes := nodes + [node];
      if name.Some? { memo := memo[name.value := NamedItem(kid.n)]; }
    }

    /** Reads an item or a word. */
    method ReadKid() returns (r: Option<Kid>)
      modifies this
      ensures match ParseKid(old(toks), old(St()))
              case GotKid(kid, rest, st) => r == Some(kid) && toks == rest && St() == st
              case NoKid => r == None
      decreases Len(toks), 0
    {
      if toks.Nil? { return None; }
      var tok := toks.head;
      toks := toks.tail;
      match tok
      case Or(name) =>
        var deds := ReadDeds();
        if deds.None? { return None; }
        var kid := AddItem(name, Node(deds.value));
        return Some(kid);
      case Nonterm(name, ruleid, vector) =>
        var ded := ReadDed(ruleid, vector);
        if ded.None? { return None; }
        var kid := AddItem(name, Node([ded.value]));
        return Some(kid);
      case Term(text) => return Some(Word(text));
      case Ref(name) =>
        if name in memo && memo[name].NamedItem? { return Some(Sub(memo[name].n)); }
        return None;
      case Pop => return None;
    }

    /** Reads children up to the closing bracket. */
    method ReadKids() returns (r: Option<seq<Kid>>)
      modifies this
      ensures match ParseKids(old(toks), old(St()), [])
              case GotKids(kids, rest, st) => r == Some(kids) && toks == rest && St() == st
              case NoKids => r == None
      decreases Len(toks), 1
    {
      var kids := [];
      while toks.Cons? && !toks.head.Pop?
        invariant ParseKids(toks, St(), kids) == ParseKids(old(toks), old(St()), [])
        invariant Len(toks) <= old(Len(toks))
        decreases Len(toks)
      {
        var kid := ReadKid();
        if kid.None? { return None; }
        kids := kids + [kid.value];
      }
      if toks.Nil? { return None; }
      toks := toks.tail;
      return Some(kids);
    }

    method ReadDed(ruleid: string, vector: Option<string>) returns (r: Option<And>)
      modifies this
      ensures match ParseDed(old(toks), old(St()), ruleid, vector)
              case GotDed(ded, rest, st) => r == Some(ded) && toks == rest && St() == st
              case NoDed => r == None
      decreases Len(toks), 2
    {
      var dcost := Dcost(vector);
      if dcost.None? { return None; }
      var kids := ReadKids();
      if kids.None? { return None; }
      return Some(And(RuleId(ruleid), dcost.value, kids.value));
    }

    method ReadDeds() returns (r: Option<seq<And>>)
      modifies this
      ensures match ParseDeds(old(toks), old(St()), [])
              case GotDeds(deds, rest, st) => r == Some(deds) && toks == rest && St() == st
              case NoDeds => r == None
      decreases Len(toks), 1
    {
      var deds := [];
      while toks.Cons? && toks.head.Nonterm?
        invariant ParseDeds(toks, St(), deds) == ParseDeds(old(toks), old(St()), [])
        invariant Len(toks) <= old(Len(toks))
        decreases Len(toks)
      {
        var tok := toks.head;
        toks := toks.tail;
        var ded := ReadDed(tok.ruleid, tok.vector);
        if ded.None? { return None; }
        if tok.nodeid.Some? { memo := memo[tok.nodeid.value := NamedDed]; }
        deds := deds + [ded.value];
      }
      if toks.Nil? || !toks.head.Pop? { return None; }
      toks := toks.tail;
      return Some(deds);
    }
  }

  /** Reads a forest; fails on text that is not one. */
  method ForestFromText(s: string) returns (r: Option<Parsed>)
    ensures r == FromText(s)
  {
    var toks, end := ForestLexer(s);
    if end != Finished { return None; }
    var reader := new Reader(ListOf(toks));
    var kid := reader.ReadKid();
    if kid.None? || reader.toks.Cons? { return None; }
    return Some(Parsed(kid.value, reader.nodes));
  }

  /** Printing a forest and reading the text: it works exactly if all printed
      items have deductions and all printed deductions have children, and then
      gives the printed part of the forest again. That is all that the root
      needs, with all deductions, if none of it has more than twenty. */
  method PrintAndRead(f: seq<seq<Rated>>, ghost rank: seq<nat>, root: nat) returns (r: Option<Parsed>, ghost d: Dag)
    requires Acyclic(Ranked(AllDeds(f), rank)) && root < |f|
    ensures d.rank == rank && AllBest(f, d, 20)
    ensures r.Some? <==> forall x :: x in Printed(d, root) ==> Full(d, x)
    ensures r.Some? ==> exists of :: SameForest(d, root, r.value, of)
    ensures var full: Dag := Ranked(AllDeds(f), rank);
            FewEnough(f, full, root, 20) ==>
              && (r.Some? <==> forall x :: x in Printed(full, root) ==> Full(full, x))
              && (r.Some? ==> exists of :: WholeForest(full, root, r.value, of))
  {
    hide FromText, ToText, Printed, SameForest, WholeForest, AllBest, FewEnough, Full, Acyclic;
    var full: Dag := Ranked(AllDeds(f), rank);
    var s;
    s, d := ForestToText(f, rank, root);
    r := ForestFromText(s);
    BestSize(f, d, 20);
    RoundTrip(d, root);
    if FewEnough(f, full, root, 20) {
      SameAreFull(f, full, d, root, 20);
      if r.Some? {
        var of :| SameForest(d, root, r.value, of);
        SameIsWhole(f, full, d, root, 20, r.value, of);
      }
    }
  }
}
