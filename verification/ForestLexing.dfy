/** The characters that tokens are written as, and splitting text into tokens
    again. */
module ForestLexing {

  import opened Wrappers
  import opened ForestTokens

  // ----- writing

  function NameText(name: Option<string>): string {
    if name.None? then "" else "#" + name.value
  }

  /** Python's s.replace(c, with). */
  function Replace(s: string, c: char, with: string): string {
    if s == "" then "" else (if s[0] == c then with else [s[0]]) + Replace(s[1..], c, with)
  }

  function QuoteAttr(s: string): string {
    "\"" + Replace(Replace(s, '\\', "\\\\"), '\"', "\\\"") + "\""
  }

  function VectorText(vector: Option<string>): string {
    if vector.None? then "" else "<" + vector.value + ">"
  }

  function Spell(t: Token): string {
    match t
    case Or(name) => NameText(name) + "(" + "OR"
    case Nonterm(name, ruleid, vector) => NameText(name) + "(" + (ruleid + VectorText(vector))
    case Pop => ")"
    case Ref(x) => "#" + x
    case Term(text) => QuoteAttr(text)
  }

  /** Every token but a closing bracket comes after a space. */
  function Text(toks: List<Token>): string {
    match toks
    case Nil => ""
    case Cons(Pop, more) => ")" + Text(more)
    case Cons(t, more) => " " + (Spell(t) + Text(more))
  }

  /** The first token of all comes without a space. */
  function Line(toks: List<Token>): string {
    match toks
    case Nil => ""
    case Cons(t, more) => Spell(t) + Text(more)
  }

  // ----- matching

  datatype Class = Space | NonSpace | Digit | RefChar

  predicate IsSpace(c: char) {
    c in " \t\n\r" || c == 11 as char || c == 12 as char
  }

  predicate In(c: char, k: Class) {
    match k
    case Space => IsSpace(c)
    case NonSpace => !IsSpace(c)
    case Digit => '0' <= c <= '9'
    case RefChar => !IsSpace(c) && c != ')'
  }

  /** The length of the longest prefix of the class. */
  function Span(s: string, k: Class): (n: nat)
    ensures n <= |s|
  {
    if s == "" || !In(s[0], k) then 0 else 1 + Span(s[1..], k)
  }

  predicate AllIn(s: string, k: Class) {
    forall j :: 0 <= j < |s| ==> In(s[j], k)
  }

  lemma {:induction false} SpanIs(a: string, b: string, k: Class)
    requires AllIn(a, k) && (b == "" || !In(b[0], k))
    ensures Span(a + b, k) == |a|
  {
    if a == "" {
      assert a + b == b;
    } else {
      SpanIs(a[1..], b, k);
      assert (a + b)[1..] == a[1..] + b;
    }
  }

  lemma {:induction false} SpanSplit(a: string, b: string, k: Class)
    requires AllIn(a, k)
    ensures Span(a + b, k) == |a| + Span(b, k)
  {
    if a == "" {
      assert a + b == b;
    } else {
      SpanSplit(a[1..], b, k);
      assert (a + b)[1..] == a[1..] + b;
    }
  }

  // ----- splitting

  /** What is next in the text: n characters to skip, a token of n characters, a
      label that cannot be understood or text that ends inside quotes, or
      something that the scanner makes no progress on. */
  datatype Next = Skip(n: nat) | Yield(tok: Token, n: nat) | Raise | Stuck

  datatype Opened = Opened(name: Option<string>, lab: string, n: nat)

  /** An opening bracket with its label, if there is one. */
  function OpenAt(s: string): (r: Option<Opened>)
    ensures r.Some? ==> 0 < r.value.n <= |s| && r.value.lab != ""
  {
    if s != "" && s[0] == '(' then LabelAt(s, None, 1)
    else if s != "" && s[0] == '#' then
      var d := Span(s[1..], Digit);
      if d == 0 || 1 + d == |s| || s[1 + d] != '(' then None else LabelAt(s, Some(s[1..1 + d]), 2 + d)
    else None
  }

  function LabelAt(s: string, name: Option<string>, j: nat): (r: Option<Opened>)
    requires 0 < j <= |s|
    ensures r.Some? ==> 0 < r.value.n <= |s| && r.value.lab != ""
  {
    var m := Span(s[j..], NonSpace);
    if m == 0 then None else Some(Opened(name, s[j..j + m], j + m))
  }

  datatype Read = Read(ruleid: string, vector: Option<string>)

  /** A number, perhaps negative or empty, then perhaps something in angles. */
  function ReadLabel(lab: string): Option<Read> {
    var m := if lab != "" && lab[0] == '-' then 1 + Span(lab[1..], Digit) else Span(lab, Digit);
    var more := lab[m..];
    if more == "" then Some(Read(lab, None))
    else if |more| >= 3 && more[0] == '<' && more[|more| - 1] == '>' then
      Some(Read(lab[..m], Some(more[1..|more| - 1])))
    else None
  }

  datatype Unquoted = Unquoted(text: string, n: nat)

  /** Reads up to the closing quote; a backslash keeps the next character. */
  function Unquote(s: string): (r: Option<Unquoted>)
    ensures r.Some? ==> 0 < r.value.n <= |s|
  {
    if s == "" then None
    else if s[0] == '\"' then Some(Unquoted("", 1))
    else if s[0] == '\\' then
      if |s| == 1 then None
      else match Unquote(s[2..])
        case Some(u) => Some(Unquoted([s[1]] + u.text, u.n + 2))
        case None => None
    else match Unquote(s[1..])
      case Some(u) => Some(Unquoted([s[0]] + u.text, u.n + 1))
      case None => None
  }

  function TokenOf(o: Opened): Next {
    if o.lab == "OR" then Yield(Or(o.name), o.n)
    else match ReadLabel(o.lab)
      case Some(r) => Yield(Nonterm(o.name, r.ruleid, r.vector), o.n)
      case None => Raise
  }

  function NextIn(s: string): (r: Next)
    requires s != ""
    ensures r.Skip? ==> 0 < r.n <= |s|
    ensures r.Yield? ==> 0 < r.n <= |s|
  {
    if Span(s, Space) > 0 then Skip(Span(s, Space))
    else if OpenAt(s).Some? then TokenOf(OpenAt(s).value)
    else if s[0] == ')' then Yield(Pop, 1)
    else if s[0] == '#' && Span(s[1..], RefChar) > 0 then
      Yield(Ref(s[1..1 + Span(s[1..], RefChar)]), 1 + Span(s[1..], RefChar))
    else if s[0] == '\"' then
      match Unquote(s[1..])
      case Some(u) => Yield(Term(u.text), 1 + u.n)
      case None => Raise
    else Stuck
  }

  /** How splitting ends. */
  datatype End = Finished | Raised | Looping

  datatype Lexed = Lexed(toks: List<Token>, end: End)

  function Push(t: Token, l: Lexed): Lexed {
    Lexed(Cons(t, l.toks), l.end)
  }

  function Lex(s: string): Lexed
    decreases |s|
  {
    if s == "" then Lexed(Nil, Finished)
    else match NextIn(s)
      case Skip(n) => Lex(s[n..])
      case Yield(t, n) => Push(t, Lex(s[n..]))
      case Raise => Lexed(Nil, Raised)
      case Stuck => Lexed(Nil, Looping)
  }

  /** The scanner, moving along the text. */
  method ForestLexer(s: string) returns (toks: seq<Token>, end: End)
    ensures Lexed(ListOf(toks), end) == Lex(s)
  {
    hide NextIn, Lex;
    toks := [];
    var si := 0;
    assert s[0..] == s;
    while si < |s|
      invariant si <= |s| && Lex(s) == Onto(toks, Lex(s[si..]))
    {
      assert s[si..] != "";
      LexStep(s[si..]);
      match NextIn(s[si..])
      case Skip(n) =>
        assert s[si..][n..] == s[si + n..];
        si := si + n;
      case Yield(t, n) =>
        assert s[si..][n..] == s[si + n..];
        PrependOne(toks, t, Lex(s[si + n..]).toks);
        toks := toks + [t];
        si := si + n;
      case Raise =>
        return toks, Raised;
      case Stuck =>
        return toks, Looping;
    }
    assert s[si..] == "";
    LexEnd();
    return toks, Finished;
  }

  function Onto(toks: seq<Token>, l: Lexed): Lexed {
    Lexed(Prepend(toks, l.toks), l.end)
  }

  lemma LexEnd()
    ensures Lex("") == Lexed(Nil, Finished)
  {
  }

  lemma LexStep(s: string)
    requires s != ""
    ensures NextIn(s).Skip? ==> Lex(s) == Lex(s[NextIn(s).n..])
    ensures NextIn(s).Yield? ==> Lex(s) == Push(NextIn(s).tok, Lex(s[NextIn(s).n..]))
    ensures NextIn(s).Raise? ==> Lex(s) == Lexed(Nil, Raised)
    ensures NextIn(s).Stuck? ==> Lex(s) == Lexed(Nil, Looping)
  {
    hide NextIn;
  }

  function Prepend(toks: seq<Token>, l: List<Token>): List<Token> {
    if toks == [] then l else Cons(toks[0], Prepend(toks[1..], l))
  }

  function ListOf(toks: seq<Token>): List<Token> {
    Prepend(toks, Nil)
  }

  lemma {:induction false} PrependOne(toks: seq<Token>, t: Token, l: List<Token>)
    ensures Prepend(toks + [t], l) == Prepend(toks, Cons(t, l))
  {
    if toks == [] {
      assert Prepend([], l) == l;
      assert ([t])[1..] == [];
    } else {
      PrependOne(toks[1..], t, l);
      assert (toks + [t])[1..] == toks[1..] + [t];
    }
  }

  // ----- splitting what was written

  predicate NameOk(name: Option<string>) {
    name.Some? ==> IsName(name.value)
  }

  predicate TokenOk(t: Token) {
    match t
    case Or(name) => NameOk(name)
    case Nonterm(name, ruleid, vector) =>
      NameOk(name) && IsName(ruleid) && vector.Some? && |vector.value| > 5 && vector.value[..5] == "cost:" && IsNumeral(vector.value[5..])
    case Pop => true
    case Ref(x) => IsName(x)
    case Term(_) => true
  }

  predicate Opens(t: Token) {
    t.Or? || t.Nonterm?
  }

  predicate TokensOk(toks: List<Token>) {
    toks.Cons? ==> TokenOk(toks.head) && TokensOk(toks.tail)
  }

  /** No bracket is closed as soon as it is opened. */
  predicate Filled(toks: List<Token>) {
    toks.Cons? ==> (Opens(toks.head) && toks.tail.Cons? ==> !toks.tail.head.Pop?) && Filled(toks.tail)
  }

  // ----- quotes

  lemma Associate(a: string, b: string, c: string)
    ensures a + (b + c) == (a + b) + c
  {
  }

  lemma {:induction false} ReplaceAppend(a: string, b: string, c: char, with: string)
    ensures Replace(a + b, c, with) == Replace(a, c, with) + Replace(b, c, with)
  {
    if a == "" {
      assert a + b == b;
    } else {
      ReplaceAppend(a[1..], b, c, with);
      assert (a + b)[1..] == a[1..] + b && (a + b)[0] == a[0];
      Associate(if a[0] == c then with else [a[0]], Replace(a[1..], c, with), Replace(b, c, with));
    }
  }

  function Escaped(s: string): string {
    Replace(Replace(s, '\\', "\\\\"), '\"', "\\\"")
  }

  function EscapedChar(c: char): string {
    if c == '\\' then "\\\\" else if c == '\"' then "\\\"" else [c]
  }

  lemma ReplaceOne(c: char, d: char, with: string)
    ensures Replace([c], d, with) == if c == d then with else [c]
  {
    assert [c][1..] == "";
    assert Replace("", d, with) == "";
  }

  /** The two replacements together act on each character by itself. */
  lemma EscapedFirst(c: char, s: string)
    ensures Escaped([c] + s) == EscapedChar(c) + Escaped(s)
  {
    var t := Replace(s, '\\', "\\\\");
    ReplaceAppend([c], s, '\\', "\\\\");
    ReplaceOne(c, '\\', "\\\\");
    ReplaceOne(c, '\"', "\\\"");
    if c == '\\' {
      ReplaceAppend("\\", "\\", '\"', "\\\"");
      assert "\\" + "\\" == "\\\\";
      ReplaceAppend("\\\\", t, '\"', "\\\"");
    } else {
      ReplaceAppend([c], t, '\"', "\\\"");
    }
  }

  lemma UnquoteChar(c: char, more: string)
    requires Unquote(more).Some?
    ensures Unquote(EscapedChar(c) + more)
            == Some(Unquoted([c] + Unquote(more).value.text, |EscapedChar(c)| + Unquote(more).value.n))
  {
    var e := EscapedChar(c);
    assert (e + more)[|e|..] == more;
  }

  /** Reading a quoted word gives the word back, whatever follows. */
  lemma {:induction false} UnquoteIs(w: string, z: string)
    ensures Unquote(Escaped(w) + ("\"" + z)) == Some(Unquoted(w, |Escaped(w)| + 1))
  {
    if w == "" {
      assert Escaped("") == "";
      assert "" + ("\"" + z) == "\"" + z;
    } else {
      hide Unquote, Escaped, EscapedChar;
      UnquoteIs(w[1..], z);
      assert w == [w[0]] + w[1..];
      EscapedFirst(w[0], w[1..]);
      UnquoteChar(w[0], Escaped(w[1..]) + ("\"" + z));
      Associate(EscapedChar(w[0]), Escaped(w[1..]), "\"" + z);
    }
  }

  // ----- one token, whatever follows

  /** The characters after it that an opening bracket's label would swallow. */
  function Swallowed(z: string): string {
    z[..Span(z, NonSpace)]
  }

  lemma LabelIs(a: string, name: Option<string>, lab: string, z: string)
    requires a != "" && lab != "" && AllIn(lab, NonSpace)
    ensures LabelAt(a + (lab + z), name, |a|)
            == Some(Opened(name, lab + Swallowed(z), |a| + |lab| + |Swallowed(z)|))
  {
    SpanSplit(lab, z, NonSpace);
    var s := a + (lab + z);
    assert s[|a|..] == lab + z;
    assert s[|a|..|a| + |lab| + Span(z, NonSpace)] == lab + z[..Span(z, NonSpace)];
  }

  lemma OpenIs(name: Option<string>, lab: string, z: string)
    requires NameOk(name) && lab != "" && AllIn(lab, NonSpace)
    ensures var s := NameText(name) + "(" + (lab + z);
            Span(s, Space) == 0 &&
            OpenAt(s) == Some(Opened(name, lab + Swallowed(z), |NameText(name)| + 1 + |lab| + |Swallowed(z)|))
  {
    hide LabelAt, Swallowed, AllIn;
    LabelIs(NameText(name) + "(", name, lab, z);
    if name.Some? { NameIs(name.value, lab + z); }
  }

  lemma NameIs(x: string, y: string)
    requires IsName(x)
    ensures var s := "#" + x + "(" + y;
            s[0] == '#' && Span(s[1..], Digit) == |x| && s[1..1 + |x|] == x && s[1 + |x|] == '('
  {
    SpanIs(x, "(" + y, Digit);
    assert ("#" + x + "(" + y)[1..] == x + ("(" + y);
  }

  lemma LabelOfRule(ruleid: string, v: string)
    requires IsName(ruleid) && v != ""
    ensures ReadLabel(ruleid + ("<" + v + ">")) == Some(Read(ruleid, Some(v)))
  {
    var more := "<" + v + ">";
    var lab := ruleid + more;
    assert lab[0] == ruleid[0];
    SpanIs(ruleid, more, Digit);
    assert lab[|ruleid|..] == more && lab[..|ruleid|] == ruleid;
    assert more[1..|more| - 1] == v;
  }

  /** A label that swallowed something cannot be understood. */
  lemma LabelSpoilt(ruleid: string, v: string, p: string)
    requires IsName(ruleid) && p != "" && p[|p| - 1] == ')'
    ensures ReadLabel(ruleid + ("<" + v + ">") + p).None?
  {
    var more := "<" + v + ">" + p;
    var lab := ruleid + more;
    assert lab == ruleid + ("<" + v + ">") + p;
    assert lab[0] == ruleid[0];
    SpanIs(ruleid, more, Digit);
    assert lab[|ruleid|..] == more;
  }

  lemma ChoiceSpoilt(p: string)
    requires p != "" && p[|p| - 1] == ')'
    ensures ReadLabel("OR" + p).None? && "OR" + p != "OR"
  {
    var lab := "OR" + p;
    assert lab[0] == 'O' && |lab| > 2;
    assert lab[0..] == lab;
  }

  lemma VectorIs(t: Token)
    requires t.Nonterm? && TokenOk(t)
    ensures AllIn(t.ruleid + VectorText(t.vector), NonSpace)
  {
    var v, lab := t.vector.value, t.ruleid + VectorText(t.vector);
    forall j | 0 <= j < |v| ensures !IsSpace(v[j]) {
      if j < 5 { assert v[j] == v[..5][j]; } else { assert v[j] == v[5..][j - 5]; }
    }
    forall j | 0 <= j < |lab| ensures !IsSpace(lab[j]) {
      if j >= |t.ruleid| { assert lab[j] == ("<" + v + ">")[j - |t.ruleid|]; }
    }
  }

  function LabelText(t: Token): string
    requires Opens(t)
  {
    if t.Or? then "OR" else t.ruleid + VectorText(t.vector)
  }

  lemma TokenOfLabel(t: Token, p: string, n: nat)
    requires Opens(t) && TokenOk(t)
    ensures p == "" ==> TokenOf(Opened(t.nodeid, LabelText(t) + p, n)) == Yield(t, n)
    ensures p != "" && p[|p| - 1] == ')' ==> TokenOf(Opened(t.nodeid, LabelText(t) + p, n)) == Raise
  {
    hide ReadLabel;
    assert p == "" ==> LabelText(t) + p == LabelText(t);
    if t.Nonterm? {
      RuleIsNotChoice(t);
      LabelOfRule(t.ruleid, t.vector.value);
      if p != "" && p[|p| - 1] == ')' { LabelSpoilt(t.ruleid, t.vector.value, p); }
    } else if p != "" && p[|p| - 1] == ')' {
      ChoiceSpoilt(p);
    }
  }

  lemma NextOpens(t: Token, z: string)
    requires Opens(t) && TokenOk(t)
    ensures Spell(t) + z != ""
    ensures Swallowed(z) == "" ==> NextIn(Spell(t) + z) == Yield(t, |Spell(t)|)
    ensures Swallowed(z) != "" && Swallowed(z)[|Swallowed(z)| - 1] == ')' ==> NextIn(Spell(t) + z) == Raise
  {
    hide OpenAt, Span, Swallowed, TokenOf, TokenOk, IsName;
    var name, lab, p := t.nodeid, LabelText(t), Swallowed(z);
    LabelIsLabel(t);
    OpenIs(name, lab, z);
    Associate(NameText(name) + "(", lab, z);
    TokenOfLabel(t, p, |NameText(name)| + 1 + |lab| + |p|);
  }

  lemma LabelIsLabel(t: Token)
    requires Opens(t) && TokenOk(t)
    ensures NameOk(t.nodeid) && LabelText(t) != "" && AllIn(LabelText(t), NonSpace)
    ensures Spell(t) == NameText(t.nodeid) + "(" + LabelText(t)
  {
    if t.Nonterm? { VectorIs(t); }
  }

  lemma RuleIsNotChoice(t: Token)
    requires t.Nonterm? && TokenOk(t)
    ensures forall p :: LabelText(t) + p != "OR"
  {
    forall p ensures LabelText(t) + p != "OR" { assert (LabelText(t) + p)[0] == t.ruleid[0]; }
  }

  lemma NextRef(x: string, z: string)
    requires IsName(x) && (z == "" || z[0] == ' ' || z[0] == ')')
    ensures NextIn("#" + x + z) == Yield(Ref(x), 1 + |x|)
  {
    hide ReadLabel, Unquote;
    var s := "#" + x + z;
    assert s[1..] == x + z;
    SpanIs(x, z, Digit);
    SpanIs(x, z, RefChar);
    assert s[1..1 + |x|] == x;
    assert z != "" ==> s[1 + |x|] == z[0];
  }

  lemma NextTerm(w: string, z: string)
    ensures NextIn(QuoteAttr(w) + z) == Yield(Term(w), |QuoteAttr(w)|)
  {
    hide ReadLabel, Unquote;
    var s := QuoteAttr(w) + z;
    assert s[1..] == Escaped(w) + ("\"" + z) && s[0] == '\"';
    UnquoteIs(w, z);
  }

  lemma NextOther(t: Token, z: string)
    requires !Opens(t) && TokenOk(t) && (z == "" || z[0] == ' ' || z[0] == ')')
    ensures Spell(t) + z != "" && NextIn(Spell(t) + z) == Yield(t, |Spell(t)|)
  {
    hide OpenAt, QuoteAttr;
    match t
    case Pop => NextPop(z);
    case Ref(x) => NextRef(x, z);
    case Term(w) => NextTerm(w, z);
  }

  lemma NextPop(z: string)
    ensures NextIn(")" + z) == Yield(Pop, 1)
  {
    assert (")" + z)[0] == ')';
  }

  // ----- all tokens

  /** After a token there is nothing, a space, or closing brackets that are
      followed by nothing or a space. */
  lemma {:induction false} AfterToken(toks: List<Token>)
    ensures var z, p := Text(toks), Swallowed(Text(toks));
            && (z == "" || z[0] == ' ' || z[0] == ')')
            && (p != "" <==> toks.Cons? && toks.head.Pop?)
            && (forall j :: 0 <= j < |p| ==> p[j] == ')')
  {
    if toks.Cons? && toks.head.Pop? {
      AfterToken(toks.tail);
      var z := Text(toks.tail);
      SpanSplit(")", z, NonSpace);
      assert Swallowed(")" + z) == ")" + Swallowed(z);
    }
  }

  /** Splitting what was written gives the tokens back if no bracket was closed
      as soon as it was opened, and else stops at a label that it cannot
      understand. */
  lemma {:induction false} LexText(toks: List<Token>)
    requires TokensOk(toks)
    ensures Filled(toks) ==> Lex(Text(toks)) == Lexed(toks, Finished)
    ensures !Filled(toks) ==> Lex(Text(toks)).end == Raised
    decreases toks, 1
  {
    hide Lex, Spell;
    LexLine(toks);
    if toks.Cons? && !toks.head.Pop? { LexSpace(toks); } else { PopSpells(); }
  }

  lemma PopSpells()
    ensures Spell(Pop) == ")"
  {
  }

  lemma {:induction false} LexLine(toks: List<Token>)
    requires TokensOk(toks)
    ensures Filled(toks) ==> Lex(Line(toks)) == Lexed(toks, Finished)
    ensures !Filled(toks) ==> Lex(Line(toks)).end == Raised
    decreases toks, 0
  {
    hide Lex, Text, Spell, NextIn, Swallowed, TokenOk;
    if toks.Nil? {
      LexEnd();
    } else {
      var t, z := toks.head, Text(toks.tail);
      AfterToken(toks.tail);
      LexText(toks.tail);
      if Opens(t) { NextOpens(t, z); } else { NextOther(t, z); }
      LexStep(Spell(t) + z);
      assert (Spell(t) + z)[|Spell(t)|..] == z;
    }
  }

  lemma LexSpace(toks: List<Token>)
    requires TokensOk(toks) && toks.Cons? && !toks.head.Pop?
    ensures Lex(Text(toks)) == Lex(Line(toks))
  {
    hide Lex, TokenOk;
    var s := Line(toks);
    LineStarts(toks);
    SpanIs(" ", s, Space);
    LexStep(" " + s);
    assert (" " + s)[1..] == s;
  }

  lemma LineStarts(toks: List<Token>)
    requires toks.Cons? && !toks.head.Pop?
    ensures Line(toks) != "" && !IsSpace(Line(toks)[0])
  {
  }
}
