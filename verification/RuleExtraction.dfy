/** All rules of a sentence: every reading of every phrase, made into a rule
    where that is possible. */
module RuleExtraction {
  import opened Wrappers
  import opened Subtraction
  import opened RuleMaking
  import opened ReadingLimits

  /** The task, the sentence, and the limits that rules must keep. */
  datatype Job = Job(g: Subtractable, s: Sentence, requireAligned: bool, prefixLabels: set<nat>)

  /** The phrases lie within both sides. */
  predicate Ready(job: Job) {
    && |job.s.fwords| == |job.s.faligned| == job.g.n
    && forall k :: 0 <= k < |job.g.phrases| ==> TargetOk(job.s, job.g.phrases[k])
  }

  predicate TargetOk(s: Sentence, p: Phrase) {
    p.box.j1 < p.box.j2 <= |s.ewords|
  }

  // ----- what a reading has that a rule needs

  lemma {:induction false} HolesPrefix(ps: seq<Piece>, e: Piece, n: nat)
    requires n <= |ps|
    ensures Holes(ps + [e], n) == Holes(ps, n)
  {
    if n > 0 { HolesPrefix(ps, e, n - 1); }
  }

  /** A reading's pieces are words and phrases of the sentence, and it has as
      many holes as its cell says. */
  lemma {:induction false} ReadingIsReady(job: Job, i1: nat, i2: nat, holes: nat, t: Reading)
    requires Ready(job) && IsReading(job.g, i1, i2, holes, t) && i2 <= job.g.n
    ensures PiecesOk(job.s, Pieces(t)) && |Holes(Pieces(t), |Pieces(t)|)| == holes
    decreases t
  {
    if t.Then? {
      var m, h := LastPiece(job.g, job.s, i1, i2, holes, t);
      var k := if t.last.Word? then t.last.i else t.last.p.box.i1;
      var h' := if t.last.Word? then holes else holes - 1;
      ReadingIsReady(job, i1, k, h', t.prior);
      HolesPrefix(Pieces(t.prior), t.last, |Pieces(t.prior)|);
      hide IsReading;
      forall j | 0 <= j < |Pieces(t)| ensures PieceOk(job.s, Pieces(t)[j]) {
        if j < |Pieces(t.prior)| { assert Pieces(t)[j] == Pieces(t.prior)[j]; }
      }
    }
  }

  // ----- which rules there are

  /** A phrase with one of its readings. */
  datatype Choice = Choice(p: Phrase, t: Reading)

  predicate Possible(job: Job, p: Phrase, t: Reading) {
    Makes(job.s, p, Pieces(t), job.requireAligned, job.prefixLabels)
  }

  function OfCell(job: Job, p: Phrase, ts: seq<Reading>, n: nat): seq<Choice>
    requires n <= |ts|
  {
    if n == 0 then []
    else OfCell(job, p, ts, n - 1) + (if Possible(job, p, ts[n - 1]) then [Choice(p, ts[n - 1])] else [])
  }

  /** By fewer than h holes. */
  function OfPhrase(job: Job, p: Phrase, h: nat): seq<Choice> {
    if h == 0 then []
    else
      var ts := Cell(job.g, p.box.i1, p.box.i2, h - 1);
      OfPhrase(job, p, h - 1) + OfCell(job, p, ts, |ts|)
  }

  /** Of the first m phrases. */
  function OfPhrases(job: Job, m: nat): seq<Choice>
    requires m <= |job.g.phrases|
  {
    if m == 0 then [] else OfPhrases(job, m - 1) + OfPhrase(job, job.g.phrases[m - 1], job.g.maxvars + 1)
  }

  lemma {:induction false} OfCellHas(job: Job, p: Phrase, ts: seq<Reading>, n: nat, c: Choice)
    requires n <= |ts|
    ensures c in OfCell(job, p, ts, n) <==> c.p == p && c.t in ts[..n] && Possible(job, p, c.t)
  {
    if n > 0 { OfCellHas(job, p, ts, n - 1, c); }
  }

  /** The reading is one of the phrase's source side with fewer than h holes. */
  ghost predicate IsRead(job: Job, c: Choice, h: nat) {
    exists x: nat :: x < h && IsReading(job.g, c.p.box.i1, c.p.box.i2, x, c.t)
  }

  lemma {:induction false} OfPhraseHas(job: Job, p: Phrase, h: nat, c: Choice)
    ensures c in OfPhrase(job, p, h) <==> c.p == p && Possible(job, p, c.t) && IsRead(job, c, h)
  {
    hide Cell, IsReading, Possible;
    if h > 0 {
      var ts := Cell(job.g, p.box.i1, p.box.i2, h - 1);
      OfPhraseHas(job, p, h - 1, c);
      OfCellHas(job, p, ts, |ts|, c);
      CellHas(job.g, p.box.i1, p.box.i2, h - 1, c.t);
      assert ts[..|ts|] == ts;
    }
  }

  /** A sequence of words and phrases, end to end over the phrase's source side
      and within the limits, of which a rule can be made. */
  ghost predicate IsWanted(job: Job, p: Phrase, ps: seq<Piece>) {
    && p in job.g.phrases && EndToEnd(ps, p.box.i1, p.box.i2) && WithinLimits(job.g, ps) && |HolePlaces(ps)| <= job.g.maxvars
    && Makes(job.s, p, ps, job.requireAligned, job.prefixLabels)
  }

  lemma WantedIs(job: Job, c: Choice)
    ensures IsWanted(job, c.p, Pieces(c.t)) <==>
              c.p in job.g.phrases && Possible(job, c.p, c.t) && IsRead(job, c, job.g.maxvars + 1)
  {
    hide EndToEnd, WithinLimits, HolePlaces, IsReading, Makes;
    if c.p in job.g.phrases {
      var k :| 0 <= k < |job.g.phrases| && job.g.phrases[k] == c.p;
      assert Starts(job.g, c.p.box.i1);
    }
    forall x: nat ensures IsReading(job.g, c.p.box.i1, c.p.box.i2, x, c.t) ==> |HolePlaces(Pieces(c.t))| == x {
      ReadingIs(job.g, c.p.box.i1, c.p.box.i2, x, c.t);
    }
    ReadingIs(job.g, c.p.box.i1, c.p.box.i2, |HolePlaces(Pieces(c.t))|, c.t);
  }

  lemma {:induction false} OfPhrasesHas(job: Job, m: nat, c: Choice)
    requires m <= |job.g.phrases|
    ensures c in OfPhrases(job, m)
            <==> c.p in job.g.phrases[..m] && Possible(job, c.p, c.t) && IsRead(job, c, job.g.maxvars + 1)
  {
    hide OfPhrase, IsRead, Possible;
    if m > 0 {
      OfPhrasesHas(job, m - 1, c);
      OfPhraseHas(job, job.g.phrases[m - 1], job.g.maxvars + 1, c);
    }
  }

  // ----- none twice

  lemma {:induction false} OfCellOnce(job: Job, p: Phrase, ts: seq<Reading>, n: nat)
    requires n <= |ts| && NoRepeat(ts)
    ensures NoRepeat(OfCell(job, p, ts, n))
  {
    hide Possible;
    if n > 0 {
      OfCellOnce(job, p, ts, n - 1);
      OfCellHas(job, p, ts, n - 1, Choice(p, ts[n - 1]));
      var a, b := OfCell(job, p, ts, n - 1), if Possible(job, p, ts[n - 1]) then [Choice(p, ts[n - 1])] else [];
      JoinNoRepeat(a, b);
    }
  }

  lemma {:induction false} OfPhraseOnce(job: Job, p: Phrase, h: nat)
    requires NoRepeat(job.g.phrases) && Ready(job) && p.box.i2 <= job.g.n
    ensures NoRepeat(OfPhrase(job, p, h))
  {
    hide Cell, IsReading, Possible, Ready, NoRepeat;
    NothingTwice();
    if h > 0 {
      var ts := Cell(job.g, p.box.i1, p.box.i2, h - 1);
      OfPhraseOnce(job, p, h - 1);
      CellOnce(job.g, p.box.i1, p.box.i2, h - 1);
      OfCellOnce(job, p, ts, |ts|);
      var a, b := OfPhrase(job, p, h - 1), OfCell(job, p, ts, |ts|);
      forall c | c in a ensures c !in b {
        OfPhraseHas(job, p, h - 1, c);
        OfCellHas(job, p, ts, |ts|, c);
        CellHas(job.g, p.box.i1, p.box.i2, h - 1, c.t);
        var x: nat :| x < h - 1 && IsReading(job.g, p.box.i1, p.box.i2, x, c.t);
        OneCount(job, p, x, h - 1, c.t);
        assert ts[..|ts|] == ts;
      }
      JoinNoRepeat(a, b);
    }
  }

  lemma NothingTwice()
    ensures NoRepeat<Choice>([])
  {
  }

  /** A reading belongs to one number of holes only. */
  lemma OneCount(job: Job, p: Phrase, x: nat, y: nat, t: Reading)
    requires Ready(job) && p.box.i2 <= job.g.n && x != y && IsReading(job.g, p.box.i1, p.box.i2, x, t)
    ensures !IsReading(job.g, p.box.i1, p.box.i2, y, t)
  {
    hide IsReading;
    ReadingIsReady(job, p.box.i1, p.box.i2, x, t);
    if IsReading(job.g, p.box.i1, p.box.i2, y, t) { ReadingIsReady(job, p.box.i1, p.box.i2, y, t); }
  }

  lemma {:induction false} OfPhrasesOnce(job: Job, m: nat)
    requires NoRepeat(job.g.phrases) && Ready(job) && m <= |job.g.phrases|
    ensures NoRepeat(OfPhrases(job, m))
  {
    hide NoRepeat, OfPhrase, Ready;
    NothingTwice();
    if m > 0 {
      var p := job.g.phrases[m - 1];
      OfPhrasesOnce(job, m - 1);
      OfPhraseOnce(job, p, job.g.maxvars + 1);
      var a, b := OfPhrases(job, m - 1), OfPhrase(job, p, job.g.maxvars + 1);
      forall c | c in a ensures c !in b { OtherPhrase(job, m, c); }
      JoinNoRepeat(a, b);
    }
  }

  lemma OtherPhrase(job: Job, m: nat, c: Choice)
    requires NoRepeat(job.g.phrases) && 0 < m <= |job.g.phrases| && c in OfPhrases(job, m - 1)
    ensures c !in OfPhrase(job, job.g.phrases[m - 1], job.g.maxvars + 1)
  {
    hide OfPhrases, OfPhrase, Possible, IsRead;
    var p := job.g.phrases[m - 1];
    OfPhrasesHas(job, m - 1, c);
    OfPhraseHas(job, p, job.g.maxvars + 1, c);
    var k :| 0 <= k < m - 1 && job.g.phrases[k] == c.p;
  }

  // ----- making them

  datatype Made = Made(c: Choice, r: Rule)

  /** Putting back what the variables stand for gives both sides of the phrase,
      and each variable comes once on each side. */
  predicate Restores(job: Job, m: Made) {
    var ps := Pieces(m.c.t);
    var holes, box := Holes(ps, |ps|), m.c.p.box;
    && box.i1 <= box.i2 <= |job.s.fwords| && box.j1 <= box.j2 <= |job.s.ewords| && m.r.x == m.c.p.x
    && |holes| <= job.g.maxvars && |m.r.f| == |ps| <= job.g.maxlen
    && ExpandAll(job.s.fwords, holes, false, m.r.f, |m.r.f|) == job.s.fwords[box.i1..box.i2]
    && ExpandAll(job.s.ewords, holes, true, m.r.e, |m.r.e|) == job.s.ewords[box.j1..box.j2]
    && VariablesOnce(m.r.f, holes) && VariablesOnce(m.r.e, holes)
  }

  function Choices(made: seq<Made>): (r: seq<Choice>)
    ensures |r| == |made| && forall k :: 0 <= k < |r| ==> r[k] == made[k].c
  {
    seq(|made|, k requires 0 <= k < |made| => made[k].c)
  }

  lemma ChoicesMore(made: seq<Made>, m: Made)
    ensures Choices(made + [m]) == Choices(made) + [m.c]
  {
  }

  lemma {:induction false} ReadingIsShort(g: Task, i1: nat, i2: nat, holes: nat, t: Reading)
    requires IsReading(g, i1, i2, holes, t)
    ensures |Pieces(t)| == Length(t) && Length(t) <= g.maxlen
  {
    if t.Then? {
      var k := if t.last.Word? then t.last.i else t.last.p.box.i1;
      var h := if t.last.Word? then holes else holes - 1;
      ReadingIsShort(g, i1, k, h, t.prior);
    }
  }

  /** Tries one reading of a phrase. */
  method TryReading(job: Job, p: Phrase, h: nat, t: Reading) returns (r: Option<Rule>)
    requires Ready(job) && p in job.g.phrases && h <= job.g.maxvars && IsReading(job.g, p.box.i1, p.box.i2, h, t)
    ensures r.Some? <==> Possible(job, p, t)
    ensures r.Some? ==> Restores(job, Made(Choice(p, t), r.value))
  {
    hide IsReading, PiecesOk, VariablesOnce, ExpandAll, Makes;
    ReadingIsReady(job, p.box.i1, p.box.i2, h, t);
    ReadingIsSource(job.g, job.s, p.box.i1, p.box.i2, h, t);
    ReadingIsShort(job.g, p.box.i1, p.box.i2, h, t);
    r := MakeRule(job.s, p, Pieces(t), job.requireAligned, job.prefixLabels);
  }

  /** The rules of all readings of one phrase with one number of holes. */
  method TryCell(job: Job, p: Phrase, h: nat, ts: seq<Reading>) returns (made: seq<Made>)
    requires Ready(job) && p in job.g.phrases && h <= job.g.maxvars && ts == Cell(job.g, p.box.i1, p.box.i2, h)
    ensures Choices(made) == OfCell(job, p, ts, |ts|) && forall k :: 0 <= k < |made| ==> Restores(job, made[k])
  {
    hide Cell, Ready, IsReading, Possible, Restores, Pieces;
    made := [];
    for d := 0 to |ts|
      invariant Choices(made) == OfCell(job, p, ts, d) && forall k :: 0 <= k < |made| ==> Restores(job, made[k])
    {
      CellHas(job.g, p.box.i1, p.box.i2, h, ts[d]);
      var r := TryReading(job, p, h, ts[d]);
      if r.Some? {
        ChoicesMore(made, Made(Choice(p, ts[d]), r.value));
        made := made + [Made(Choice(p, ts[d]), r.value)];
      }
    }
  }

  /** The longest source side of a phrase. */
  method LongestSide(g: Subtractable) returns (m: nat)
    ensures forall k :: 0 <= k < |g.phrases| ==> g.phrases[k].box.i2 - g.phrases[k].box.i1 <= m
  {
    m := 0;
    for k := 0 to |g.phrases|
      invariant forall j :: 0 <= j < k ==> g.phrases[j].box.i2 - g.phrases[j].box.i1 <= m
    {
      var box := g.phrases[k].box;
      if box.i2 - box.i1 > m { m := box.i2 - box.i1; }
    }
  }

  /** All rules of all phrases: one for each sequence of words and phrases of
      which one can be made, and each restores both sides of its phrase. From
      distinct phrases none comes twice. */
  method SubtractPhrases(job: Job) returns (made: seq<Made>)
    requires Ready(job)
    ensures Choices(made) == OfPhrases(job, |job.g.phrases|)
    ensures forall k :: 0 <= k < |made| ==> Restores(job, made[k])
    ensures forall k :: 0 <= k < |made| ==> IsWanted(job, made[k].c.p, Pieces(made[k].c.t))
    ensures forall p, ps {:trigger IsWanted(job, p, ps)} :: IsWanted(job, p, ps) ==>
              exists k :: 0 <= k < |made| && made[k].c.p == p && Pieces(made[k].c.t) == ps
    ensures NoRepeat(job.g.phrases) ==> forall k, m :: 0 <= k < m < |made| ==> made[k].c != made[m].c
  {
    hide Cell, Ready, Restores, OfCell, Starts, At, IsWanted;
    var g := job.g;
    made := [];
    if g.phrases == [] {
      AllAndOnce(job, made);
      return;
    }
    var maxabslen := LongestSide(g);
    var c := new SubtractionChart(g);
    c.Fill(maxabslen);
    assert Full(g, c.chart, maxabslen);
    for m := 0 to |g.phrases|
      invariant Full(g, c.chart, maxabslen)
      invariant Choices(made) == OfPhrases(job, m) && forall k :: 0 <= k < |made| ==> Restores(job, made[k])
    {
      var p := g.phrases[m];
      for h := 0 to g.maxvars + 1
        invariant Full(g, c.chart, maxabslen)
        invariant Choices(made) == OfPhrases(job, m) + OfPhrase(job, p, h)
        invariant forall k :: 0 <= k < |made| ==> Restores(job, made[k])
      {
        FullAt(g, c.chart, maxabslen, m);
        var ts := At(c.chart, p.box.i1, p.box.i2, h);
        var more := TryCell(job, p, h, ts);
        ChoicesJoin(made, more);
        made := made + more;
      }
    }
    AllAndOnce(job, made);
  }

  /** All cells that may be asked for are filled. */
  ghost predicate Full(g: Subtractable, chart: Cells, maxabslen: nat) {
    forall a: nat, b: nat, h: nat :: Starts(g, a) && a <= b <= g.n && b - a <= maxabslen && h <= g.maxvars ==>
      At(chart, a, b, h) == Cell(g, a, b, h)
  }

  lemma FullAt(g: Subtractable, chart: Cells, maxabslen: nat, m: nat)
    requires Full(g, chart, maxabslen) && m < |g.phrases| && g.phrases[m].box.i2 - g.phrases[m].box.i1 <= maxabslen
    ensures var box := g.phrases[m].box;
            forall h: nat {:trigger At(chart, box.i1, box.i2, h)} :: h <= g.maxvars ==>
              At(chart, box.i1, box.i2, h) == Cell(g, box.i1, box.i2, h)
  {
    hide Cell, At;
    assert Starts(g, g.phrases[m].box.i1);
  }

  lemma ChoicesJoin(a: seq<Made>, b: seq<Made>)
    ensures Choices(a + b) == Choices(a) + Choices(b)
  {
  }

  /** Exactly the wanted rules are made, and from distinct phrases each once. */
  lemma AllAndOnce(job: Job, made: seq<Made>)
    requires Ready(job) && Choices(made) == OfPhrases(job, |job.g.phrases|)
    ensures forall k :: 0 <= k < |made| ==> IsWanted(job, made[k].c.p, Pieces(made[k].c.t))
    ensures forall p, ps {:trigger IsWanted(job, p, ps)} :: IsWanted(job, p, ps) ==>
              exists k :: 0 <= k < |made| && made[k].c.p == p && Pieces(made[k].c.t) == ps
    ensures NoRepeat(job.g.phrases) ==> forall k, m :: 0 <= k < m < |made| ==> made[k].c != made[m].c
  {
    hide OfPhrases, Possible, IsRead, Ready, IsWanted, Pieces;
    var cs := Choices(made);
    assert job.g.phrases[..|job.g.phrases|] == job.g.phrases;
    forall c ensures c in cs <==> IsWanted(job, c.p, Pieces(c.t)) {
      OfPhrasesHas(job, |job.g.phrases|, c);
      WantedIs(job, c);
    }
    forall k | 0 <= k < |made| ensures IsWanted(job, made[k].c.p, Pieces(made[k].c.t)) { assert cs[k] in cs; }
    forall p, ps | IsWanted(job, p, ps) ensures exists k :: 0 <= k < |made| && made[k].c.p == p && Pieces(made[k].c.t) == ps {
      PiecesOfReading(ps);
      var c := Choice(p, ReadingOf(ps));
      assert c in cs;
      var k :| 0 <= k < |cs| && cs[k] == c;
      assert made[k].c == c;
    }
    if NoRepeat(job.g.phrases) {
      OfPhrasesOnce(job, |job.g.phrases|);
      forall k, m | 0 <= k < m < |made| ensures made[k].c != made[m].c { assert cs[k] != cs[m]; }
    }
  }
}
