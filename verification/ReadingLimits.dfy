/** Readings as sequences of pieces: which sequences of words and phrases are
    readings of a stretch. */
module ReadingLimits {
  import opened Subtraction
  import opened RuleMaking

  function Left(e: Piece): nat {
    match e
    case Word(i) => i
    case Hole(p) => p.box.i1
  }

  function Right(e: Piece): nat {
    match e
    case Word(i) => i + 1
    case Hole(p) => p.box.i2
  }

  /** The pieces lie end to end from i1 to i2. */
  predicate EndToEnd(ps: seq<Piece>, i1: nat, i2: nat) {
    if ps == [] then i1 == i2
    else
      && Left(ps[0]) == i1 && Right(ps[|ps| - 1]) == i2
      && forall k :: 0 <= k < |ps| - 1 ==> Right(ps[k]) == Left(ps[k + 1])
  }

  /** The hole may stand at place `k`. */
  predicate HoleOk(g: Task, ps: seq<Piece>, k: nat)
    requires k < |ps| && ps[k].Hole?
  {
    && ps[k].p in g.phrases && ps[k].p.box.i2 - ps[k].p.box.i1 >= g.minhole
    && (g.forbidAdjacent && k > 0 ==> ps[k - 1].Word?)
    && (g.forceFrenchPrefix && ps[k].p.x in g.prefixLabels ==> k == 0)
  }

  /** Not too many pieces, and every hole where it may be. */
  predicate WithinLimits(g: Task, ps: seq<Piece>) {
    |ps| <= g.maxlen && forall k {:trigger ps[k]} :: 0 <= k < |ps| && ps[k].Hole? ==> HoleOk(g, ps, k)
  }

  function HolePlaces(ps: seq<Piece>): set<int> {
    set k | 0 <= k < |ps| && ps[k].Hole?
  }

  /** The reading with these pieces. */
  function ReadingOf(ps: seq<Piece>): Reading {
    if ps == [] then Empty else Then(ReadingOf(ps[..|ps| - 1]), ps[|ps| - 1])
  }

  lemma {:induction false} PiecesOfReading(ps: seq<Piece>)
    ensures Pieces(ReadingOf(ps)) == ps
  {
    if ps != [] {
      PiecesOfReading(ps[..|ps| - 1]);
      assert ps == ps[..|ps| - 1] + [ps[|ps| - 1]];
    }
  }

  lemma {:induction false} ReadingOfPieces(t: Reading)
    ensures ReadingOf(Pieces(t)) == t && |Pieces(t)| == Length(t)
  {
    if t.Then? {
      ReadingOfPieces(t.prior);
      assert Pieces(t)[..|Pieces(t)| - 1] == Pieces(t.prior);
    }
  }

  lemma HolePlacesMore(ps: seq<Piece>, e: Piece)
    ensures |HolePlaces(ps + [e])| == |HolePlaces(ps)| + (if e.Hole? then 1 else 0)
  {
    var a, b := HolePlaces(ps), HolePlaces(ps + [e]);
    if e.Hole? {
      assert b == a + {|ps|};
    } else {
      assert b == a;
    }
  }

  lemma EndToEndMore(ps: seq<Piece>, e: Piece, i1: nat, i2: nat)
    ensures EndToEnd(ps + [e], i1, i2) <==> EndToEnd(ps, i1, Left(e)) && Right(e) == i2
  {
    var more := ps + [e];
    if ps != [] {
      if EndToEnd(more, i1, i2) {
        forall k | 0 <= k < |ps| - 1 ensures Right(ps[k]) == Left(ps[k + 1]) { assert Right(more[k]) == Left(more[k + 1]); }
        assert Right(more[|ps| - 1]) == Left(more[|ps|]);
      }
      if EndToEnd(ps, i1, Left(e)) && Right(e) == i2 {
        forall k | 0 <= k < |more| - 1 ensures Right(more[k]) == Left(more[k + 1]) {
          if k < |ps| - 1 { assert Right(ps[k]) == Left(ps[k + 1]); }
        }
      }
    }
  }

  lemma WithinMore(g: Task, ps: seq<Piece>, e: Piece)
    ensures WithinLimits(g, ps + [e]) <==>
              WithinLimits(g, ps) && |ps| < g.maxlen && (e.Hole? ==> HoleOk(g, ps + [e], |ps|))
  {
    var more := ps + [e];
    if WithinLimits(g, more) {
      forall k | 0 <= k < |ps| && ps[k].Hole? ensures HoleOk(g, ps, k) { assert HoleOk(g, more, k); }
    }
    if WithinLimits(g, ps) && |ps| < g.maxlen && (e.Hole? ==> HoleOk(g, more, |ps|)) {
      forall k | 0 <= k < |more| && more[k].Hole? ensures HoleOk(g, more, k) {
        if k < |ps| { assert HoleOk(g, ps, k); }
      }
    }
  }

  lemma LastHole(g: Task, t: Reading)
    requires t.Then? && t.last.Hole?
    ensures HoleOk(g, Pieces(t), |Pieces(t.prior)|) <==>
              && t.last.p in g.phrases && t.last.p.box.i2 - t.last.p.box.i1 >= g.minhole
              && (g.forbidAdjacent ==> t.prior.Empty? || t.prior.last.Word?)
              && (g.forceFrenchPrefix && t.last.p.x in g.prefixLabels ==> t.prior.Empty?)
  {
    if t.prior.Then? { assert Pieces(t)[|Pieces(t.prior)| - 1] == t.prior.last; }
  }

  lemma {:induction false} GoesRight(g: Subtractable, t: Reading, i1: nat, i2: nat)
    requires EndToEnd(Pieces(t), i1, i2) && WithinLimits(g, Pieces(t))
    ensures i1 <= i2
  {
    if t.Then? {
      EndToEndMore(Pieces(t.prior), t.last, i1, i2);
      WithinMore(g, Pieces(t.prior), t.last);
      if t.last.Hole? { LastHole(g, t); }
      GoesRight(g, t.prior, i1, Left(t.last));
    }
  }

  /** A reading of a stretch is any sequence of words and phrases, end to end,
      within the limits. */
  lemma {:induction false} ReadingIs(g: Subtractable, i1: nat, i2: nat, holes: nat, t: Reading)
    ensures IsReading(g, i1, i2, holes, t) <==>
              Starts(g, i1) && EndToEnd(Pieces(t), i1, i2) && WithinLimits(g, Pieces(t)) && |HolePlaces(Pieces(t))| == holes
    decreases t
  {
    hide Starts, EndToEnd, WithinLimits, HoleOk;
    if t.Then? {
      var ps, e := Pieces(t.prior), t.last;
      ReadingOfPieces(t);
      EndToEndMore(ps, e, i1, i2);
      WithinMore(g, ps, e);
      HolePlacesMore(ps, e);
      if e.Hole? { LastHole(g, t); }
      if EndToEnd(ps, i1, Left(e)) && WithinLimits(g, ps) { GoesRight(g, t.prior, i1, Left(e)); }
      ReadingIs(g, i1, Left(e), if e.Word? then holes else if holes > 0 then holes - 1 else 0, t.prior);
    } else {
      NoPieces(g, i1, i2, holes);
    }
  }

  lemma NoPieces(g: Subtractable, i1: nat, i2: nat, holes: nat)
    ensures EndToEnd([], i1, i2) <==> i1 == i2
    ensures WithinLimits(g, []) && HolePlaces([]) == {}
  {
  }
}
