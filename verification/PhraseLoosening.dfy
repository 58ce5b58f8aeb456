/** Loosening phrase pairs over unaligned words at their edges. */
module PhraseLoosening {
  import opened Wrappers
  import opened PhrasePairs
  import opened PhraseExtraction

  /** How far one side of a box may be moved. */
  function Reach(limit: Option<nat>, size: nat): nat {
    match limit
    case None => size
    case Some(k) => k
  }

  /** All positions from r to p are unaligned, and not too many. */
  predicate Free(aligned: seq<bool>, r: nat, p: nat, limit: Option<nat>) {
    r <= p <= |aligned| && p - r <= Reach(limit, |aligned|) && forall k :: r <= k < p ==> !aligned[k]
  }

  /** How far left a side at p may be moved. */
  method Before(aligned: seq<bool>, p: nat, limit: Option<nat>) returns (q: nat)
    requires p <= |aligned|
    ensures forall r: nat {:trigger Free(aligned, r, p, limit)} :: Free(aligned, r, p, limit) <==> q <= r <= p
  {
    q := p;
    var stop := if limit.None? || p < limit.value then 0 else p - limit.value;
    while q > stop && !aligned[q - 1]
      invariant stop <= q <= p && forall k :: q <= k < p ==> !aligned[k]
    {
      q := q - 1;
    }
  }

  /** How far right a side at p may be moved. */
  method After(aligned: seq<bool>, p: nat, limit: Option<nat>) returns (q: nat)
    requires p <= |aligned|
    ensures forall r: nat {:trigger Free(aligned, p, r, limit)} :: Free(aligned, p, r, limit) <==> p <= r <= q
  {
    q := p;
    var stop := if limit.None? || p + limit.value > |aligned| then |aligned| else p + limit.value;
    while q < stop && !aligned[q]
      invariant p <= q <= stop && forall k :: p <= k < q ==> !aligned[k]
    {
      q := q + 1;
    }
  }

  /** The last side varies. */
  method VaryJ2(i1: nat, j1: nat, i2: nat, lo: nat, hi: nat) returns (r: seq<Box>)
    ensures NoRepeat(r)
    ensures forall b {:trigger b in r} :: b in r <==> b.i1 == i1 && b.j1 == j1 && b.i2 == i2 && lo <= b.j2 <= hi
  {
    r := [];
    var j2 := lo;
    while j2 <= hi
      invariant lo <= j2 && (lo <= hi ==> j2 <= hi + 1) && NoRepeat(r)
      invariant forall b {:trigger b in r} :: b in r <==> b.i1 == i1 && b.j1 == j1 && b.i2 == i2 && lo <= b.j2 < j2 && b.j2 <= hi
    {
      JoinNoRepeat(r, [Box(i1, j1, i2, j2)]);
      r := r + [Box(i1, j1, i2, j2)];
      j2 := j2 + 1;
    }
  }

  function Max(a: nat, b: nat): nat { if a < b then b else a }

  function Min(a: nat, b: nat): nat { if a < b then a else b }

  /** The target sides vary. */
  method VaryJ(i1: nat, i2: nat, j1Min: nat, j1Max: nat, j2Min: nat, j2Max: nat, maxlen: nat) returns (r: seq<Box>)
    ensures NoRepeat(r)
    ensures forall b {:trigger b in r} :: b in r <==>
              b.i1 == i1 && b.i2 == i2 && j1Min <= b.j1 <= j1Max && Max(b.j1 + 1, j2Min) <= b.j2 <= Min(j2Max, b.j1 + maxlen)
  {
    r := [];
    var j1 := j1Min;
    while j1 <= j1Max
      invariant j1Min <= j1 && (j1Min <= j1Max ==> j1 <= j1Max + 1) && NoRepeat(r)
      invariant forall b {:trigger b in r} :: b in r <==>
                  b.i1 == i1 && b.i2 == i2 && j1Min <= b.j1 < j1 && b.j1 <= j1Max
                  && Max(b.j1 + 1, j2Min) <= b.j2 <= Min(j2Max, b.j1 + maxlen)
    {
      var s := VaryJ2(i1, j1, i2, Max(j1 + 1, j2Min), Min(j2Max, j1 + maxlen));
      JoinNoRepeat(r, s);
      r := r + s;
      j1 := j1 + 1;
    }
  }

  /** What one core's loosening yields, side by side. */
  predicate Between(b: Box, i1Min: nat, i1Max: nat, j1Min: nat, j1Max: nat, i2Min: nat, i2Max: nat, j2Min: nat, j2Max: nat, maxlen: nat) {
    && i1Min <= b.i1 <= i1Max && Max(b.i1 + 1, i2Min) <= b.i2 <= Min(i2Max, b.i1 + maxlen)
    && j1Min <= b.j1 <= j1Max && Max(b.j1 + 1, j2Min) <= b.j2 <= Min(j2Max, b.j1 + maxlen)
  }

  method VaryI2(i1: nat, j1Min: nat, j1Max: nat, i2Min: nat, i2Max: nat, j2Min: nat, j2Max: nat, maxlen: nat) returns (r: seq<Box>)
    ensures NoRepeat(r)
    ensures forall b {:trigger b in r} :: b in r <==> Between(b, i1, i1, j1Min, j1Max, i2Min, i2Max, j2Min, j2Max, maxlen)
  {
    r := [];
    var i2 := Max(i1 + 1, i2Min);
    while i2 <= Min(i2Max, i1 + maxlen)
      invariant Max(i1 + 1, i2Min) <= i2 && (Max(i1 + 1, i2Min) <= Min(i2Max, i1 + maxlen) ==> i2 <= Min(i2Max, i1 + maxlen) + 1)
      invariant NoRepeat(r)
      invariant forall b {:trigger b in r} :: b in r <==>
                  Between(b, i1, i1, j1Min, j1Max, i2Min, i2Max, j2Min, j2Max, maxlen) && b.i2 < i2
      decreases i2Max + 1 - i2
    {
      var s := VaryJ(i1, i2, j1Min, j1Max, j2Min, j2Max, maxlen);
      JoinNoRepeat(r, s);
      r := r + s;
      i2 := i2 + 1;
    }
  }

  method VaryI(i1Min: nat, i1Max: nat, j1Min: nat, j1Max: nat, i2Min: nat, i2Max: nat, j2Min: nat, j2Max: nat, maxlen: nat)
    returns (r: seq<Box>)
    ensures NoRepeat(r)
    ensures forall b {:trigger b in r} :: b in r <==> Between(b, i1Min, i1Max, j1Min, j1Max, i2Min, i2Max, j2Min, j2Max, maxlen)
  {
    r := [];
    var i1 := i1Min;
    while i1 <= i1Max
      invariant i1Min <= i1 && (i1Min <= i1Max ==> i1 <= i1Max + 1) && NoRepeat(r)
      invariant forall b {:trigger b in r} :: b in r <==>
                  Between(b, i1Min, i1Max, j1Min, j1Max, i2Min, i2Max, j2Min, j2Max, maxlen) && b.i1 < i1
    {
      var s := VaryI2(i1, j1Min, j1Max, i2Min, i2Max, j2Min, j2Max, maxlen);
      JoinNoRepeat(r, s);
      r := r + s;
      i1 := i1 + 1;
    }
  }

  /** Loosening a core is moving each side over unaligned words. */
  lemma LoosenedByFree(a: Links, faligned: seq<bool>, ealigned: seq<bool>, core: Box, b: Box, flimit: Option<nat>, elimit: Option<nat>)
    requires Flags(a, faligned, ealigned) && Tight(a, core)
    ensures Loosened(a, core, b, Reach(flimit, |a.aligned|), Reach(elimit, a.n)) <==>
              Free(faligned, b.i1, core.i1, flimit) && Free(faligned, core.i2, b.i2, flimit)
              && Free(ealigned, b.j1, core.j1, elimit) && Free(ealigned, core.j2, b.j2, elimit)
  {
    hide Closed, FAligned, EAligned, Reach;
  }

  lemma BetweenIsWithin(core: Box, b: Box, i1Min: nat, i2Max: nat, j1Min: nat, j2Max: nat, maxlen: nat)
    requires core.i1 < core.i2 && core.j1 < core.j2
    ensures Between(b, i1Min, core.i1, j1Min, core.j1, core.i2, i2Max, core.j2, j2Max, maxlen) <==>
              i1Min <= b.i1 <= core.i1 && core.i2 <= b.i2 <= i2Max && j1Min <= b.j1 <= core.j1 && core.j2 <= b.j2 <= j2Max
              && Within(b, maxlen)
  {
  }

  /** One core with every choice of unaligned words around it. */
  method LoosenOne(a: Links, faligned: seq<bool>, ealigned: seq<bool>, core: Box, maxlen: nat, flimit: Option<nat>, elimit: Option<nat>)
    returns (r: seq<Box>)
    requires Flags(a, faligned, ealigned) && Tight(a, core)
    ensures NoRepeat(r)
    ensures forall b {:trigger b in r} :: b in r <==>
              Loosened(a, core, b, Reach(flimit, |a.aligned|), Reach(elimit, a.n)) && Within(b, maxlen)
  {
    hide Free, Loosened, Between, Within, Closed;
    var i1Min := Before(faligned, core.i1, flimit);
    var j1Min := Before(ealigned, core.j1, elimit);
    var i2Max := After(faligned, core.i2, flimit);
    var j2Max := After(ealigned, core.j2, elimit);
    r := VaryI(i1Min, core.i1, j1Min, core.j1, core.i2, i2Max, core.j2, j2Max, maxlen);
    forall b ensures b in r <==> Loosened(a, core, b, Reach(flimit, |a.aligned|), Reach(elimit, a.n)) && Within(b, maxlen) {
      LoosenedByFree(a, faligned, ealigned, core, b, flimit, elimit);
      BetweenIsWithin(core, b, i1Min, i2Max, j1Min, j2Max, maxlen);
    }
  }

  /** Some of the first `n` cores loosens to the box. */
  ghost predicate LoosenedFrom(a: Alignment, phrases: seq<Box>, n: nat, b: Box, fmax: nat, emax: nat) {
    n <= |phrases| && exists k :: 0 <= k < n && Loosened(a, phrases[k], b, fmax, emax)
  }

  /** All cores with every choice of unaligned words around them. */
  method LoosenPhrases(a: Links, faligned: seq<bool>, ealigned: seq<bool>, phrases: seq<Box>, maxlen: nat,
                       flimit: Option<nat>, elimit: Option<nat>)
    returns (r: seq<Box>)
    requires Flags(a, faligned, ealigned) && NoRepeat(phrases) && forall c :: c in phrases ==> Tight(a, c)
    ensures NoRepeat(r)
    ensures forall b {:trigger b in r} :: b in r <==>
              LoosenedFrom(a, phrases, |phrases|, b, Reach(flimit, |a.aligned|), Reach(elimit, a.n)) && Within(b, maxlen)
  {
    hide Loosened, Tight, Within, Reach, Flags;
    var fmax, emax := Reach(flimit, |a.aligned|), Reach(elimit, a.n);
    r := [];
    for k := 0 to |phrases|
      invariant NoRepeat(r)
      invariant forall b {:trigger b in r} :: b in r <==> LoosenedFrom(a, phrases, k, b, fmax, emax) && Within(b, maxlen)
    {
      var s := LoosenOne(a, faligned, ealigned, phrases[k], maxlen, flimit, elimit);
      forall b | b in r ensures b !in s {
        var c :| 0 <= c < k && Loosened(a, phrases[c], b, fmax, emax);
        if b in s { CoreIsUnique(a, phrases[c], phrases[k], b, fmax, emax); }
      }
      JoinNoRepeat(r, s);
      r := r + s;
    }
  }

  /** Without limits, extracting and loosening yields every phrase pair of
      bounded length exactly once, and nothing else. */
  method AllPhrases(a: Links, faligned: seq<bool>, ealigned: seq<bool>, maxlen: nat) returns (r: seq<Box>)
    requires Flags(a, faligned, ealigned)
    ensures NoRepeat(r)
    ensures forall b :: b in r <==> Consistent(a, b) && Within(b, maxlen)
  {
    hide Consistent, Loosened, Tight, FAligned, EAligned;
    var phrases := ExtractPhrases(a, faligned, maxlen);
    r := LoosenPhrases(a, faligned, ealigned, phrases, maxlen, None, None);
    forall b ensures b in r <==> Consistent(a, b) && Within(b, maxlen) {
      if b in r {
        var k :| 0 <= k < |phrases| && Loosened(a, phrases[k], b, |a.aligned|, a.n);
        LoosenedIsConsistent(a, phrases[k], b, |a.aligned|, a.n);
      }
      if Consistent(a, b) && Within(b, maxlen) {
        var core := HasCore(a, b);
        CoreIsWithin(a, core, b, maxlen);
        var k :| 0 <= k < |phrases| && phrases[k] == core;
      }
    }
  }

  lemma CoreIsWithin(a: Links, core: Box, b: Box, maxlen: nat)
    requires Loosened(a, core, b, |a.aligned|, a.n) && Within(b, maxlen)
    ensures Within(core, maxlen)
  {
  }
}
