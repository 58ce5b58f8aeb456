/** A beam of the cheapest items of one span, with lazy deletion. */
module Beams {
  import opened Wrappers

  const IMPOSSIBLE: real := 999999.0
  const EPSILON: real := 0.000001

  /** What makes two items the same, and one way of deriving an item. */
  type Signature = nat
  datatype Derivation = Axiom(n: nat) | Apply(rule: nat, ants: seq<Ant>)

  /** An item of a span that a derivation rests on. */
  datatype Ant = Ant(i: nat, j: nat, item: Signature)

  /** An item in the beam: its cost and its derivations. */
  datatype Held = Held(cost: real, deds: seq<Derivation>)

  type Index = map<Signature, Held>

  /** A place in the queue; its item is gone once it has been displaced. */
  datatype Slot = Slot(cost: real, item: Option<Signature>)

  // ----- what one offer does to the index

  /** The index after an offer, before pruning: a cheaper item takes over the
      derivations of the one it displaces, a dearer one gives its own away. */
  function Offered(index: Index, x: Signature, cost: real, ded: Derivation): Index {
    if x !in index then index[x := Held(cost, [ded])]
    else if cost < index[x].cost then index[x := Held(cost, [ded] + index[x].deds)]
    else index[x := Held(index[x].cost, index[x].deds + [ded])]
  }

  predicate Dearest(index: Index, z: Signature) {
    z in index && forall y :: y in index ==> index[y].cost <= index[z].cost
  }

  /** At most one item goes, one of the dearest, and only over the limit. */
  ghost predicate PrunedTo(mid: Index, index: Index, limit: Option<nat>) {
    if limit.Some? && |mid| > limit.value
    then exists z :: Dearest(mid, z) && index == mid - {z}
    else index == mid
  }

  // ----- what a beam holds

  /** The beam holds the cheapest items, each at the lowest cost offered. */
  predicate Keeps(index: Index, lowest: map<Signature, real>, limit: Option<nat>) {
    && (forall x :: x in index ==> x in lowest && index[x].cost == lowest[x])
    && (forall x :: x in lowest && x !in index ==>
          limit.Some? && |index| == limit.value && forall y :: y in index ==> index[y].cost <= lowest[x])
    && (limit.Some? ==> |index| <= limit.value)
    && (forall x :: x in lowest ==> lowest[x] < IMPOSSIBLE)
  }

  /** The lowest costs after one more offer, unless it is impossible. */
  function Lower(lowest: map<Signature, real>, x: Signature, cost: real): map<Signature, real> {
    if cost >= IMPOSSIBLE || (x in lowest && lowest[x] <= cost) then lowest else lowest[x := cost]
  }

  lemma OfferedSize(index: Index, x: Signature, cost: real, ded: Derivation)
    ensures |Offered(index, x, cost, ded)| == |index| + (if x in index then 0 else 1)
    ensures Offered(index, x, cost, ded).Keys == index.Keys + {x}
  {
    assert Offered(index, x, cost, ded).Keys == index.Keys + {x};
  }

  lemma RemovedSize(index: Index, z: Signature)
    requires z in index
    ensures |index - {z}| == |index| - 1
  {
    assert (index - {z}).Keys == index.Keys - {z};
  }

  lemma OfferInRoom(index: Index, mid: Index, lowest: map<Signature, real>, limit: Option<nat>, x: Signature, cost: real, ded: Derivation)
    requires Keeps(index, lowest, limit) && mid == Offered(index, x, cost, ded) && cost < IMPOSSIBLE
    requires |mid| == |index| + (if x in index then 0 else 1) && (limit.Some? ==> |mid| <= limit.value)
    ensures Keeps(mid, Lower(lowest, x, cost), limit)
  {
  }

  lemma OfferOver(index: Index, lowest: map<Signature, real>, limit: nat, x: Signature, cost: real, ded: Derivation, z: Signature,
                  index': Index)
    requires Keeps(index, lowest, Some(limit)) && x !in index && |index| == limit && cost < IMPOSSIBLE
    requires Dearest(index[x := Held(cost, [ded])], z)
    requires index' == index[x := Held(cost, [ded])] - {z} && |index'| == limit
    ensures Keeps(index', Lower(lowest, x, cost), Some(limit))
  {
    // An item pruned before and dearer now is dearest, and goes again.
    var mid := index[x := Held(cost, [ded])];
    var low := Lower(lowest, x, cost);
    forall y | y in low && y !in index' ensures forall w :: w in index' ==> index'[w].cost <= low[y] {
      if y != z { assert y in lowest && y !in index && z != x ==> mid[x].cost <= mid[z].cost <= lowest[y]; }
    }
  }

  /** An offer, then pruning, keeps the cheapest items. */
  lemma OfferKeeps(index: Index, index': Index, lowest: map<Signature, real>, limit: Option<nat>, x: Signature, cost: real, ded: Derivation)
    requires Keeps(index, lowest, limit) && PrunedTo(Offered(index, x, cost, ded), index', limit) && cost < IMPOSSIBLE
    ensures Keeps(index', Lower(lowest, x, cost), limit)
  {
    hide Keeps, Lower, Dearest;
    var mid := Offered(index, x, cost, ded);
    OfferedSize(index, x, cost, ded);
    KeepsFits(index, lowest, limit);
    if limit.Some? && |mid| > limit.value {
      var z :| Dearest(mid, z) && index' == mid - {z};
      DearestIsHeld(mid, z);
      RemovedSize(mid, z);
      OfferOver(index, lowest, limit.value, x, cost, ded, z, index');
    } else {
      hide Offered;
      OfferInRoom(index, mid, lowest, limit, x, cost, ded);
    }
  }

  lemma DearestIsHeld(index: Index, z: Signature)
    requires Dearest(index, z)
    ensures z in index
  {
  }

  lemma KeepsFits(index: Index, lowest: map<Signature, real>, limit: Option<nat>)
    requires Keeps(index, lowest, limit)
    ensures limit.Some? ==> |index| <= limit.value
    ensures forall x :: x in lowest ==> lowest[x] < IMPOSSIBLE
  {
  }

  /** Skipping an offer that is impossible, or not below everything held once
      the beam is full, changes nothing. */
  lemma SkipKeeps(index: Index, lowest: map<Signature, real>, limit: Option<nat>, x: Signature, cost: real)
    requires Keeps(index, lowest, limit)
    requires cost < IMPOSSIBLE ==> limit.Some? && |index| == limit.value && forall y :: y in index ==> index[y].cost <= cost
    ensures Keeps(index, Lower(lowest, x, cost), limit)
  {
  }

  /** Two beams that keep the cheapest of the same offers hold equally many
      items and differ only in items of one same cost. */
  lemma KeepsIsUnique(a: Index, b: Index, lowest: map<Signature, real>, limit: Option<nat>, x: Signature, y: Signature)
    requires Keeps(a, lowest, limit) && Keeps(b, lowest, limit)
    ensures |a| == |b|
    ensures x in a && x in b ==> a[x].cost == b[x].cost
    ensures x in a && x !in b && y in b && y !in a ==> a[x].cost == b[y].cost
  {
    if a.Keys <= lowest.Keys && b.Keys <= lowest.Keys {
      if forall z :: z in lowest ==> z in a {
        assert a.Keys == lowest.Keys;
        SubsetSize(b.Keys, lowest.Keys);
        if z :| z in lowest && z !in b {
          assert |b| == limit.value;
        } else {
          assert b.Keys == lowest.Keys;
        }
      } else {
        var z :| z in lowest && z !in a;
        if w :| w in lowest && w !in b {
        } else {
          assert b.Keys == lowest.Keys;
          SubsetSize(a.Keys, b.Keys);
        }
      }
    }
  }

  // ----- a threshold on costs

  /** The items that cost less than a bar. */
  function Trim(index: Index, bar: real): Index {
    map x | x in index && index[x].cost < bar :: index[x]
  }

  function TrimLow(lowest: map<Signature, real>, bar: real): map<Signature, real> {
    map x | x in lowest && lowest[x] < bar :: lowest[x]
  }

  /** What an item must cost less than, given the best. */
  function Bar(best: real, threshold: Option<real>): real {
    if threshold.Some? && best + threshold.value < IMPOSSIBLE then best + threshold.value else IMPOSSIBLE
  }

  /** The cost exceeds no other by the threshold. */
  predicate IsNear(lowest: map<Signature, real>, threshold: Option<real>, cost: real) {
    threshold.Some? ==> forall y :: y in lowest ==> cost < lowest[y] + threshold.value
  }

  /** The items whose costs exceed no other by the threshold. */
  function Near(lowest: map<Signature, real>, threshold: Option<real>): map<Signature, real> {
    map x | x in lowest && IsNear(lowest, threshold, lowest[x]) :: lowest[x]
  }

  /** The beam holds the cheapest of the items near the best, each at the lowest
      cost offered. */
  predicate Holds(index: Index, lowest: map<Signature, real>, limit: Option<nat>, threshold: Option<real>) {
    Keeps(index, Near(lowest, threshold), limit) && forall x :: x in lowest ==> lowest[x] < IMPOSSIBLE
  }

  /** What adding leaves: at most one dearest item goes over the limit, and all
      that are not below the bar. */
  ghost predicate AddedTo(mid: Index, index: Index, limit: Option<nat>, bar: real) {
    exists base :: PrunedTo(mid, base, limit) && index == Trim(base, bar)
  }

  predicate BestOk(index: Index, best: real) {
    if index == map[] then best == IMPOSSIBLE
    else (exists x :: x in index && index[x].cost == best) && forall x :: x in index ==> best <= index[x].cost
  }

  predicate IsLeast(lowest: map<Signature, real>, best: real) {
    (exists x :: x in lowest && lowest[x] == best) && forall x :: x in lowest ==> best <= lowest[x]
  }

  lemma TrimKeeps(base: Index, lowest: map<Signature, real>, limit: Option<nat>, bar: real)
    requires Keeps(base, lowest, limit)
    ensures Keeps(Trim(base, bar), TrimLow(lowest, bar), limit)
  {
    var index, low := Trim(base, bar), TrimLow(lowest, bar);
    SubsetSize(index.Keys, base.Keys);
    forall x | x in low && x !in index
      ensures limit.Some? && |index| == limit.value && forall y :: y in index ==> index[y].cost <= low[x]
    {
      assert x !in base;
      assert index == base;
    }
  }

  /** One more offer leaves the same items near the best as when those near
      before are trimmed by the new bar. */
  lemma NearLower(lowest: map<Signature, real>, threshold: Option<real>, x: Signature, cost: real, best: real)
    requires (forall y :: y in lowest ==> lowest[y] < IMPOSSIBLE) && cost < IMPOSSIBLE
    requires IsLeast(Lower(lowest, x, cost), best)
    ensures TrimLow(Lower(Near(lowest, threshold), x, cost), Bar(best, threshold)) == Near(Lower(lowest, x, cost), threshold)
  {
    var a := TrimLow(Lower(Near(lowest, threshold), x, cost), Bar(best, threshold));
    var b := Near(Lower(lowest, x, cost), threshold);
    forall y ensures (y in a <==> y in b) && (y in a ==> a[y] == b[y]) { NearLowerAt(lowest, threshold, x, cost, best, y); }
    assert a.Keys == b.Keys;
  }

  lemma NearLowerAt(lowest: map<Signature, real>, threshold: Option<real>, x: Signature, cost: real, best: real, y: Signature)
    requires (forall z :: z in lowest ==> lowest[z] < IMPOSSIBLE) && cost < IMPOSSIBLE
    requires IsLeast(Lower(lowest, x, cost), best)
    ensures var a := TrimLow(Lower(Near(lowest, threshold), x, cost), Bar(best, threshold));
            var b := Near(Lower(lowest, x, cost), threshold);
            (y in a <==> y in b) && (y in a ==> a[y] == b[y])
  {
    hide IsNear, IsLeast, Bar;
    var low := Lower(lowest, x, cost);
    if y in low { NearIsBelow(low, threshold, best, y); }
    if y in lowest && lowest[y] < Bar(best, threshold) { NearBefore(lowest, threshold, x, cost, best, y); }
  }

  lemma NearIsBelow(low: map<Signature, real>, threshold: Option<real>, best: real, y: Signature)
    requires IsLeast(low, best) && y in low && low[y] < IMPOSSIBLE
    ensures IsNear(low, threshold, low[y]) <==> low[y] < Bar(best, threshold)
  {
  }

  lemma NearBefore(lowest: map<Signature, real>, threshold: Option<real>, x: Signature, cost: real, best: real, y: Signature)
    requires IsLeast(Lower(lowest, x, cost), best) && cost < IMPOSSIBLE && y in lowest && lowest[y] < Bar(best, threshold)
    ensures IsNear(lowest, threshold, lowest[y])
  {
    forall z | z in lowest ensures best <= lowest[z] {
      assert z in Lower(lowest, x, cost) && Lower(lowest, x, cost)[z] <= lowest[z];
    }
  }

  /** The best cost held is the best of all. */
  lemma BestIsLeast(index: Index, lowest: map<Signature, real>, limit: Option<nat>, threshold: Option<real>, best: real)
    requires Holds(index, lowest, limit, threshold) && BestOk(index, best) && lowest != map[]
    requires (limit.Some? ==> limit.value > 0) && (threshold.Some? ==> threshold.value > 0.0)
    ensures index != map[] && IsLeast(lowest, best)
  {
    var y := LeastExists(lowest);
    assert IsNear(lowest, threshold, lowest[y]);
    var near := Near(lowest, threshold);
    assert y in near;
    if y !in index {
      assert |index| > 0;
    }
    var w :| w in index && index[w].cost == best;
    assert w in near && near[w] == lowest[w];
  }

  lemma {:induction false} LeastExists(lowest: map<Signature, real>) returns (y: Signature)
    requires lowest != map[]
    ensures y in lowest && forall z :: z in lowest ==> lowest[y] <= lowest[z]
    decreases |lowest|
  {
    y :| y in lowest;
    var rest := lowest - {y};
    assert rest.Keys == lowest.Keys - {y};
    if rest != map[] {
      var r := LeastExists(rest);
      forall z | z in lowest ensures (if lowest[r] < lowest[y] then lowest[r] else lowest[y]) <= lowest[z] {
        if z != y { assert z in rest; }
      }
      if lowest[r] < lowest[y] { y := r; }
    } else {
      assert forall z :: z in lowest ==> z == y || z in rest;
    }
  }

  /** With the offer, the best of all is the better of the two. */
  lemma LowerLeast(index: Index, lowest: map<Signature, real>, limit: Option<nat>, threshold: Option<real>, best: real,
                   x: Signature, cost: real)
    requires Holds(index, lowest, limit, threshold) && BestOk(index, best) && cost < IMPOSSIBLE
    requires (limit.Some? ==> limit.value > 0) && (threshold.Some? ==> threshold.value > 0.0)
    ensures IsLeast(Lower(lowest, x, cost), if cost < best then cost else best)
  {
    var low := Lower(lowest, x, cost);
    hide Holds, BestOk;
    if lowest == map[] {
      NothingHeld(index, lowest, limit, threshold, best);
      assert low == map[x := cost];
    } else {
      BestIsLeast(index, lowest, limit, threshold, best);
      if cost < best {
        assert low[x] == cost;
      } else {
        var w :| w in lowest && lowest[w] == best;
        assert low[w] == best;
      }
    }
  }

  lemma NothingHeld(index: Index, lowest: map<Signature, real>, limit: Option<nat>, threshold: Option<real>, best: real)
    requires Holds(index, lowest, limit, threshold) && BestOk(index, best) && lowest == map[]
    ensures index == map[] && best == IMPOSSIBLE
  {
    assert Near(lowest, threshold) == map[];
    assert forall x :: x !in index;
  }

  /** An offer that is added keeps the cheapest items near the best. */
  lemma AddKeeps(index: Index, index': Index, lowest: map<Signature, real>, limit: Option<nat>, threshold: Option<real>, best: real,
                 x: Signature, cost: real, ded: Derivation)
    requires Holds(index, lowest, limit, threshold) && BestOk(index, best) && cost < IMPOSSIBLE
    requires (limit.Some? ==> limit.value > 0) && (threshold.Some? ==> threshold.value > 0.0)
    requires AddedTo(Offered(index, x, cost, ded), index', limit, Bar(if cost < best then cost else best, threshold))
    ensures Holds(index', Lower(lowest, x, cost), limit, threshold)
  {
    hide Keeps, PrunedTo, Offered, Trim, TrimLow, Near, IsLeast, BestOk;
    var best' := if cost < best then cost else best;
    var bar := Bar(best', threshold);
    var base :| PrunedTo(Offered(index, x, cost, ded), base, limit) && index' == Trim(base, bar);
    OfferKeeps(index, base, Near(lowest, threshold), limit, x, cost, ded);
    TrimKeeps(base, Lower(Near(lowest, threshold), x, cost), limit, bar);
    LowerLeast(index, lowest, limit, threshold, best, x, cost);
    NearLower(lowest, threshold, x, cost, best');
  }

  /** An offer that is impossible, not below the bar, or not cheaper than a full
      beam, changes nothing. */
  lemma SkipHolds(index: Index, lowest: map<Signature, real>, limit: Option<nat>, threshold: Option<real>, best: real,
                  x: Signature, cost: real)
    requires Holds(index, lowest, limit, threshold) && BestOk(index, best)
    requires (limit.Some? ==> limit.value > 0) && (threshold.Some? ==> threshold.value > 0.0)
    requires cost < Bar(best, threshold) ==> limit.Some? && |index| == limit.value && forall y :: y in index ==> index[y].cost <= cost
    ensures Holds(index, Lower(lowest, x, cost), limit, threshold)
  {
    if cost < IMPOSSIBLE {
      SkipBest(index, lowest, limit, threshold, best, x, cost);
      hide Keeps, BestOk, IsLeast, Near, TrimLow;
      LowerLeast(index, lowest, limit, threshold, best, x, cost);
      NearLower(lowest, threshold, x, cost, best);
      BestIsLeast(index, lowest, limit, threshold, best);
      SkipNear(index, lowest, limit, threshold, best, x, cost);
    }
  }

  /** A possible offer that may be skipped is no better than the best held. */
  lemma SkipBest(index: Index, lowest: map<Signature, real>, limit: Option<nat>, threshold: Option<real>, best: real,
                 x: Signature, cost: real)
    requires Holds(index, lowest, limit, threshold) && BestOk(index, best) && cost < IMPOSSIBLE
    requires (limit.Some? ==> limit.value > 0) && (threshold.Some? ==> threshold.value > 0.0)
    requires cost < Bar(best, threshold) ==> limit.Some? && |index| == limit.value && forall y :: y in index ==> index[y].cost <= cost
    ensures lowest != map[] && best <= cost
  {
    if cost < Bar(best, threshold) {
      assert index != map[];
    }
    if lowest == map[] { NothingHeld(index, lowest, limit, threshold, best); }
  }

  lemma SkipNear(index: Index, lowest: map<Signature, real>, limit: Option<nat>, threshold: Option<real>, best: real,
                 x: Signature, cost: real)
    requires Holds(index, lowest, limit, threshold) && IsLeast(lowest, best) && best <= cost < IMPOSSIBLE
    requires cost < Bar(best, threshold) ==> limit.Some? && |index| == limit.value && forall y :: y in index ==> index[y].cost <= cost
    ensures Keeps(index, TrimLow(Lower(Near(lowest, threshold), x, cost), Bar(best, threshold)), limit)
  {
    var near, bar := Near(lowest, threshold), Bar(best, threshold);
    forall y | y in near ensures near[y] < bar { NearIsBelow(lowest, threshold, best, y); }
    if cost < bar {
      SkipKeeps(index, near, limit, x, cost);
      assert TrimLow(Lower(near, x, cost), bar) == Lower(near, x, cost);
    } else {
      assert TrimLow(Lower(near, x, cost), bar) == near;
    }
  }

  lemma {:induction false} SubsetSize(a: set<Signature>, b: set<Signature>)
    requires a <= b
    ensures |a| <= |b|
  {
    assert b == a + (b - a);
  }

  // ----- which derivations are kept

  /** An item offered to the beam, with its cost and its derivation. */
  datatype Offer = Offer(item: Signature, cost: real, ded: Derivation)

  /** The derivations offered for an item. */
  function DedsOf(offers: seq<Offer>, x: Signature): multiset<Derivation> {
    if offers == [] then multiset{}
    else
      var o := offers[|offers| - 1];
      DedsOf(offers[..|offers| - 1], x) + (if o.item == x then multiset{o.ded} else multiset{})
  }

  /** The held item's first derivation has its cost; the item has exactly the
      derivations offered for it if it was never pruned, and otherwise has
      lost some of them. */
  predicate RemembersAt(index: Index, added: seq<Offer>, gone: set<Signature>, x: Signature)
    requires x in index
  {
    var deds, all := multiset(index[x].deds), DedsOf(added, x);
    && index[x].deds != [] && Offer(x, index[x].cost, index[x].deds[0]) in added
    && deds <= all && (x !in gone ==> deds == all) && (x in gone ==> |deds| < |all|)
  }

  /** `added` are the offers so far, and `gone` the items pruned at some time. */
  ghost predicate Remembers(index: Index, added: seq<Offer>, gone: set<Signature>) {
    && (forall x {:trigger RemembersAt(index, added, gone, x)} :: x in index ==> RemembersAt(index, added, gone, x))
    && (forall x {:trigger DedsOf(added, x)} :: x in index || x in gone || DedsOf(added, x) == multiset{})
    && (forall x {:trigger x in gone} :: x in gone ==> |DedsOf(added, x)| > 0)
  }

  lemma DedsOfMore(added: seq<Offer>, o: Offer, x: Signature)
    ensures DedsOf(added + [o], x) == DedsOf(added, x) + (if o.item == x then multiset{o.ded} else multiset{})
  {
    assert (added + [o])[..|added|] == added;
  }

  lemma OfferedRemembers(index: Index, added: seq<Offer>, gone: set<Signature>, x: Signature, cost: real, ded: Derivation)
    requires Remembers(index, added, gone)
    ensures Remembers(Offered(index, x, cost, ded), added + [Offer(x, cost, ded)], gone)
  {
    hide RemembersAt, DedsOf;
    var mid, o := Offered(index, x, cost, ded), Offer(x, cost, ded);
    forall y ensures DedsOf(added + [o], y) == DedsOf(added, y) + (if x == y then multiset{ded} else multiset{}) {
      DedsOfMore(added, o, y);
    }
    forall y | y in mid ensures RemembersAt(mid, added + [o], gone, y) {
      if y != x { OtherRemembers(index, added, gone, o, y); } else { ItRemembers(index, added, gone, o); }
    }
  }

  lemma OtherRemembers(index: Index, added: seq<Offer>, gone: set<Signature>, o: Offer, y: Signature)
    requires y in index && RemembersAt(index, added, gone, y) && y != o.item
    ensures y in Offered(index, o.item, o.cost, o.ded)
    ensures RemembersAt(Offered(index, o.item, o.cost, o.ded), added + [o], gone, y)
  {
    hide DedsOf;
    DedsOfMore(added, o, y);
  }

  lemma ItRemembers(index: Index, added: seq<Offer>, gone: set<Signature>, o: Offer)
    requires o.item in index ==> RemembersAt(index, added, gone, o.item)
    requires o.item !in index ==> o.item in gone || DedsOf(added, o.item) == multiset{}
    requires o.item in gone ==> |DedsOf(added, o.item)| > 0
    ensures o.item in Offered(index, o.item, o.cost, o.ded)
    ensures RemembersAt(Offered(index, o.item, o.cost, o.ded), added + [o], gone, o.item)
  {
    hide DedsOf;
    var x, mid := o.item, Offered(index, o.item, o.cost, o.ded);
    DedsOfMore(added, o, x);
    OfferedDeds(index, x, o.cost, o.ded, x);
    assert (added + [o])[|added|] == o;
    var was := if x in index then multiset(index[x].deds) else multiset{};
    MoreDeds(was, DedsOf(added, x), o.ded);
  }

  lemma MoreDeds(was: multiset<Derivation>, all: multiset<Derivation>, ded: Derivation)
    requires was <= all
    ensures was + multiset{ded} <= all + multiset{ded}
    ensures |was + multiset{ded}| == |was| + 1 && |all + multiset{ded}| == |all| + 1
  {
  }

  lemma OfferedDeds(index: Index, x: Signature, cost: real, ded: Derivation, y: Signature)
    requires y in Offered(index, x, cost, ded)
    ensures var h := Offered(index, x, cost, ded)[y];
            && (y != x ==> y in index && h == index[y])
            && (y == x ==> multiset(h.deds) == (if x in index then multiset(index[x].deds) else multiset{}) + multiset{ded})
  {
  }

  /** Any further items that are pruned are remembered as gone. */
  lemma PrunedRemembers(mid: Index, index: Index, added: seq<Offer>, gone: set<Signature>, limit: Option<nat>, bar: real)
    requires Remembers(mid, added, gone) && AddedTo(mid, index, limit, bar)
    ensures Remembers(index, added, gone + (mid.Keys - index.Keys))
  {
    var gone' := gone + (mid.Keys - index.Keys);
    forall y | y in index ensures RemembersAt(index, added, gone', y) {
      assert RemembersAt(mid, added, gone, y);
    }
    forall y | y in gone' ensures |DedsOf(added, y)| > 0 {
      if y !in gone { assert RemembersAt(mid, added, gone, y); assert mid[y].deds[0] in multiset(mid[y].deds); }
    }
  }

  /** A held item has all derivations offered for it exactly if it was never
      pruned and none of its offers was turned away. */
  lemma KeepsAllDeds(index: Index, added: seq<Offer>, skipped: seq<Offer>, gone: set<Signature>, x: Signature)
    requires Remembers(index, added, gone) && x in index
    ensures multiset(index[x].deds) == DedsOf(added, x) + DedsOf(skipped, x)
            <==> x !in gone && forall o :: o in skipped ==> o.item != x
  {
    assert RemembersAt(index, added, gone, x);
    SkippedDeds(skipped, x);
    hide DedsOf;
    var deds := multiset(index[x].deds);
    if deds == DedsOf(added, x) + DedsOf(skipped, x) {
      assert |deds| == |DedsOf(added, x)| + |DedsOf(skipped, x)|;
    }
  }

  lemma {:induction false} SkippedDeds(skipped: seq<Offer>, x: Signature)
    ensures DedsOf(skipped, x) == multiset{} <==> forall o :: o in skipped ==> o.item != x
  {
    if skipped != [] {
      SkippedDeds(skipped[..|skipped| - 1], x);
      assert skipped == skipped[..|skipped| - 1] + [skipped[|skipped| - 1]];
    }
  }

  // ----- derivations that are lost

  /** With room for one item, an item pruned for a cheaper one and offered again
      cheaper still has only its last derivation. */
  lemma PrunedForgets(one: Index, two: Index, three: Index)
    requires AddedTo(Offered(map[], 0, 2.0, Axiom(10)), one, Some(1), IMPOSSIBLE)
    requires AddedTo(Offered(one, 1, 1.0, Axiom(11)), two, Some(1), IMPOSSIBLE)
    requires AddedTo(Offered(two, 0, 0.0, Axiom(12)), three, Some(1), IMPOSSIBLE)
    ensures three == map[0 := Held(0.0, [Axiom(12)])]
    ensures DedsOf([Offer(0, 2.0, Axiom(10)), Offer(1, 1.0, Axiom(11)), Offer(0, 0.0, Axiom(12))], 0) == multiset{Axiom(10), Axiom(12)}
  {
    hide AddedTo, Offered, DedsOf;
    ThreeOffers(Offer(0, 2.0, Axiom(10)), Offer(1, 1.0, Axiom(11)), Offer(0, 0.0, Axiom(12)));
    FirstIn(0, 2.0, Axiom(10), one);
    OverLimit(one, 1, 0, 1.0, Axiom(11), two);
    OverLimit(two, 0, 1, 0.0, Axiom(12), three);
  }

  lemma ThreeOffers(a: Offer, b: Offer, c: Offer)
    requires a.item == c.item == 0 && b.item == 1
    ensures DedsOf([a, b, c], 0) == multiset{a.ded, c.ded}
  {
    DedsOfMore([], a, 0);
    DedsOfMore([a], b, 0);
    DedsOfMore([a, b], c, 0);
    assert [] + [a] == [a] && [a] + [b] == [a, b] && [a, b] + [c] == [a, b, c];
  }

  /** The first item offered is held. */
  lemma FirstIn(x: Signature, cost: real, ded: Derivation, index: Index)
    requires AddedTo(Offered(map[], x, cost, ded), index, Some(1), IMPOSSIBLE) && cost < IMPOSSIBLE
    ensures index == map[x := Held(cost, [ded])]
  {
    assert |map[x := Held(cost, [ded])]| == 1;
  }

  /** With room for one item, a cheaper item takes the place of a dearer one. */
  lemma OverLimit(index: Index, x: Signature, z: Signature, cost: real, ded: Derivation, index': Index)
    requires index.Keys == {z} && x != z && cost < index[z].cost && cost < IMPOSSIBLE
    requires AddedTo(Offered(index, x, cost, ded), index', Some(1), IMPOSSIBLE)
    ensures index' == map[x := Held(cost, [ded])]
  {
    hide Dearest;
    var mid := Offered(index, x, cost, ded);
    OfferedSize(index, x, cost, ded);
    assert mid == map[z := index[z], x := Held(cost, [ded])];
    var base :| PrunedTo(mid, base, Some(1)) && index' == Trim(base, IMPOSSIBLE);
    var w :| Dearest(mid, w) && base == mid - {w};
    TwoDearest(mid, z, x, w);
    assert base == map[x := Held(cost, [ded])];
  }

  lemma TwoDearest(mid: Index, z: Signature, x: Signature, w: Signature)
    requires mid.Keys == {z, x} && mid[x].cost < mid[z].cost && Dearest(mid, w)
    ensures w == z
  {
    assert z in mid;
  }

  /** With room for one item, a dearer offer of it is turned away once the
      cutoff is down, and its derivation is not held. */
  lemma SkippedForgets(index: Index)
    requires AddedTo(Offered(map[], 0, 0.0, Axiom(10)), index, Some(1), IMPOSSIBLE)
    ensures index == map[0 := Held(0.0, [Axiom(10)])]
    ensures DedsOf([Offer(0, 0.0, Axiom(10))], 0) + DedsOf([Offer(0, 5.0, Axiom(11))], 0) == multiset{Axiom(10), Axiom(11)}
  {
    FirstIn(0, 0.0, Axiom(10), index);
    DedsOfMore([], Offer(0, 0.0, Axiom(10)), 0);
    DedsOfMore([], Offer(0, 5.0, Axiom(11)), 0);
  }
}
