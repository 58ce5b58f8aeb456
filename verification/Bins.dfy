/** A span's bin of items: a worst-first queue with displaced entries still in
    it, an index of the items held, and a cutoff for costs not worth adding. */
module Bins {
  import opened Wrappers
  import opened Beams

  function SlotOf(index: Index, x: Signature): Slot
    requires x in index
  {
    Slot(index[x].cost, Some(x))
  }

  /** The entries are those of the items held, each once. */
  predicate Live(live: multiset<Slot>, index: Index) {
    && |live| == |index|
    && (forall x :: x in index ==> SlotOf(index, x) in live)
    && (forall e :: e in live ==> live[e] == 1 && e.item.Some? && e.item.value in index && e == SlotOf(index, e.item.value))
  }

  lemma LivePush(live: multiset<Slot>, index: Index, x: Signature, h: Held)
    requires Live(live, index) && x !in index
    ensures Live(live + multiset{Slot(h.cost, Some(x))}, index[x := h])
  {
    assert index[x := h].Keys == index.Keys + {x};
    assert Slot(h.cost, Some(x)) !in live;
  }

  lemma LivePop(live: multiset<Slot>, index: Index, x: Signature)
    requires Live(live, index) && x in index
    ensures Live(live - multiset{SlotOf(index, x)}, index - {x})
  {
    RemovedSize(index, x);
    var live' := live - multiset{SlotOf(index, x)};
    assert |live'| == |live| - 1;
    forall e | e in live' ensures live'[e] == 1 && e.item.Some? && e.item.value in index - {x} && e == SlotOf(index - {x}, e.item.value) {
      assert e in live;
    }
    forall y | y in index - {x} ensures SlotOf(index - {x}, y) in live' {
      assert SlotOf(index, y) in live;
    }
  }

  lemma LiveSameCosts(live: multiset<Slot>, index: Index, index': Index)
    requires Live(live, index) && index'.Keys == index.Keys
    requires forall x :: x in index ==> index'[x].cost == index[x].cost
    ensures Live(live, index')
  {
  }

  lemma LiveReplace(live: multiset<Slot>, index: Index, x: Signature, h: Held)
    requires Live(live, index) && x in index
    ensures Live(live - multiset{SlotOf(index, x)} + multiset{Slot(h.cost, Some(x))}, index[x := h])
  {
    hide Live;
    LivePop(live, index, x);
    LivePush(live - multiset{SlotOf(index, x)}, index - {x}, x, h);
    assert (index - {x})[x := h] == index[x := h];
  }

  /** A queue is the entries of the items held and `dead` displaced ones. */
  predicate QueueOk(queue: multiset<Slot>, live: multiset<Slot>, killed: multiset<Slot>, index: Index, dead: nat) {
    && queue == live + killed && Live(live, index)
    && |killed| == dead && forall e :: e in killed ==> e.item.None?
  }

  /** An entry that no other entry of the queue is worse than. */
  predicate Worst(queue: multiset<Slot>, e: Slot) {
    e in queue && forall e' :: e' in queue ==> e'.cost <= e.cost
  }

  lemma {:induction false} WorstExists(queue: multiset<Slot>) returns (e: Slot)
    requires |queue| > 0
    ensures Worst(queue, e)
    decreases |queue|
  {
    e :| e in queue;
    var rest := queue - multiset{e};
    if |rest| > 0 {
      var d := WorstExists(rest);
      forall e' | e' in queue ensures e'.cost <= (if d.cost >= e.cost then d else e).cost {
        if e' != e { assert e' in rest; }
      }
      if d.cost >= e.cost { e := d; }
    } else {
      assert queue == rest + multiset{e};
      assert rest == multiset{};
    }
  }

  lemma WorstIsIn(queue: multiset<Slot>, e: Slot)
    requires Worst(queue, e)
    ensures e in queue && |queue - multiset{e}| < |queue|
  {
  }

  /** Taking a displaced entry off the queue. */
  lemma PopDead(queue: multiset<Slot>, live: multiset<Slot>, killed: multiset<Slot>, index: Index, dead: nat, e: Slot)
    requires QueueOk(queue, live, killed, index, dead) && e in queue && e.item.None?
    ensures dead > 0 && QueueOk(queue - multiset{e}, live, killed - multiset{e}, index, dead - 1)
  {
    assert e !in live && e in killed;
    assert queue - multiset{e} == live + (killed - multiset{e});
  }

  /** Taking an item's entry off the queue. */
  lemma PopLive(queue: multiset<Slot>, live: multiset<Slot>, killed: multiset<Slot>, index: Index, dead: nat, e: Slot)
    requires QueueOk(queue, live, killed, index, dead) && e in queue && e.item.Some?
    ensures e.item.value in index && e == SlotOf(index, e.item.value)
    ensures QueueOk(queue - multiset{e}, live - multiset{e}, killed, index - {e.item.value}, dead)
    ensures Worst(queue, e) ==> Dearest(index, e.item.value)
  {
    assert e in live;
    LivePop(live, index, e.item.value);
    assert queue - multiset{e} == (live - multiset{e}) + killed;
    if Worst(queue, e) {
      forall y | y in index ensures index[y].cost <= e.cost {
        assert SlotOf(index, y) in queue;
      }
    }
  }

  /** Displacing an item's entry and pushing its cheaper one. */
  lemma Displace(queue: multiset<Slot>, live: multiset<Slot>, killed: multiset<Slot>, index: Index, dead: nat, x: Signature, h: Held)
    requires QueueOk(queue, live, killed, index, dead) && x in index
    ensures SlotOf(index, x) in queue
    ensures var gone := Slot(index[x].cost, None);
            QueueOk(queue - multiset{SlotOf(index, x)} + multiset{gone} + multiset{Slot(h.cost, Some(x))},
                    live - multiset{SlotOf(index, x)} + multiset{Slot(h.cost, Some(x))},
                    killed + multiset{gone}, index[x := h], dead + 1)
  {
    LiveReplace(live, index, x, h);
    var s := SlotOf(index, x);
    assert queue - multiset{s} == (live - multiset{s}) + killed;
  }

  /** All entries are below the cutoff. */
  predicate BelowCutoff(queue: multiset<Slot>, cutoff: real) {
    forall e :: e in queue ==> e.cost < cutoff
  }

  /** The cutoff is below the bar only when the bin is full. */
  predicate CutoffOk(index: Index, limit: Option<nat>, cutoff: real, bar: real) {
    && cutoff <= bar <= IMPOSSIBLE && (limit.Some? ==> limit.value > 0 && |index| <= limit.value)
    && (cutoff < bar ==> limit.Some? && |index| == limit.value)
  }

  /** At most the item just added is one too many. */
  predicate Roomy(mid: Index, limit: Option<nat>) {
    mid != map[] && (limit.Some? ==> limit.value > 0 && |mid| <= limit.value + 1)
  }

  predicate Over(index: Index, limit: Option<nat>) {
    limit.Some? && |index| > limit.value
  }

  /** The bin before pruning, with a cutoff that was lowered: at most the item
      just added is one too many or not below the cutoff. */
  predicate Tight(mid: Index, queue: multiset<Slot>, limit: Option<nat>, cutoff: real, e: Slot) {
    && limit.Some? && limit.value <= |mid|
    && (if Over(mid, limit) then queue[e] <= 1 && forall f :: f in queue && f != e ==> f.cost < cutoff
        else BelowCutoff(queue, cutoff))
  }

  /** What has been taken out of the items within the limit is not below the
      bar. */
  predicate Above(base: Index, index: Index, bar: real) {
    && (forall x :: x in index ==> x in base && index[x] == base[x])
    && (forall x :: x in base && x !in index ==> base[x].cost >= bar)
  }

  /** Pruning has not yet taken off the one item too many, or is at those that
      are not below the bar. */
  ghost predicate Pruning(mid: Index, base: Index, index: Index, queue: multiset<Slot>, limit: Option<nat>, cutoff: real, bar: real, e: Slot) {
    && Roomy(mid, limit) && cutoff <= bar <= IMPOSSIBLE
    && (if Over(mid, limit) && base == mid then index == mid
        else PrunedTo(mid, base, limit) && !Over(base, limit) && |index| <= |base| && Above(base, index, bar))
    && (cutoff < bar ==>
          if Over(mid, limit) && base == mid then Tight(mid, queue, limit, cutoff, e)
          else BelowCutoff(queue, cutoff) && limit.Some? && |index| == limit.value)
  }

  /** The best item is held, and is below the bar. */
  predicate BestIn(index: Index, best: real, bar: real) {
    best < bar && index != map[] && BestOk(index, best)
  }

  lemma PruningStarts(mid: Index, queue: multiset<Slot>, limit: Option<nat>, cutoff: real, bar: real, e: Slot)
    requires Roomy(mid, limit) && cutoff <= bar <= IMPOSSIBLE && (cutoff < bar ==> Tight(mid, queue, limit, cutoff, e))
    ensures Pruning(mid, mid, mid, queue, limit, cutoff, bar, e)
  {
  }

  lemma HeldIsQueued(queue: multiset<Slot>, live: multiset<Slot>, killed: multiset<Slot>, index: Index, dead: nat)
    requires QueueOk(queue, live, killed, index, dead)
    ensures |queue| == |index| + dead
    ensures forall x :: x in index ==> SlotOf(index, x) in queue
  {
  }

  /** The reason for taking the worst entry off. */
  predicate TooMany(index: Index, limit: Option<nat>, cutoff: real, top: Slot) {
    Over(index, limit) || top.cost >= cutoff
  }

  lemma PopDeadStep(mid: Index, base: Index, index: Index, queue: multiset<Slot>, limit: Option<nat>, cutoff: real, bar: real, e: Slot, top: Slot)
    requires Pruning(mid, base, index, queue, limit, cutoff, bar, e) && top in queue
    ensures Pruning(mid, base, index, queue - multiset{top}, limit, cutoff, bar, e)
  {
    assert forall f :: f in queue - multiset{top} ==> f in queue;
  }

  /** The items within the limit once the worst one has been taken off. */
  function BaseAfter(base: Index, index: Index, limit: Option<nat>, v: Signature): Index {
    if Over(index, limit) then index - {v} else base
  }

  lemma PopLiveStep(mid: Index, base: Index, index: Index, queue: multiset<Slot>, limit: Option<nat>, cutoff: real, bar: real, e: Slot, top: Slot)
    requires Pruning(mid, base, index, queue, limit, cutoff, bar, e) && Worst(queue, top) && TooMany(index, limit, cutoff, top)
    requires top.item.Some? && Dearest(index, top.item.value) && top == SlotOf(index, top.item.value)
    ensures Pruning(mid, BaseAfter(base, index, limit, top.item.value), index - {top.item.value}, queue - multiset{top}, limit, cutoff, bar, e)
  {
    var v := top.item.value;
    RemovedSize(index, v);
    assert forall f :: f in queue - multiset{top} ==> f in queue;
    if Over(index, limit) {
      assert index == mid && base == mid;
      assert base != base - {v};
      if cutoff < bar {
        forall f | f in queue - multiset{top} ensures f.cost < cutoff {
          if f == e { assert top != e; }
        }
      }
    }
  }

  lemma BestStays(index: Index, best: real, bar: real, limit: Option<nat>, cutoff: real, top: Slot)
    requires BestIn(index, best, bar) && top.item.Some? && Dearest(index, top.item.value) && top == SlotOf(index, top.item.value)
    requires Over(index, limit) || top.cost >= bar
    requires limit.Some? ==> limit.value > 0
    ensures BestIn(index - {top.item.value}, best, bar)
  {
    var v := top.item.value;
    RemovedSize(index, v);
    var x :| x in index && index[x].cost == best;
    if x == v {
      assert |index - {v}| > 0;
      var y :| y in index - {v};
      assert index[y].cost == best;
    } else {
      assert x in index - {v};
    }
  }

  /** A pop is for want of room, or of an item that is not below the bar. */
  lemma PopReason(mid: Index, base: Index, index: Index, queue: multiset<Slot>, limit: Option<nat>, cutoff: real, bar: real, e: Slot, top: Slot)
    requires Pruning(mid, base, index, queue, limit, cutoff, bar, e) && Worst(queue, top) && TooMany(index, limit, cutoff, top)
    ensures Over(index, limit) || top.cost >= bar
    ensures limit.Some? ==> limit.value > 0
  {
  }

  /** When nothing more has to go, pruning is done. */
  lemma PruneDone(mid: Index, base: Index, index: Index, queue: multiset<Slot>, limit: Option<nat>, cutoff: real, bar: real, e: Slot, top: Slot)
    requires Pruning(mid, base, index, queue, limit, cutoff, bar, e) && Worst(queue, top) && !TooMany(index, limit, cutoff, top)
    requires forall x :: x in index ==> SlotOf(index, x) in queue
    ensures AddedTo(mid, index, limit, bar) && BelowCutoff(queue, cutoff) && CutoffOk(index, limit, cutoff, bar)
  {
    assert PrunedTo(mid, base, limit) && Above(base, index, bar);
    forall x | x in index ensures index[x].cost < bar { assert SlotOf(index, x) in queue; }
    assert index.Keys == Trim(base, bar).Keys;
    assert index == Trim(base, bar);
  }

  /** From what it was before, the cutoff of a full bin has come down to just
      above the worst entry, and that of any other bin has not changed. */
  ghost predicate CutoffLow(index: Index, queue: multiset<Slot>, limit: Option<nat>, before: real, cutoff: real) {
    if limit.Some? && |index| == limit.value
    then exists e :: Worst(queue, e) && cutoff == if e.cost + 0.000001 < before then e.cost + 0.000001 else before
    else cutoff == before
  }

  lemma LowerCutoff(index: Index, queue: multiset<Slot>, limit: Option<nat>, cutoff: real, bar: real, top: Slot)
    requires BelowCutoff(queue, cutoff) && CutoffOk(index, limit, cutoff, bar) && Worst(queue, top)
    requires limit.Some? && |index| == limit.value
    ensures var c := if top.cost + EPSILON < cutoff then top.cost + EPSILON else cutoff;
            BelowCutoff(queue, c) && CutoffOk(index, limit, c, bar) && CutoffLow(index, queue, limit, cutoff, c)
  {
  }

  lemma NotFull(index: Index, queue: multiset<Slot>, limit: Option<nat>, cutoff: real)
    requires !(limit.Some? && |index| == limit.value)
    ensures CutoffLow(index, queue, limit, cutoff, cutoff)
  {
  }

  /** When no displaced entry is left, the cutoff of a full bin is just above
      its dearest item. */
  lemma LowIsDearest(queue: multiset<Slot>, live: multiset<Slot>, killed: multiset<Slot>, index: Index, limit: Option<nat>,
                     before: real, cutoff: real, bound: real)
    requires QueueOk(queue, live, killed, index, 0) && CutoffLow(index, queue, limit, before, cutoff)
    requires limit == Some(|index|) && forall y :: y in index ==> index[y].cost <= bound
    ensures cutoff <= bound + 0.000001
  {
    var e :| Worst(queue, e) && cutoff == if e.cost + 0.000001 < before then e.cost + 0.000001 else before;
    assert e in live || e in killed;
    assert killed == multiset{};
  }

  // ----- adding, before pruning

  predicate Loose(mid: Index, queue: multiset<Slot>, limit: Option<nat>, cutoff: real, bar: real, e: Slot) {
    Roomy(mid, limit) && (cutoff < bar ==> Tight(mid, queue, limit, cutoff, e))
  }

  /** The best cost with one more offer; a dearer offer of an item held does not
      change it. */
  lemma OfferedBest(index: Index, x: Signature, cost: real, ded: Derivation, best: real)
    requires BestOk(index, best) && cost < IMPOSSIBLE
    ensures BestOk(Offered(index, x, cost, ded), if cost < best then cost else best)
    ensures x in index && cost >= index[x].cost ==> best <= cost
  {
    var mid, best' := Offered(index, x, cost, ded), if cost < best then cost else best;
    if cost < best {
      assert mid[x].cost == cost;
    } else if index != map[] {
      var w :| w in index && index[w].cost == best;
      assert mid[w].cost == best;
    }
    assert x in mid;
  }

  lemma MergeOk(queue: multiset<Slot>, live: multiset<Slot>, killed: multiset<Slot>, index: Index, dead: nat, limit: Option<nat>,
                cutoff: real, bar: real, x: Signature, cost: real, ded: Derivation)
    requires QueueOk(queue, live, killed, index, dead) && BelowCutoff(queue, cutoff) && CutoffOk(index, limit, cutoff, bar)
    requires x in index && cost >= index[x].cost
    ensures var mid := Offered(index, x, cost, ded);
            QueueOk(queue, live, killed, mid, dead) && Loose(mid, queue, limit, cutoff, bar, Slot(cost, Some(x)))
  {
    OfferedSize(index, x, cost, ded);
    LiveSameCosts(live, index, Offered(index, x, cost, ded));
    hide Live;
  }

  lemma DisplaceOk(queue: multiset<Slot>, live: multiset<Slot>, killed: multiset<Slot>, index: Index, dead: nat, limit: Option<nat>,
                   cutoff: real, bar: real, x: Signature, cost: real, ded: Derivation)
    requires QueueOk(queue, live, killed, index, dead) && BelowCutoff(queue, cutoff) && CutoffOk(index, limit, cutoff, bar)
    requires x in index && cost < index[x].cost
    ensures SlotOf(index, x) in queue
    ensures var mid := Offered(index, x, cost, ded);
            var gone := multiset{Slot(index[x].cost, None)};
            var queue' := queue - multiset{SlotOf(index, x)} + gone + multiset{Slot(cost, Some(x))};
            && QueueOk(queue', live - multiset{SlotOf(index, x)} + multiset{Slot(cost, Some(x))}, killed + gone, mid, dead + 1)
            && Loose(mid, queue', limit, cutoff, bar, Slot(cost, Some(x)))
  {
    hide QueueOk;
    OfferedSize(index, x, cost, ded);
    Displace(queue, live, killed, index, dead, x, Held(cost, [ded] + index[x].deds));
    var queue' := queue - multiset{SlotOf(index, x)} + multiset{Slot(index[x].cost, None)} + multiset{Slot(cost, Some(x))};
    forall e | e in queue' ensures e.cost < cutoff {
      assert e in queue || e == Slot(index[x].cost, None) || e == Slot(cost, Some(x));
    }
  }

  lemma QueuePush(queue: multiset<Slot>, live: multiset<Slot>, killed: multiset<Slot>, index: Index, dead: nat, x: Signature, h: Held)
    requires QueueOk(queue, live, killed, index, dead) && x !in index
    ensures var e := multiset{Slot(h.cost, Some(x))};
            QueueOk(queue + e, live + e, killed, index[x := h], dead)
    ensures Slot(h.cost, Some(x)) !in queue
  {
    LivePush(live, index, x, h);
    var e := Slot(h.cost, Some(x));
    assert e !in live && e !in killed;
    hide Live;
    assert queue + multiset{e} == (live + multiset{e}) + killed;
  }

  lemma PushOk(queue: multiset<Slot>, live: multiset<Slot>, killed: multiset<Slot>, index: Index, dead: nat, limit: Option<nat>,
               cutoff: real, bar: real, x: Signature, cost: real, ded: Derivation)
    requires QueueOk(queue, live, killed, index, dead) && BelowCutoff(queue, cutoff) && CutoffOk(index, limit, cutoff, bar)
    requires x !in index && cost < IMPOSSIBLE
    ensures var mid := Offered(index, x, cost, ded);
            var e := multiset{Slot(cost, Some(x))};
            QueueOk(queue + e, live + e, killed, mid, dead) && Loose(mid, queue + e, limit, cutoff, bar, Slot(cost, Some(x)))
  {
    hide QueueOk;
    OfferedSize(index, x, cost, ded);
    QueuePush(queue, live, killed, index, dead, x, Held(cost, [ded]));
  }

  /** Costs at the cutoff or above but below the bar come only when the bin is
      full of cheaper items. */
  lemma SkipIsFull(queue: multiset<Slot>, live: multiset<Slot>, killed: multiset<Slot>, index: Index, dead: nat, limit: Option<nat>,
                   cutoff: real, bar: real, cost: real)
    requires QueueOk(queue, live, killed, index, dead) && BelowCutoff(queue, cutoff) && CutoffOk(index, limit, cutoff, bar)
    requires cutoff <= cost
    ensures cost < bar ==> limit.Some? && |index| == limit.value && forall y :: y in index ==> index[y].cost <= cost
  {
    forall y | y in index ensures index[y].cost <= cost {
      assert SlotOf(index, y) in queue;
    }
  }

  lemma CutoffIsPossible(index: Index, limit: Option<nat>, cutoff: real, bar: real)
    requires CutoffOk(index, limit, cutoff, bar)
    ensures cutoff <= bar <= IMPOSSIBLE && (limit.Some? ==> limit.value > 0)
  {
  }

  lemma LooseIs(mid: Index, queue: multiset<Slot>, limit: Option<nat>, cutoff: real, bar: real, e: Slot)
    requires Loose(mid, queue, limit, cutoff, bar, e)
    ensures Roomy(mid, limit) && mid != map[] && (cutoff < bar ==> Tight(mid, queue, limit, cutoff, e))
  {
  }

  lemma BarIs(best: real, threshold: Option<real>)
    ensures Bar(best, threshold) <= IMPOSSIBLE && (threshold.None? ==> Bar(best, threshold) == IMPOSSIBLE)
    ensures threshold.Some? ==> Bar(best, threshold) == if best + threshold.value < IMPOSSIBLE then best + threshold.value else IMPOSSIBLE
  {
  }

  lemma BestHeld(index: Index, best: real, bar: real)
    requires BestIn(index, best, bar)
    ensures |index| > 0 && BestOk(index, best)
  {
  }

  lemma BestBelowBar(index: Index, best: real, threshold: Option<real>)
    requires BestOk(index, best) && index != map[] && best < IMPOSSIBLE && (threshold.Some? ==> threshold.value > 0.0)
    ensures BestIn(index, best, Bar(best, threshold))
  {
  }

  class Bin {
    var queue: multiset<Slot>
    var index: Index
    var dead: nat
    var best: real
    var cutoff: real
    const limit: Option<nat>
    const threshold: Option<real>
    ghost var live: multiset<Slot>
    ghost var killed: multiset<Slot>
    /** All offers made by Add, those that Consider turned away, and the items
        pruned at some time. */
    ghost var added: seq<Offer>
    ghost var skipped: seq<Offer>
    ghost var gone: set<Signature>

    ghost predicate Valid()
      reads this
    {
      Sound() && Remembers(index, added, gone)
    }

    ghost predicate Sound()
      reads this
    {
      && QueueOk(queue, live, killed, index, dead) && BelowCutoff(queue, cutoff) && CutoffOk(index, limit, cutoff, Bar(best, threshold))
      && BestOk(index, best) && (threshold.Some? ==> threshold.value > 0.0)
    }

    constructor (limit: Option<nat>, threshold: Option<real>)
      requires (limit.Some? ==> limit.value > 0) && (threshold.Some? ==> threshold.value > 0.0)
      ensures Valid() && index == map[] && this.limit == limit && this.threshold == threshold && fresh(this)
      ensures dead == 0 && best == cutoff == 999999.0
      ensures added == [] && skipped == [] && gone == {}
    {
      queue, index, dead, best, cutoff := multiset{}, map[], 0, IMPOSSIBLE, IMPOSSIBLE;
      this.limit, this.threshold := limit, threshold;
      live, killed, added, skipped, gone := multiset{}, multiset{}, [], [], {};
    }

    /** How many items are held. */
    method Length() returns (n: nat)
      requires Valid()
      ensures n == |index|
    {
      HeldIsQueued(queue, live, killed, index, dead);
      n := |queue| - dead;
    }

    /** Offers an item; tells whether it or its cost is new to the bin. */
    method Add(totalcost: real, x: Signature, ded: Derivation) returns (result: bool)
      requires Valid() && totalcost < IMPOSSIBLE
      modifies this
      ensures Valid() && best == (if totalcost < old(best) then totalcost else old(best))
      ensures AddedTo(Offered(old(index), x, totalcost, ded), index, limit, Bar(best, threshold))
      ensures CutoffLow(index, queue, limit, if threshold.Some? then Bar(best, threshold) else old(cutoff), cutoff)
      ensures x !in old(index) ==> dead <= old(dead)
      ensures result <==> x !in old(index) || totalcost < old(index)[x].cost
      ensures added == old(added) + [Offer(x, totalcost, ded)] && skipped == old(skipped)
      ensures gone == old(gone) + (Offered(old(index), x, totalcost, ded).Keys - index.Keys)
    {
      hide QueueOk, BelowCutoff, CutoffOk, CutoffLow, Offered, Remembers, AddedTo, BestOk, Bar, Pruning, BestIn;
      ghost var mid := Offered(index, x, totalcost, ded);
      OfferedRemembers(index, added, gone, x, totalcost, ded);
      result := Enter(totalcost, x, ded);
      Prune(Slot(totalcost, Some(x)));
      added := added + [Offer(x, totalcost, ded)];
      PrunedRemembers(mid, index, added, gone, limit, Bar(best, threshold));
      gone := gone + (mid.Keys - index.Keys);
    }

    /** Enters an offer, before pruning, and sets the cutoff by the threshold. */
    method Enter(totalcost: real, x: Signature, ded: Derivation) returns (result: bool)
      requires Sound() && totalcost < IMPOSSIBLE
      modifies this`index, this`queue, this`live, this`killed, this`dead, this`best, this`cutoff
      ensures index == Offered(old(index), x, totalcost, ded) && QueueOk(queue, live, killed, index, dead)
      ensures best == (if totalcost < old(best) then totalcost else old(best)) && BestIn(index, best, Bar(best, threshold))
      ensures Pruning(index, index, index, queue, limit, cutoff, Bar(best, threshold), Slot(totalcost, Some(x)))
      ensures cutoff == if threshold.Some? then Bar(best, threshold) else old(cutoff)
      ensures x !in old(index) ==> dead <= old(dead)
      ensures result <==> x !in old(index) || totalcost < old(index)[x].cost
    {
      hide QueueOk, BelowCutoff, CutoffOk, Loose, Roomy, Tight, Offered, BestOk, Bar, Pruning, BestIn;
      ghost var bar0 := Bar(best, threshold);
      OfferedBest(index, x, totalcost, ded, best);
      CutoffIsPossible(index, limit, cutoff, bar0);
      BarIs(best, threshold);
      if x in index && totalcost >= index[x].cost {
        Merge(totalcost, x, ded);
        result := false;
      } else if x in index {
        Replace(totalcost, x, ded);
        result := true;
      } else {
        Push(totalcost, x, ded);
        result := true;
      }
      LooseIs(index, queue, limit, cutoff, bar0, Slot(totalcost, Some(x)));
      BarIs(best, threshold);
      if threshold.Some? {
        cutoff := if best + threshold.value < IMPOSSIBLE then best + threshold.value else IMPOSSIBLE;
      }
      BestBelowBar(index, best, threshold);
      PruningStarts(index, queue, limit, cutoff, Bar(best, threshold), Slot(totalcost, Some(x)));
    }

    /** Gives a dearer item's derivation to the one held. */
    method Merge(totalcost: real, x: Signature, ded: Derivation)
      requires Sound() && x in index && totalcost >= index[x].cost
      modifies this`index
      ensures index == Offered(old(index), x, totalcost, ded) && QueueOk(queue, live, killed, index, dead)
      ensures Loose(index, queue, limit, cutoff, Bar(best, threshold), Slot(totalcost, Some(x)))
    {
      hide QueueOk, BelowCutoff, CutoffOk, Loose, Bar, BestOk;
      MergeOk(queue, live, killed, index, dead, limit, cutoff, Bar(best, threshold), x, totalcost, ded);
      index := index[x := Held(index[x].cost, index[x].deds + [ded])];
    }

    /** Displaces the item held by a cheaper one, which takes its derivations. */
    method Replace(totalcost: real, x: Signature, ded: Derivation)
      requires Sound() && x in index && totalcost < index[x].cost
      modifies this`index, this`queue, this`live, this`killed, this`dead, this`best
      ensures index == Offered(old(index), x, totalcost, ded) && QueueOk(queue, live, killed, index, dead)
      ensures Loose(index, queue, limit, cutoff, Bar(old(best), threshold), Slot(totalcost, Some(x)))
      ensures best == if totalcost < old(best) then totalcost else old(best)
    {
      hide QueueOk, BelowCutoff, CutoffOk, Loose, Bar, BestOk;
      DisplaceOk(queue, live, killed, index, dead, limit, cutoff, Bar(best, threshold), x, totalcost, ded);
      var s := SlotOf(index, x);
      queue := queue - multiset{s} + multiset{Slot(s.cost, None)} + multiset{Slot(totalcost, Some(x))};
      live := live - multiset{s} + multiset{Slot(totalcost, Some(x))};
      killed := killed + multiset{Slot(s.cost, None)};
      dead := dead + 1;
      index := index[x := Held(totalcost, [ded] + index[x].deds)];
      best := if totalcost < best then totalcost else best;
    }

    method Push(totalcost: real, x: Signature, ded: Derivation)
      requires Sound() && x !in index && totalcost < IMPOSSIBLE
      modifies this`index, this`queue, this`live, this`best
      ensures index == Offered(old(index), x, totalcost, ded) && QueueOk(queue, live, killed, index, dead)
      ensures Loose(index, queue, limit, cutoff, Bar(old(best), threshold), Slot(totalcost, Some(x)))
      ensures best == if totalcost < old(best) then totalcost else old(best)
    {
      hide QueueOk, BelowCutoff, CutoffOk, Loose, Bar, BestOk;
      PushOk(queue, live, killed, index, dead, limit, cutoff, Bar(best, threshold), x, totalcost, ded);
      queue := queue + multiset{Slot(totalcost, Some(x))};
      live := live + multiset{Slot(totalcost, Some(x))};
      index := index[x := Held(totalcost, [ded])];
      best := if totalcost < best then totalcost else best;
    }

    /** Takes the worst entries off until the bin is within its limit and
        below its cutoff, then lowers the cutoff if the bin is full. */
    method Prune(ghost e: Slot)
      requires QueueOk(queue, live, killed, index, dead) && BestIn(index, best, Bar(best, threshold))
      requires Pruning(index, index, index, queue, limit, cutoff, Bar(best, threshold), e) && (threshold.Some? ==> threshold.value > 0.0)
      modifies this`index, this`queue, this`live, this`killed, this`dead, this`cutoff
      ensures Sound() && AddedTo(old(index), index, limit, Bar(best, threshold))
      ensures CutoffLow(index, queue, limit, old(cutoff), cutoff) && dead <= old(dead)
    {
      hide QueueOk, BelowCutoff, CutoffOk, CutoffLow, Pruning, Dearest, Worst, AddedTo, BestOk, Bar;
      ghost var mid, base, bar := index, index, Bar(best, threshold);
      HeldIsQueued(queue, live, killed, index, dead);
      BestHeld(index, best, bar);
      var top := Top();
      while (limit.Some? && |queue| - dead > limit.value) || top.cost >= cutoff
        invariant QueueOk(queue, live, killed, index, dead) && Pruning(mid, base, index, queue, limit, cutoff, bar, e)
        invariant Worst(queue, top) && |queue| == |index| + dead && dead <= old(dead) && BestIn(index, best, bar)
        invariant cutoff == old(cutoff)
        decreases |queue|
      {
        base := PopWorst(top, mid, base, bar, e);
        HeldIsQueued(queue, live, killed, index, dead);
        BestHeld(index, best, bar);
        top := Top();
      }
      HeldIsQueued(queue, live, killed, index, dead);
      PruneDone(mid, base, index, queue, limit, cutoff, bar, e, top);
      if limit.Some? && |queue| - dead == limit.value {
        LowerCutoff(index, queue, limit, cutoff, bar, top);
        cutoff := if top.cost + EPSILON < cutoff then top.cost + EPSILON else cutoff;
      } else {
        NotFull(index, queue, limit, cutoff);
      }
    }

    /** Takes off the worst entry, which is one too many or not below the cutoff. */
    method PopWorst(top: Slot, ghost mid: Index, ghost base: Index, ghost bar: real, ghost e: Slot) returns (ghost base': Index)
      requires QueueOk(queue, live, killed, index, dead) && Pruning(mid, base, index, queue, limit, cutoff, bar, e)
      requires Worst(queue, top) && BestIn(index, best, bar) && TooMany(index, limit, cutoff, top)
      modifies this`index, this`queue, this`live, this`killed, this`dead
      ensures QueueOk(queue, live, killed, index, dead) && Pruning(mid, base', index, queue, limit, cutoff, bar, e)
      ensures BestIn(index, best, bar) && dead <= old(dead) && |queue| < |old(queue)|
    {
      hide QueueOk, Pruning, Dearest, Worst, BestIn, TooMany;
      ghost var index0, queue0 := index, queue;
      base' := base;
      PopReason(mid, base, index, queue, limit, cutoff, bar, e, top);
      Pop(top);
      if top.item.None? {
        PopDeadStep(mid, base, index, queue0, limit, cutoff, bar, e, top);
      } else {
        PopLiveStep(mid, base, index0, queue0, limit, cutoff, bar, e, top);
        BestStays(index0, best, bar, limit, cutoff, top);
        base' := BaseAfter(base, index0, limit, top.item.value);
      }
    }

    /** Takes the worst entry off, and the item it stands for out. */
    method Pop(top: Slot)
      requires QueueOk(queue, live, killed, index, dead) && Worst(queue, top)
      modifies this`index, this`queue, this`live, this`killed, this`dead
      ensures QueueOk(queue, live, killed, index, dead)
      ensures queue == old(queue) - multiset{top} && |queue| < |old(queue)|
      ensures if top.item.None? then index == old(index)
              else Dearest(old(index), top.item.value) && index == old(index) - {top.item.value}
                   && top == SlotOf(old(index), top.item.value)
      ensures top in old(queue)
      ensures dead <= old(dead)
    {
      hide QueueOk, Dearest, Worst, SlotOf;
      WorstIsIn(queue, top);
      ghost var q, l, k, ix, d := queue, live, killed, index, dead;
      if top.item.None? {
        PopDead(q, l, k, ix, d, top);
        killed := k - multiset{top};
        dead := dead - 1;
      } else {
        PopLive(q, l, k, ix, d, top);
        live := l - multiset{top};
        index := index - {top.item.value};
      }
      queue := queue - multiset{top};
    }

    /** A worst entry, without taking it off. */
    method Top() returns (e: Slot)
      requires |queue| > 0
      ensures Worst(queue, e)
    {
      ghost var w := WorstExists(queue);
      e :| e in queue && forall e' :: e' in queue ==> e'.cost <= e.cost;
    }

    /** What a span's expansion does with each way of building an item: skips
        those not below the cutoff. */
    method Consider(totalcost: real, x: Signature, ded: Derivation, ghost lowest: map<Signature, real>)
      requires Valid() && Holds(index, lowest, limit, threshold)
      modifies this
      ensures Valid() && Holds(index, Lower(lowest, x, totalcost), limit, threshold)
      ensures if totalcost < old(cutoff) then
                && added == old(added) + [Offer(x, totalcost, ded)] && skipped == old(skipped)
                && gone == old(gone) + (Offered(old(index), x, totalcost, ded).Keys - index.Keys)
              else
                && skipped == old(skipped) + [Offer(x, totalcost, ded)] && added == old(added)
                && gone == old(gone) && index == old(index)
    {
      hide Holds, Lower, QueueOk, BelowCutoff, CutoffOk, Offered, AddedTo, Remembers, BestOk, Bar;
      CutoffIsPossible(index, limit, cutoff, Bar(best, threshold));
      ghost var before, best0 := index, best;
      if totalcost < cutoff {
        var added := Add(totalcost, x, ded);
        AddKeeps(before, index, lowest, limit, threshold, best0, x, totalcost, ded);
      } else {
        SkipIsFull(queue, live, killed, index, dead, limit, cutoff, Bar(best, threshold), totalcost);
        SkipHolds(index, lowest, limit, threshold, best, x, totalcost);
        skipped := skipped + [Offer(x, totalcost, ded)];
      }
    }

    /** A held item has every derivation that it was considered with exactly if
        it was never pruned and no consideration of it was turned away. */
    lemma HasAllDeds(x: Signature)
      requires Valid() && x in index
      ensures index[x].deds != [] && Offer(x, index[x].cost, index[x].deds[0]) in added
      ensures x !in gone ==> multiset(index[x].deds) == DedsOf(added, x)
      ensures multiset(index[x].deds) == DedsOf(added, x) + DedsOf(skipped, x)
              <==> x !in gone && forall o :: o in skipped ==> o.item != x
    {
      assert RemembersAt(index, added, gone, x);
      KeepsAllDeds(index, added, skipped, gone, x);
    }
  }

  /** In a bin for one item, an item that is pruned and comes back no longer has
      the derivation it was pruned with. */
  method PrunedComesBack() returns (b: Bin)
    ensures fresh(b) && b.Valid() && b.index == map[0 := Held(0.0, [Axiom(12)])]
    ensures b.added == [Offer(0, 2.0, Axiom(10)), Offer(1, 1.0, Axiom(11)), Offer(0, 0.0, Axiom(12))] && b.skipped == []
    ensures multiset(b.index[0].deds) != DedsOf(b.added, 0) + DedsOf(b.skipped, 0)
  {
    hide AddedTo, Offered, QueueOk, BelowCutoff, CutoffOk, CutoffLow, Remembers, DedsOf, Bar, BestOk;
    b := new Bin(Some(1), None);
    var first := b.Add(2.0, 0, Axiom(10));
    ghost var one := b.index;
    BarIs(b.best, None);
    var second := b.Add(1.0, 1, Axiom(11));
    ghost var two := b.index;
    BarIs(b.best, None);
    var third := b.Add(0.0, 0, Axiom(12));
    BarIs(b.best, None);
    PrunedForgets(one, two, b.index);
    assert DedsOf([], 0) == multiset{} by { SkippedDeds([], 0); }
  }

  /** In a bin for one item, an item offered again at a greater cost is turned
      away, and does not have the derivation offered then. */
  method DearerIsTurnedAway() returns (b: Bin)
    ensures fresh(b) && b.Valid() && b.index == map[0 := Held(0.0, [Axiom(10)])]
    ensures b.added == [Offer(0, 0.0, Axiom(10))] && b.skipped == [Offer(0, 5.0, Axiom(11))]
    ensures multiset(b.index[0].deds) != DedsOf(b.added, 0) + DedsOf(b.skipped, 0)
  {
    hide AddedTo, Offered, QueueOk, BelowCutoff, CutoffOk, CutoffLow, Remembers, DedsOf, Holds, Lower, Bar, BestOk;
    b := new Bin(Some(1), None);
    var first := b.Add(0.0, 0, Axiom(10));
    BarIs(b.best, None);
    SkippedForgets(b.index);
    LowIsDearest(b.queue, b.live, b.killed, b.index, b.limit, 999999.0, b.cutoff, 0.0);
    assert Holds(b.index, map[0 := 0.0], b.limit, b.threshold) by { OneIsHeld(b.index); }
    b.Consider(5.0, 0, Axiom(11), map[0 := 0.0]);
  }

  lemma OneIsHeld(index: Index)
    requires index == map[0 := Held(0.0, [Axiom(10)])]
    ensures Holds(index, map[0 := 0.0], Some(1), None)
  {
    assert Near(map[0 := 0.0], None) == map[0 := 0.0];
  }
}
