/** Merging sorted lists, possibly endless, into one. */
module LazyMerges {
  import opened Wrappers
  import opened Heaps
  import opened LazyProducts

  /** The first item of a list that is still to come. */
  datatype Head = Head(value: real, list: nat)

  function CompareHeads(a: Head, b: Head): int {
    if a.value < b.value then -1 else if a.value == b.value then 0 else 1
  }

  lemma CompareHeadsOrders()
    ensures Orders(CompareHeads)
  {
  }

  /** The list has an item to come. */
  predicate More(lists: seq<Lazy>, taken: seq<nat>, d: nat) {
    d < |lists| && d < |taken| && Has(lists[d], taken[d])
  }

  /** The heap holds the next item of every list that has one, once. */
  ghost predicate HoldsHeads(items: multiset<Head>, lists: seq<Lazy>, taken: seq<nat>) {
    forall e :: items[e] == if More(lists, taken, e.list) && e.value == lists[e.list].at(taken[e.list]) then 1 else 0
  }

  /** From its next item on a sorted list only grows. */
  lemma {:induction false} SortedFrom(lists: seq<Lazy>, d: nat, i: nat, j: nat)
    requires SortedLists(lists) && d < |lists| && i <= j && Has(lists[d], j)
    ensures lists[d].at(i) <= lists[d].at(j)
    decreases j - i
  {
    if i < j {
      SortedFrom(lists, d, i, j - 1);
      var p: nat := j - 1;
      assert Has(lists[d], p + 1);
    }
  }

  /** Nothing to come is below `v`. */
  ghost predicate AllFrom(lists: seq<Lazy>, taken: seq<nat>, v: real) {
    |taken| == |lists| && forall d, i: nat :: 0 <= d < |lists| && taken[d] <= i && Has(lists[d], i) ==> v <= lists[d].at(i)
  }

  lemma LeastHeadIsLeast(lists: seq<Lazy>, taken: seq<nat>, items: seq<Head>, top: Head)
    requires SortedLists(lists) && |taken| == |lists| && HoldsHeads(multiset(items), lists, taken)
    requires forall x :: x in items ==> CompareHeads(top, x) <= 0
    ensures AllFrom(lists, taken, top.value)
  {
    forall d, i: nat | 0 <= d < |lists| && taken[d] <= i && Has(lists[d], i) ensures top.value <= lists[d].at(i) {
      SortedFrom(lists, d, taken[d], i);
      var e := Head(lists[d].at(taken[d]), d);
      assert multiset(items)[e] == 1;
      assert e in items;
    }
  }

  class MergeHeap {
    const lists: seq<Lazy>
    const heap: Heap<Head>
    /** How many items of each list are out. */
    var taken: seq<nat>

    ghost predicate Valid()
      reads this, heap
    {
      && heap.Valid() && heap.compare == CompareHeads && SortedLists(lists) && |taken| == |lists|
      && HoldsHeads(multiset(heap.items), lists, taken)
    }

    constructor (lists: seq<Lazy>)
      requires SortedLists(lists)
      ensures Valid() && this.lists == lists && taken == seq(|lists|, _ => 0) && fresh(heap)
    {
      this.lists := lists;
      CompareHeadsOrders();
      this.heap := new Heap(CompareHeads);
      taken := seq(|lists|, _ => 0);
      new;
      for d := 0 to |lists|
        invariant heap.Valid() && heap.compare == CompareHeads && taken == seq(|lists|, _ => 0) && fresh(heap)
        invariant forall e :: multiset(heap.items)[e] == if e.list < d && More(lists, taken, e.list) && e.value == lists[e.list].at(0) then 1 else 0
      {
        if Has(lists[d], 0) {
          this.heap.Push(Head(lists[d].at(0), d));
        }
      }
    }

    /** The next item of the merged list, and which list it is from; nothing
        once all lists are out. */
    method Next() returns (v: Option<real>, ghost d: nat)
      requires Valid()
      modifies this, heap
      ensures Valid()
      ensures |taken| == |lists| && (v.None? ==> taken == old(taken))
      ensures v.None? ==> forall k :: 0 <= k < |lists| ==> lists[k].len.Some? && lists[k].len.value <= taken[k]
      ensures v.Some? ==>
                && d < |lists| && More(lists, old(taken), d) && v.value == lists[d].at(old(taken)[d])
                && (lists[d].len.Some? ==> old(taken)[d] < lists[d].len.value)
                && taken == old(taken)[d := old(taken)[d] + 1]
                && AllFrom(lists, old(taken), v.value)
    {
      hide HoldsHeads, SortedLists, AllFrom, More, Orders, HeapOrdered;
      d := 0;
      if |heap.items| == 0 {
        v := None;
        NoHeads(lists, taken, heap.items);
        return;
      }
      ghost var before, t := heap.items, taken;
      var top := heap.Pop();
      TopIsHead(lists, t, before, top);
      LeastHeadIsLeast(lists, t, before, top);
      HeadGone(lists, t, multiset(before), top);
      d := top.list;
      taken := taken[top.list := taken[top.list] + 1];
      if Has(lists[top.list], taken[top.list]) {
        heap.Push(Head(lists[top.list].at(taken[top.list]), top.list));
      }
      v := Some(top.value);
    }
  }

  lemma NoHeads(lists: seq<Lazy>, taken: seq<nat>, items: seq<Head>)
    requires HoldsHeads(multiset(items), lists, taken) && items == [] && |taken| == |lists|
    ensures forall k :: 0 <= k < |lists| ==> lists[k].len.Some? && lists[k].len.value <= taken[k]
  {
    forall k | 0 <= k < |lists| ensures lists[k].len.Some? && lists[k].len.value <= taken[k] {
      assert !More(lists, taken, k) <==> lists[k].len.Some? && lists[k].len.value <= taken[k];
      assert multiset(items)[Head(lists[k].at(taken[k]), k)] == 0;
    }
  }

  lemma TopIsHead(lists: seq<Lazy>, taken: seq<nat>, items: seq<Head>, top: Head)
    requires HoldsHeads(multiset(items), lists, taken) && top in multiset(items) && |taken| == |lists|
    ensures multiset(items)[top] == 1 && More(lists, taken, top.list) && top.list < |lists|
    ensures top.value == lists[top.list].at(taken[top.list])
    ensures lists[top.list].len.Some? ==> taken[top.list] < lists[top.list].len.value
  {
  }

  /** With its head out, the list has either no item in the heap or its next. */
  lemma HeadGone(lists: seq<Lazy>, taken: seq<nat>, items: multiset<Head>, top: Head)
    requires HoldsHeads(items, lists, taken) && items[top] == 1 && |taken| == |lists|
    ensures More(lists, taken, top.list)
    ensures var t := taken[top.list := taken[top.list] + 1];
            var rest := items - multiset{top};
            && (!Has(lists[top.list], t[top.list]) ==> HoldsHeads(rest, lists, t))
            && (Has(lists[top.list], t[top.list]) ==>
                  HoldsHeads(rest + multiset{Head(lists[top.list].at(t[top.list]), top.list)}, lists, t))
  {
  }
}
