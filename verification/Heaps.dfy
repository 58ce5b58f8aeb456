/** A binary heap in a list, with a comparison given by the user. */
module Heaps {

  /** The comparison is a total preorder. */
  ghost predicate Orders<T(!new)>(compare: (T, T) -> int) {
    && (forall a, b :: compare(a, b) <= 0 || compare(b, a) <= 0)
    && (forall a, b, c :: compare(a, b) <= 0 && compare(b, c) <= 0 ==> compare(a, c) <= 0)
    && (forall a, b :: compare(a, b) > 0 ==> compare(b, a) <= 0)
  }

  function Parent(k: nat): nat
    requires k > 0
  {
    (k - 1) / 2
  }

  /** Item `k` is not smaller than its parent. */
  predicate Above<T>(compare: (T, T) -> int, a: seq<T>, k: nat)
    requires 0 < k < |a|
  {
    compare(a[Parent(k)], a[k]) <= 0
  }

  predicate HeapOrdered<T>(compare: (T, T) -> int, a: seq<T>) {
    forall k :: 0 < k < |a| ==> Above(compare, a, k)
  }

  /** The first item of a heap is one of the smallest. */
  lemma {:induction false} FirstIsLeast<T(!new)>(compare: (T, T) -> int, a: seq<T>, k: nat)
    requires Orders(compare) && HeapOrdered(compare, a) && k < |a|
    ensures compare(a[0], a[k]) <= 0
  {
    if k > 0 {
      FirstIsLeast(compare, a, Parent(k));
      assert Above(compare, a, k);
    }
  }

  function Swap<T>(a: seq<T>, i: nat, j: nat): (b: seq<T>)
    requires i < |a| && j < |a|
    ensures |b| == |a| && b[i] == a[j] && b[j] == a[i]
    ensures forall k :: 0 <= k < |a| && k != i && k != j ==> b[k] == a[k]
  {
    a[i := a[j]][j := a[i]]
  }

  lemma SwapKeeps<T>(a: seq<T>, i: nat, j: nat)
    requires i < |a| && j < |a|
    ensures multiset(Swap(a, i, j)) == multiset(a)
  {
  }

  // ----- sifting up

  /** A heap but for the item at `high`, which may be smaller than those above;
      what is below it is no smaller than what is above it. */
  predicate SiftingUp<T>(compare: (T, T) -> int, a: seq<T>, high: nat) {
    && high < |a|
    && (forall k :: 0 < k < |a| && k != high ==> Above(compare, a, k))
    && (forall k :: 0 < k < |a| && Parent(k) == high && high > 0 ==> compare(a[Parent(high)], a[k]) <= 0)
  }

  lemma SiftUpStep<T(!new)>(compare: (T, T) -> int, a: seq<T>, high: nat)
    requires Orders(compare) && SiftingUp(compare, a, high) && high > 0 && !Above(compare, a, high)
    ensures SiftingUp(compare, Swap(a, Parent(high), high), Parent(high))
  {
    var low := Parent(high);
    var b := Swap(a, low, high);
    forall k | 0 < k < |b| && k != low ensures Above(compare, b, k) {
      if k != high { assert Above(compare, a, k); }
    }
    if low > 0 {
      assert Above(compare, a, low);
      forall k | 0 < k < |b| && Parent(k) == low ensures compare(b[Parent(low)], b[k]) <= 0 {
        if k != high { assert Above(compare, a, k); }
      }
    }
  }

  // ----- sifting down

  /** A heap but for the item at `low`, which may be larger than those below;
      what is below it is no smaller than what is above it. */
  predicate SiftingDown<T>(compare: (T, T) -> int, a: seq<T>, low: nat) {
    && low < |a|
    && (forall k :: 0 < k < |a| && Parent(k) != low ==> Above(compare, a, k))
    && (forall k :: 0 < k < |a| && Parent(k) == low && low > 0 ==> compare(a[Parent(low)], a[k]) <= 0)
  }

  /** Swapping with the smaller item below. */
  lemma SiftDownStep<T(!new)>(compare: (T, T) -> int, a: seq<T>, low: nat, high: nat)
    requires Orders(compare) && SiftingDown(compare, a, low) && 0 < high < |a| && Parent(high) == low
    requires forall k :: 0 < k < |a| && Parent(k) == low ==> compare(a[high], a[k]) <= 0
    requires compare(a[low], a[high]) > 0
    ensures SiftingDown(compare, Swap(a, low, high), high)
  {
    var b := Swap(a, low, high);
    forall k | 0 < k < |b| && Parent(k) != high ensures Above(compare, b, k) {
      if Parent(k) != low {
        assert Above(compare, a, k);
      }
    }
    forall k | 0 < k < |b| && Parent(k) == high ensures compare(b[Parent(high)], b[k]) <= 0 {
      assert Above(compare, a, k);
    }
  }

  lemma SiftDownEnds<T>(compare: (T, T) -> int, a: seq<T>, low: nat)
    requires SiftingDown(compare, a, low)
    requires forall k :: 0 < k < |a| && Parent(k) == low ==> compare(a[low], a[k]) <= 0
    ensures HeapOrdered(compare, a)
  {
    forall k | 0 < k < |a| ensures Above(compare, a, k) {}
  }

  class Heap<T(!new)> {
    const compare: (T, T) -> int
    var items: seq<T>

    ghost predicate Valid()
      reads this
    {
      Orders(compare) && HeapOrdered(compare, items)
    }

    constructor (compare: (T, T) -> int)
      requires Orders(compare)
      ensures Valid() && items == [] && this.compare == compare && fresh(this)
    {
      this.compare, items := compare, [];
    }

    method Push(item: T)
      requires Valid()
      modifies this
      ensures Valid() && multiset(items) == multiset(old(items)) + multiset{item}
    {
      hide Orders, Above;
      items := items + [item];
      var high: nat := |items| - 1;
      assert SiftingUp(compare, items, high) by { PushStarts(compare, old(items), item); }
      while high > 0
        invariant Orders(compare) && SiftingUp(compare, items, high)
        invariant multiset(items) == multiset(old(items)) + multiset{item}
      {
        var low := (high - 1) / 2;
        if compare(items[low], items[high]) <= 0 {
          break;
        }
        SmallerThanParent(compare, items, high);
        SiftUpStep(compare, items, high);
        SwapKeeps(items, low, high);
        items := Swap(items, low, high);
        high := low;
      }
      SiftUpEnds(compare, items, high);
    }

    /** Takes out one of the smallest items. */
    method Pop() returns (item: T)
      requires Valid() && items != []
      modifies this
      ensures Valid() && item in multiset(old(items)) && multiset(items) == multiset(old(items)) - multiset{item}
      ensures forall x :: x in old(items) ==> compare(item, x) <= 0
    {
      hide Orders, Above;
      ghost var start := items;
      item := items[0];
      forall x | x in start ensures compare(item, x) <= 0 {
        var k :| 0 <= k < |start| && start[k] == x;
        FirstIsLeast(compare, start, k);
      }
      FirstGoes(start);
      if |items| == 1 {
        items := [];
      } else {
        items := [items[|items| - 1]] + items[1..|items| - 1];
        PopStarts(compare, start);
        var low, high := 0, 1;
        while high < |items|
          invariant Orders(compare) && SiftingDown(compare, items, low) && high == 2 * low + 1
          invariant multiset(items) == multiset(start) - multiset{item}
          decreases |items| - low
        {
          if high + 1 < |items| && compare(items[high], items[high + 1]) > 0 {
            high := high + 1;
          }
          SmallerChild(compare, items, low, high);
          if compare(items[low], items[high]) <= 0 {
            StopsHere(compare, items, low, high);
            break;
          }
          SiftDownStep(compare, items, low, high);
          SwapKeeps(items, low, high);
          items := Swap(items, low, high);
          low, high := high, 2 * high + 1;
        }
        if high >= |items| { SiftDownEnds(compare, items, low); }
      }
    }
  }

  lemma PushStarts<T>(compare: (T, T) -> int, a: seq<T>, item: T)
    requires HeapOrdered(compare, a)
    ensures SiftingUp(compare, a + [item], |a|)
  {
    forall k | 0 < k < |a| ensures Above(compare, a + [item], k) { assert Above(compare, a, k); }
  }

  lemma SmallerThanParent<T>(compare: (T, T) -> int, a: seq<T>, k: nat)
    requires 0 < k < |a| && compare(a[Parent(k)], a[k]) > 0
    ensures !Above(compare, a, k)
  {
  }

  lemma SiftUpEnds<T>(compare: (T, T) -> int, a: seq<T>, high: nat)
    requires SiftingUp(compare, a, high) && (high > 0 ==> compare(a[(high - 1) / 2], a[high]) <= 0)
    ensures HeapOrdered(compare, a)
  {
    forall k | 0 < k < |a| ensures Above(compare, a, k) {}
  }

  lemma FirstGoes<T>(a: seq<T>)
    requires a != []
    ensures |a| == 1 ==> multiset(a) - multiset{a[0]} == multiset{}
    ensures |a| > 1 ==> multiset([a[|a| - 1]] + a[1..|a| - 1]) == multiset(a) - multiset{a[0]}
  {
    if |a| > 1 {
      assert a == [a[0]] + a[1..|a| - 1] + [a[|a| - 1]];
    } else {
      assert a == [a[0]];
    }
  }

  lemma PopStarts<T>(compare: (T, T) -> int, a: seq<T>)
    requires HeapOrdered(compare, a) && |a| > 1
    ensures SiftingDown(compare, [a[|a| - 1]] + a[1..|a| - 1], 0)
  {
    var b := [a[|a| - 1]] + a[1..|a| - 1];
    forall k | 0 < k < |b| && Parent(k) != 0 ensures Above(compare, b, k) { assert Above(compare, a, k); }
  }

  /** The item chosen is the smaller of those below. */
  lemma SmallerChild<T(!new)>(compare: (T, T) -> int, a: seq<T>, low: nat, high: nat)
    requires Orders(compare) && high < |a|
    requires high == 2 * low + 1 || high == 2 * low + 2
    requires high == 2 * low + 1 && high + 1 < |a| ==> compare(a[high], a[high + 1]) <= 0
    requires high == 2 * low + 2 ==> compare(a[high - 1], a[high]) > 0
    ensures Parent(high) == low && forall k :: 0 < k < |a| && Parent(k) == low ==> compare(a[high], a[k]) <= 0
  {
    forall k | 0 < k < |a| && Parent(k) == low ensures compare(a[high], a[k]) <= 0 {
      assert k == 2 * low + 1 || k == 2 * low + 2;
    }
  }

  lemma StopsHere<T(!new)>(compare: (T, T) -> int, a: seq<T>, low: nat, high: nat)
    requires Orders(compare) && SiftingDown(compare, a, low) && high < |a| && compare(a[low], a[high]) <= 0
    requires forall k :: 0 < k < |a| && Parent(k) == low ==> compare(a[high], a[k]) <= 0
    ensures HeapOrdered(compare, a)
  {
    SiftDownEnds(compare, a, low);
  }
}
