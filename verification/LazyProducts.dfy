/** Products of sorted lists, possibly endless, smallest first. */
module LazyProducts {
  import opened Wrappers
  import opened Heaps

  /** A list whose items are computed on demand; it may have no end. */
  datatype Lazy = Lazy(len: Option<nat>, at: nat -> real)

  type Pos = seq<nat>

  predicate Has(l: Lazy, i: nat) {
    l.len.None? || i < l.len.value
  }

  /** The position has an item in every list. */
  predicate InRange(lists: seq<Lazy>, pos: Pos) {
    |pos| == |lists| && forall d :: 0 <= d < |pos| ==> Has(lists[d], pos[d])
  }

  /** The position is before the end of every list that has one. */
  predicate Inside(lists: seq<Lazy>, pos: Pos) {
    |pos| == |lists| && forall d :: 0 <= d < |pos| && lists[d].len.Some? ==> pos[d] < lists[d].len.value
  }

  function Values(lists: seq<Lazy>, pos: Pos): (v: seq<real>)
    requires |pos| == |lists|
    ensures |v| == |pos| && forall d :: 0 <= d < |pos| ==> v[d] == lists[d].at(pos[d])
  {
    seq(|pos|, d requires 0 <= d < |pos| => lists[d].at(pos[d]))
  }

  ghost predicate SortedLists(lists: seq<Lazy>) {
    forall d, i: nat {:trigger Has(lists[d], i + 1)} :: 0 <= d < |lists| && Has(lists[d], i + 1) ==> lists[d].at(i) <= lists[d].at(i + 1)
  }

  predicate Below(u: seq<real>, v: seq<real>) {
    |u| == |v| && forall d :: 0 <= d < |u| ==> u[d] <= v[d]
  }

  /** On the lists' items the product grows with each argument. */
  ghost predicate Monotone(lists: seq<Lazy>, product: seq<real> -> real) {
    forall p, q :: InRange(lists, p) && InRange(lists, q) && Below(Values(lists, p), Values(lists, q)) ==>
      product(Values(lists, p)) <= product(Values(lists, q))
  }

  // ----- each position but the first has one predecessor

  function Up(pos: Pos, d: nat): Pos
    requires d < |pos|
  {
    pos[d := pos[d] + 1]
  }

  /** The first direction in which the position is not zero. */
  function FirstNonzero(pos: Pos): nat {
    if pos == [] then 0 else if pos[0] != 0 then 0 else FirstNonzero(pos[1..]) + 1
  }

  lemma {:induction false} FirstNonzeroIs(pos: Pos)
    ensures FirstNonzero(pos) <= |pos| && forall d :: 0 <= d < FirstNonzero(pos) ==> pos[d] == 0
    ensures FirstNonzero(pos) < |pos| ==> pos[FirstNonzero(pos)] != 0
  {
    if pos != [] && pos[0] == 0 {
      FirstNonzeroIs(pos[1..]);
      forall d | 0 < d < FirstNonzero(pos) ensures pos[d] == 0 { assert pos[d] == pos[1..][d - 1]; }
    }
  }

  predicate IsZero(pos: Pos) {
    forall d :: 0 <= d < |pos| ==> pos[d] == 0
  }

  function Pred(pos: Pos): Pos {
    var f := FirstNonzero(pos);
    if f < |pos| && pos[f] > 0 then pos[f := pos[f] - 1] else pos
  }

  /** A step raises a position in each direction up to and including its
      first nonzero one; those are exactly the positions it precedes. */
  lemma ChildrenArePreceded(p: Pos, q: Pos)
    requires |p| == |q|
    ensures !IsZero(q) && Pred(q) == p <==>
              FirstNonzero(q) < |p| && FirstNonzero(q) <= FirstNonzero(p) && q == Up(p, FirstNonzero(q))
  {
    hide FirstNonzero;
    var f := FirstNonzero(q);
    FirstNonzeroIs(q);
    if f < |q| {
      if Pred(q) == p { PredIsBelow(q); }
      if f <= FirstNonzero(p) && q == Up(p, f) { ChildDirection(p, f); }
    }
  }

  lemma PredIsBelow(q: Pos)
    requires FirstNonzero(q) < |q|
    ensures |Pred(q)| == |q| && q == Up(Pred(q), FirstNonzero(q)) && FirstNonzero(q) <= FirstNonzero(Pred(q))
  {
    hide FirstNonzero;
    FirstNonzeroIs(q);
    var f := FirstNonzero(q);
    var p := q[f := q[f] - 1];
    FirstNonzeroIs(p);
    assert Up(p, f) == q;
  }

  lemma {:induction false} FirstNonzeroAt(pos: Pos, d: nat)
    requires d < |pos| && pos[d] != 0 && forall c :: 0 <= c < d ==> pos[c] == 0
    ensures FirstNonzero(pos) == d
  {
    if d > 0 { FirstNonzeroAt(pos[1..], d - 1); }
  }

  /** Raising in one of those directions makes it the first nonzero one. */
  lemma ChildDirection(p: Pos, d: nat)
    requires d < |p| && d <= FirstNonzero(p)
    ensures FirstNonzero(Up(p, d)) == d && !IsZero(Up(p, d)) && Pred(Up(p, d)) == p
  {
    hide FirstNonzero;
    FirstNonzeroIs(p);
    var q := Up(p, d);
    assert q[d] == p[d] + 1;
    FirstNonzeroAt(q, d);
    assert q[d := q[d] - 1] == p;
  }

  // ----- costs along predecessors

  function Cost(lists: seq<Lazy>, product: seq<real> -> real, pos: Pos): real {
    if |pos| == |lists| then product(Values(lists, pos)) else 0.0
  }

  lemma PredIsInRange(lists: seq<Lazy>, q: Pos)
    requires InRange(lists, q)
    ensures InRange(lists, Pred(q))
  {
  }

  /** A position costs no less than its predecessor. */
  lemma PredIsCheaper(lists: seq<Lazy>, product: seq<real> -> real, q: Pos)
    requires SortedLists(lists) && Monotone(lists, product) && InRange(lists, q)
    ensures Cost(lists, product, Pred(q)) <= Cost(lists, product, q)
  {
    PredIsInRange(lists, q);
    var p := Pred(q);
    forall d | 0 <= d < |q| ensures Values(lists, p)[d] <= Values(lists, q)[d] {
      if p[d] != q[d] { assert Has(lists[d], p[d] + 1); }
    }
  }

  function Sum(pos: Pos): nat {
    if pos == [] then 0 else pos[0] + Sum(pos[1..])
  }

  lemma {:induction false} SumDrops(pos: Pos, d: nat)
    requires d < |pos| && pos[d] > 0
    ensures Sum(pos[d := pos[d] - 1]) == Sum(pos) - 1
  {
    var p := pos[d := pos[d] - 1];
    if d == 0 {
      assert p[1..] == pos[1..];
    } else {
      SumDrops(pos[1..], d - 1);
      assert p[1..] == pos[1..][d - 1 := pos[d] - 1];
    }
  }

  lemma PredIsSmaller(q: Pos)
    requires !IsZero(q)
    ensures Sum(Pred(q)) == Sum(q) - 1 && |Pred(q)| == |q|
  {
    FirstNonzeroIs(q);
    if FirstNonzero(q) < |q| { SumDrops(q, FirstNonzero(q)); }
  }

  // ----- the enumeration's state

  /** A position is out or waiting exactly when its predecessor is out; the
      last one out has raised its first `k` directions only. */
  predicate PlacedAt(out: set<Pos>, waiting: set<Pos>, last: Pos, k: nat, q: Pos) {
    && !(q in out && q in waiting)
    && (q in out || q in waiting <==> IsZero(q) || (Pred(q) in out && !(Pred(q) == last && FirstNonzero(q) >= k)))
  }

  ghost predicate Placed(lists: seq<Lazy>, out: set<Pos>, waiting: set<Pos>, last: Pos, k: nat) {
    && (forall q :: q in out || q in waiting ==> InRange(lists, q))
    && (forall q {:trigger PlacedAt(out, waiting, last, k, q)} :: InRange(lists, q) ==> PlacedAt(out, waiting, last, k, q))
  }

  lemma TakeOne(lists: seq<Lazy>, out: set<Pos>, waiting: set<Pos>, last: Pos, p: Pos)
    requires Placed(lists, out, waiting, last, |lists|) && p in waiting
    ensures Placed(lists, out + {p}, waiting - {p}, p, 0)
  {
    assert PlacedAt(out, waiting, last, |lists|, p);
    forall q | InRange(lists, q) ensures PlacedAt(out + {p}, waiting - {p}, p, 0, q) {
      assert PlacedAt(out, waiting, last, |lists|, q);
      FirstNonzeroIs(q);
      TakeOneAt(lists, out, waiting, last, p, q);
    }
  }

  lemma TakeOneAt(lists: seq<Lazy>, out: set<Pos>, waiting: set<Pos>, last: Pos, p: Pos, q: Pos)
    requires |q| == |lists| && p in waiting && p !in out && PlacedAt(out, waiting, last, |lists|, q)
    ensures PlacedAt(out + {p}, waiting - {p}, p, 0, q)
  {
    FirstNonzeroIs(q);
    if !IsZero(q) { assert FirstNonzero(q) < |q|; }
  }

  /** One direction on, in the order in which successors are entered: it stops
      after the first nonzero one, and skips what is past the end of a list. */
  lemma RaiseOne(lists: seq<Lazy>, out: set<Pos>, waiting: set<Pos>, p: Pos, k: nat)
    requires Placed(lists, out, waiting, p, k) && k < |p| && k <= FirstNonzero(p) && p in out && InRange(lists, p)
    ensures InRange(lists, Up(p, k)) ==> Up(p, k) !in waiting && Up(p, k) !in out && Placed(lists, out, waiting + {Up(p, k)}, p, k + 1)
    ensures !InRange(lists, Up(p, k)) ==> Placed(lists, out, waiting, p, k + 1)
  {
    hide InRange, IsZero, Pred, FirstNonzero, PlacedAt;
    var c := Up(p, k);
    if InRange(lists, c) {
      assert PlacedAt(out, waiting, p, k, c);
      ChildIsNew(out, waiting, p, k);
      forall q | InRange(lists, q) ensures PlacedAt(out, waiting + {c}, p, k + 1, q) {
        assert PlacedAt(out, waiting, p, k, q);
        SameLength(lists, p, q);
        RaiseOneAt(out, waiting, p, k, q, c);
      }
    } else {
      forall q | InRange(lists, q) ensures PlacedAt(out, waiting, p, k + 1, q) {
        assert PlacedAt(out, waiting, p, k, q);
        SameLength(lists, p, q);
        RaiseNoneAt(out, waiting, p, k, q);
      }
    }
  }

  lemma ChildIsNew(out: set<Pos>, waiting: set<Pos>, p: Pos, k: nat)
    requires k < |p| && k <= FirstNonzero(p) && PlacedAt(out, waiting, p, k, Up(p, k))
    ensures Up(p, k) !in out && Up(p, k) !in waiting
  {
    hide FirstNonzero;
    ChildDirection(p, k);
  }

  lemma SameLength(lists: seq<Lazy>, p: Pos, q: Pos)
    requires InRange(lists, p) && InRange(lists, q)
    ensures |p| == |q|
  {
  }

  lemma RaiseNoneAt(out: set<Pos>, waiting: set<Pos>, p: Pos, k: nat, q: Pos)
    requires PlacedAt(out, waiting, p, k, q) && k < |p| == |q| && k <= FirstNonzero(p) && q != Up(p, k)
    ensures PlacedAt(out, waiting, p, k + 1, q)
  {
    ChildrenArePreceded(p, q);
  }

  lemma RaiseOneAt(out: set<Pos>, waiting: set<Pos>, p: Pos, k: nat, q: Pos, c: Pos)
    requires PlacedAt(out, waiting, p, k, q) && k < |p| == |q| && k <= FirstNonzero(p) && c == Up(p, k) && p in out
    requires c !in out
    ensures PlacedAt(out, waiting + {c}, p, k + 1, q)
  {
    ChildDirection(p, k);
    ChildrenArePreceded(p, q);
  }

  /** Past the first nonzero direction nothing is missing. */
  lemma RaiseEnds(lists: seq<Lazy>, out: set<Pos>, waiting: set<Pos>, p: Pos, k: nat)
    requires Placed(lists, out, waiting, p, k) && |p| == |lists| && k <= |p| && (k < |p| ==> k > FirstNonzero(p))
    ensures Placed(lists, out, waiting, p, |lists|)
  {
    forall q | InRange(lists, q) ensures PlacedAt(out, waiting, p, |lists|, q) {
      assert PlacedAt(out, waiting, p, k, q);
      ChildrenArePreceded(p, q);
      FirstNonzeroIs(q);
    }
  }

  // ----- smallest first

  /** Some position that waits costs no more than one not yet out. */
  lemma {:induction false} Ancestor(lists: seq<Lazy>, product: seq<real> -> real, out: set<Pos>, waiting: set<Pos>, last: Pos, q: Pos)
    returns (w: Pos)
    requires SortedLists(lists) && Monotone(lists, product) && Placed(lists, out, waiting, last, |lists|)
    requires InRange(lists, q) && q !in out
    ensures w in waiting && Cost(lists, product, w) <= Cost(lists, product, q)
    decreases Sum(q)
  {
    assert PlacedAt(out, waiting, last, |lists|, q);
    if q in waiting {
      w := q;
    } else {
      PredIsSmaller(q);
      PredIsInRange(lists, q);
      PredIsCheaper(lists, product, q);
      FirstNonzeroIs(q);
      assert Pred(q) !in out by { if !IsZero(q) { assert FirstNonzero(q) < |q|; } }
      w := Ancestor(lists, product, out, waiting, last, Pred(q));
    }
  }

  datatype Entry = Entry(prod: real, pos: Pos)

  /** The heap holds the waiting positions with their products, each once. */
  ghost predicate Holds(items: multiset<Entry>, waiting: set<Pos>, lists: seq<Lazy>, product: seq<real> -> real) {
    forall e :: items[e] == if e.pos in waiting && e.prod == Cost(lists, product, e.pos) then 1 else 0
  }

  function CompareFirst(a: Entry, b: Entry): int {
    if a.prod < b.prod then -1 else if a.prod == b.prod then 0 else 1
  }

  lemma CompareFirstOrders()
    ensures Orders(CompareFirst)
  {
  }

  function SetOf(s: seq<Pos>): set<Pos> {
    set q | q in s
  }

  class ProductHeap {
    const lists: seq<Lazy>
    const product: seq<real> -> real
    const heap: Heap<Entry>
    ghost var out: seq<Pos>
    ghost var waiting: set<Pos>
    ghost var last: Pos

    ghost predicate Valid()
      reads this, heap
    {
      && heap.Valid() && heap.compare == CompareFirst
      && SortedLists(lists) && Monotone(lists, product)
      && Holds(multiset(heap.items), waiting, lists, product)
      && Placed(lists, SetOf(out), waiting, last, |lists|)
      && (forall q, w :: q in out && w in waiting ==> Cost(lists, product, q) <= Cost(lists, product, w))
    }

    constructor (lists: seq<Lazy>, product: seq<real> -> real)
      requires SortedLists(lists) && Monotone(lists, product)
      ensures Valid() && out == [] && fresh(heap) && this.lists == lists && this.product == product
    {
      this.lists, this.product := lists, product;
      CompareFirstOrders();
      this.heap := new Heap(CompareFirst);
      out, waiting, last := [], {}, [];
      new;
      var pos := seq(|lists|, _ => 0);
      if InRange(lists, pos) {
        this.heap.Push(Entry(product(Values(lists, pos)), pos));
        waiting := {pos};
      }
      StartsRight(lists, pos, last);
    }

    /** The next product, with its position; nothing once all are out. */
    method Next() returns (v: Option<real>, ghost p: Pos)
      requires Valid()
      modifies this, heap
      ensures Valid()
      ensures v.None? ==> out == old(out) && forall q :: InRange(lists, q) ==> q in out
      ensures v.None? ==> forall q :: Inside(lists, q) ==> q in out
      ensures v.Some? ==> Inside(lists, p)
      ensures v.Some? ==>
                && out == old(out) + [p] && p !in old(out) && InRange(lists, p) && v.value == Cost(lists, product, p)
                && (forall q :: q in old(out) ==> Cost(lists, product, q) <= v.value)
                && (forall q :: InRange(lists, q) && q !in old(out) ==> v.value <= Cost(lists, product, q))
    {
      p := [];
      if |heap.items| == 0 {
        v := None;
        forall q | InRange(lists, q) ensures q in out {
          NothingWaits(lists, product, heap.items, waiting);
          if q !in out { var w := Ancestor(lists, product, SetOf(out), waiting, last, q); }
        }
        return;
      }
      hide Placed, SortedLists, Monotone;
      ghost var before := heap.items;
      var top := heap.Pop();
      p := top.pos;
      TopIsLeast(lists, product, before, waiting, top);
      forall q | InRange(lists, q) && q !in out ensures top.prod <= Cost(lists, product, q) {
        var w := Ancestor(lists, product, SetOf(out), waiting, last, q);
      }
      TakeOne(lists, SetOf(out), waiting, last, p);
      PlacedInRange(lists, SetOf(out), waiting, last, |lists|, p);
      assert SetOf(out + [p]) == SetOf(out) + {p};
      out, waiting, last := out + [p], waiting - {p}, p;
      PushNext(top);
      v := Some(top.prod);
    }

    /** Pushes the positions that the one just taken precedes. */
    method PushNext(top: Entry)
      requires heap.Valid() && heap.compare == CompareFirst && SortedLists(lists) && Monotone(lists, product)
      requires Holds(multiset(heap.items), waiting, lists, product) && top == Entry(Cost(lists, product, last), last)
      requires last in out && InRange(lists, last) && Placed(lists, SetOf(out), waiting, last, 0)
      requires forall q, w :: q in out && w in waiting ==> Cost(lists, product, q) <= Cost(lists, product, w)
      requires forall q :: q in out ==> Cost(lists, product, q) <= top.prod
      modifies this`waiting, heap
      ensures Valid()
    {
      hide Placed, SortedLists, Monotone, Holds, FirstNonzero, InRange, Cost;
      InRangeLength(lists, top.pos);
      var pos := top.pos;
      var d := 0;
      var stopped := false;
      while d < |pos| && !stopped
        invariant d <= |pos| && (stopped <==> d > 0 && pos[d - 1] != 0) && (forall c :: 0 <= c < d - 1 ==> pos[c] == 0)
        invariant heap.Valid() && heap.compare == CompareFirst
        invariant Holds(multiset(heap.items), waiting, lists, product)
        invariant Placed(lists, SetOf(out), waiting, last, d)
        invariant forall q, w :: q in out && w in waiting ==> Cost(lists, product, q) <= Cost(lists, product, w)
      {
        NotPastNonzero(pos, d);
        InRangeLength(lists, Up(pos, d));
        RaiseOne(lists, SetOf(out), waiting, pos, d);
        var p := Up(pos, d);
        if InRange(lists, p) {
          RaisedCosts(lists, product, pos, d);
          HoldsPush(lists, product, multiset(heap.items), waiting, p);
          CostIs(lists, product, p);
          heap.Push(Entry(product(Values(lists, p)), p));
          waiting := waiting + {p};
        }
        stopped := pos[d] != 0;
        d := d + 1;
      }
      PastNonzero(pos, d, stopped);
      RaiseEnds(lists, SetOf(out), waiting, pos, d);
    }
  }

  lemma InRangeLength(lists: seq<Lazy>, p: Pos)
    ensures InRange(lists, p) ==> |p| == |lists|
  {
  }

  lemma CostIs(lists: seq<Lazy>, product: seq<real> -> real, p: Pos)
    requires |p| == |lists|
    ensures Cost(lists, product, p) == product(Values(lists, p))
  {
  }

  lemma NothingWaits(lists: seq<Lazy>, product: seq<real> -> real, items: seq<Entry>, waiting: set<Pos>)
    requires Holds(multiset(items), waiting, lists, product) && items == []
    ensures waiting == {}
  {
    forall w ensures w !in waiting {
      assert multiset(items)[Entry(Cost(lists, product, w), w)] == 0;
    }
  }

  lemma HoldsPush(lists: seq<Lazy>, product: seq<real> -> real, items: multiset<Entry>, waiting: set<Pos>, p: Pos)
    requires Holds(items, waiting, lists, product) && p !in waiting
    ensures Holds(items + multiset{Entry(Cost(lists, product, p), p)}, waiting + {p}, lists, product)
  {
  }

  lemma NotPastNonzero(pos: Pos, d: nat)
    requires d <= |pos| && forall c :: 0 <= c < d ==> pos[c] == 0
    ensures d <= FirstNonzero(pos)
  {
    FirstNonzeroIs(pos);
  }

  lemma PastNonzero(pos: Pos, d: nat, stopped: bool)
    requires d <= |pos| && (stopped ==> d > 0 && pos[d - 1] != 0) && (!stopped ==> d == |pos|)
    ensures d < |pos| ==> d > FirstNonzero(pos)
  {
    FirstNonzeroIs(pos);
  }

  lemma RaisedCosts(lists: seq<Lazy>, product: seq<real> -> real, p: Pos, d: nat)
    requires SortedLists(lists) && Monotone(lists, product) && InRange(lists, p)
    requires d < |p| && d <= FirstNonzero(p) && InRange(lists, Up(p, d))
    ensures Cost(lists, product, p) <= Cost(lists, product, Up(p, d))
  {
    ChildDirection(p, d);
    PredIsCheaper(lists, product, Up(p, d));
  }

  lemma PlacedInRange(lists: seq<Lazy>, out: set<Pos>, waiting: set<Pos>, last: Pos, k: nat, p: Pos)
    requires Placed(lists, out, waiting, last, k) && p in waiting
    ensures InRange(lists, p) && p !in out
  {
    assert PlacedAt(out, waiting, last, k, p);
  }

  /** What the heap gives is a cheapest of the waiting positions. */
  lemma TopIsLeast(lists: seq<Lazy>, product: seq<real> -> real, items: seq<Entry>, waiting: set<Pos>, top: Entry)
    requires Holds(multiset(items), waiting, lists, product) && top in multiset(items)
    requires forall x :: x in items ==> CompareFirst(top, x) <= 0
    ensures top.pos in waiting && top.prod == Cost(lists, product, top.pos)
    ensures forall w :: w in waiting ==> top.prod <= Cost(lists, product, w)
    ensures Holds(multiset(items) - multiset{top}, waiting - {top.pos}, lists, product)
  {
    assert multiset(items)[top] == 1;
    forall w | w in waiting ensures top.prod <= Cost(lists, product, w) {
      assert multiset(items)[Entry(Cost(lists, product, w), w)] == 1;
      assert Entry(Cost(lists, product, w), w) in items;
    }
  }

  lemma StartsRight(lists: seq<Lazy>, zero: Pos, last: Pos)
    requires |zero| == |lists| && IsZero(zero)
    ensures Placed(lists, SetOf([]), if InRange(lists, zero) then {zero} else {}, last, |lists|)
  {
    forall q | InRange(lists, q) ensures PlacedAt({}, if InRange(lists, zero) then {zero} else {}, last, |lists|, q) {
      if IsZero(q) { assert q == zero; }
    }
  }
}
