/** A master that hands numbered inputs to workers and puts their answers out
    in order, whatever order the answers come in. */
module ParallelMap {
  import opened Wrappers

  type Line = int

  /** What the master sends a worker. */
  datatype Message = Work(i: int, line: Line) | Die

  /** Every input number comes once. */
  predicate IsOrder(order: seq<int>, n: nat) {
    |order| == n && NoRepeat(order) && forall k :: 0 <= k < n ==> 0 <= order[k] < n
  }

  lemma InInput(order: seq<int>, n: nat, k: int)
    requires IsOrder(order, n) && 0 <= k < n
    ensures k < |order| && 0 <= order[k] < n
  {
  }

  /** Some worker is working on the input. */
  ghost predicate Working(busy: map<int, int>, i: int) {
    exists w :: w in busy && busy[w] == i
  }

  /** The numbers handed out so far are exactly those put out, those kept and
      those being worked on, each in one place. */
  ghost predicate Sorted(order: seq<int>, next: nat, flushed: nat, kept: set<int>, busy: map<int, int>) {
    && next <= |order|
    && (forall i: int :: i in order[..next] <==> 0 <= i < flushed || i in kept || Working(busy, i))
    && (forall i :: i in kept ==> flushed <= i && !Working(busy, i))
    && (forall w :: w in busy ==> flushed <= busy[w])
    && (forall v, w :: v in busy && w in busy && v != w ==> busy[v] != busy[w])
  }

  lemma HandOut(order: seq<int>, next: nat, flushed: nat, kept: set<int>, busy: map<int, int>, w: int)
    requires IsOrder(order, |order|) && Sorted(order, next, flushed, kept, busy) && next < |order| && w !in busy
    ensures Sorted(order, next + 1, flushed, kept, busy[w := order[next]])
  {
    var busy' := busy[w := order[next]];
    var i := order[next];
    assert i !in order[..next];
    assert order[..next + 1] == order[..next] + [i];
    forall k: int ensures Working(busy', k) <==> Working(busy, k) || k == i {
      if Working(busy, k) { var v :| v in busy && busy[v] == k; assert busy'[v] == k; }
      if k == i { assert busy'[w] == i; }
    }
  }

  lemma TakeBack(order: seq<int>, next: nat, flushed: nat, kept: set<int>, busy: map<int, int>, w: int)
    requires Sorted(order, next, flushed, kept, busy) && w in busy
    ensures Sorted(order, next, flushed, kept + {busy[w]}, busy - {w})
  {
    var i, busy' := busy[w], busy - {w};
    forall k: int ensures Working(busy', k) <==> Working(busy, k) && k != i {
      if Working(busy, k) && k != i { var v :| v in busy && busy[v] == k; assert busy'[v] == k; }
    }
  }

  lemma PutOut(order: seq<int>, next: nat, flushed: nat, kept: set<int>, busy: map<int, int>)
    requires Sorted(order, next, flushed, kept, busy) && flushed in kept
    ensures Sorted(order, next, flushed + 1, kept - {flushed}, busy)
  {
    assert !Working(busy, flushed);
  }

  // ----- messages

  /** A message with the worker it was sent to. */
  datatype Sent = Sent(w: int, msg: Message)

  /** A message for an input or for a worker's death. */
  datatype Key = ForInput(i: int) | ForWorker(w: int)

  function KeyOf(e: Sent): Key {
    match e.msg
    case Work(i, _) => ForInput(i)
    case Die => ForWorker(e.w)
  }

  predicate HasKey(log: seq<Sent>, key: Key) {
    exists a :: 0 <= a < |log| && KeyOf(log[a]) == key
  }

  /** What is in the log is right: work as handed out, and deaths. */
  predicate EntryOk(e: Sent, input: seq<Line>, order: seq<int>, next: nat, dead: set<int>)
    requires next <= |order|
  {
    match e.msg
    case Work(i, line) => i in order[..next] && 0 <= i < |input| && line == input[i]
    case Die => e.w in dead
  }

  /** The first `next` inputs and the dead workers' deaths were each sent once,
      and nothing else was. */
  predicate LogOk(log: seq<Sent>, input: seq<Line>, order: seq<int>, next: nat, dead: set<int>) {
    && next <= |order|
    && (forall a :: 0 <= a < |log| ==> EntryOk(log[a], input, order, next, dead))
    && (forall a, b :: 0 <= a < b < |log| ==> KeyOf(log[a]) != KeyOf(log[b]))
    && (forall k :: 0 <= k < next ==> HasKey(log, ForInput(order[k])))
    && (forall w :: w in dead ==> HasKey(log, ForWorker(w)))
  }

  lemma HasMore(log: seq<Sent>, e: Sent, key: Key)
    ensures HasKey(log + [e], key) <==> HasKey(log, key) || key == KeyOf(e)
  {
    var log' := log + [e];
    if HasKey(log, key) {
      var a :| 0 <= a < |log| && KeyOf(log[a]) == key;
      assert KeyOf(log'[a]) == key;
    }
    assert log'[|log|] == e;
  }

  lemma SendWork(log: seq<Sent>, input: seq<Line>, order: seq<int>, next: nat, dead: set<int>, w: int)
    requires IsOrder(order, |input|) && next < |order| && LogOk(log, input, order, next, dead)
    ensures 0 <= order[next] < |input|
    ensures LogOk(log + [Sent(w, Work(order[next], input[order[next]]))], input, order, next + 1, dead)
  {
    var e := Sent(w, Work(order[next], input[order[next]]));
    assert order[next] !in order[..next];
    assert order[..next + 1] == order[..next] + [order[next]];
    forall a | 0 <= a < |log| ensures EntryOk(log[a], input, order, next + 1, dead) && KeyOf(log[a]) != KeyOf(e) {
      assert EntryOk(log[a], input, order, next, dead);
    }
    forall key ensures HasKey(log + [e], key) <==> HasKey(log, key) || key == KeyOf(e) { HasMore(log, e, key); }
    hide HasKey;
  }

  lemma SendDie(log: seq<Sent>, input: seq<Line>, order: seq<int>, next: nat, dead: set<int>, w: int)
    requires LogOk(log, input, order, next, dead) && w !in dead
    ensures LogOk(log + [Sent(w, Die)], input, order, next, dead + {w})
  {
    var e := Sent(w, Die);
    forall a | 0 <= a < |log| ensures EntryOk(log[a], input, order, next, dead + {w}) && KeyOf(log[a]) != KeyOf(e) {
      assert EntryOk(log[a], input, order, next, dead);
    }
    forall key ensures HasKey(log + [e], key) <==> HasKey(log, key) || key == KeyOf(e) { HasMore(log, e, key); }
    hide HasKey;
  }

  // ----- the master

  /** Workers are waiting, working or dead, each one of these. */
  predicate Workers(slaves: set<int>, idle: set<int>, busy: map<int, int>, dead: set<int>) {
    slaves == idle + busy.Keys + dead && idle !! busy.Keys && idle !! dead && busy.Keys !! dead
  }

  lemma ToWork(slaves: set<int>, idle: set<int>, busy: map<int, int>, dead: set<int>, w: int, i: int)
    requires Workers(slaves, idle, busy, dead) && w in idle
    ensures w !in busy && Workers(slaves, idle - {w}, busy[w := i], dead)
    ensures |idle - {w}| == |idle| - 1 && |busy[w := i]| == |busy| + 1
  {
    assert busy[w := i].Keys == busy.Keys + {w};
  }

  lemma ToDeath(slaves: set<int>, idle: set<int>, busy: map<int, int>, dead: set<int>, w: int)
    requires Workers(slaves, idle, busy, dead) && w in idle
    ensures w !in dead && Workers(slaves, idle - {w}, busy, dead + {w}) && |idle - {w}| == |idle| - 1
  {
  }

  lemma ToRest(slaves: set<int>, idle: set<int>, busy: map<int, int>, dead: set<int>, w: int)
    requires Workers(slaves, idle, busy, dead) && w in busy && idle == {}
    ensures Workers(slaves, {w}, busy - {w}, dead) && |busy - {w}| == |busy| - 1
  {
    assert (busy - {w}).Keys == busy.Keys - {w};
  }

  lemma Remembered(output: map<int, Line>, i: int, r: Line)
    ensures output[i := r].Keys == output.Keys + {i}
    ensures i in output ==> (output - {i}).Keys == output.Keys - {i} && |output - {i}| < |output|
  {
    assert output[i := r].Keys == output.Keys + {i};
    if i in output {
      assert (output - {i}).Keys == output.Keys - {i};
    }
  }

  lemma RightMore(f: Line -> Line, input: seq<Line>, out: seq<Line>, output: map<int, Line>, i: int)
    requires Right(f, input, out, output) && 0 <= i < |input|
    ensures Right(f, input, out, output[i := f(input[i])])
  {
  }

  lemma RightOut(f: Line -> Line, input: seq<Line>, out: seq<Line>, output: map<int, Line>)
    requires Right(f, input, out, output) && |out| in output
    ensures Right(f, input, out + [output[|out|]], output - {|out|})
  {
  }

  /** The answers of all inputs, in the inputs' order. */
  function Answers(f: Line -> Line, input: seq<Line>): (r: seq<Line>)
    ensures |r| == |input| && forall i :: 0 <= i < |input| ==> r[i] == f(input[i])
  {
    seq(|input|, i requires 0 <= i < |input| => f(input[i]))
  }

  /** The answers kept and put out are right so far. */
  predicate Right(f: Line -> Line, input: seq<Line>, out: seq<Line>, output: map<int, Line>) {
    && |out| <= |input| && (forall i :: 0 <= i < |out| ==> out[i] == f(input[i]))
    && (forall i :: i in output ==> 0 <= i < |input| && output[i] == f(input[i]))
  }

  /** The master's variables between messages. */
  datatype State = State(next: nat, idle: set<int>, busy: map<int, int>, output: map<int, Line>, out: seq<Line>, dead: set<int>)

  ghost predicate Ok(f: Line -> Line, input: seq<Line>, order: seq<int>, slaves: set<int>, m: State) {
    && IsOrder(order, |input|) && m.next <= |order| == |input|
    && Workers(slaves, m.idle, m.busy, m.dead) && (m.dead != {} ==> m.next == |input|)
    && Sorted(order, m.next, |m.out|, m.output.Keys, m.busy)
    && Right(f, input, m.out, m.output)
  }

  /** The state after worker w has been given the next input. */
  function AfterWork(order: seq<int>, m: State, w: int): State
    requires m.next < |order|
  {
    m.(next := m.next + 1, idle := m.idle - {w}, busy := m.busy[w := order[m.next]])
  }

  lemma HandOutNow(order: seq<int>, m: State, w: int)
    requires IsOrder(order, |order|) && Sorted(order, m.next, |m.out|, m.output.Keys, m.busy)
    requires m.next < |order| && w !in m.busy
    ensures var m' := AfterWork(order, m, w); Sorted(order, m'.next, |m'.out|, m'.output.Keys, m'.busy)
  {
    hide Sorted, IsOrder;
    HandOut(order, m.next, |m.out|, m.output.Keys, m.busy, w);
  }

  lemma ToWorkNow(order: seq<int>, slaves: set<int>, m: State, w: int)
    requires Workers(slaves, m.idle, m.busy, m.dead) && w in m.idle && m.next < |order|
    ensures var m' := AfterWork(order, m, w);
            w !in m.busy && Workers(slaves, m'.idle, m'.busy, m'.dead)
  {
    hide Workers;
    ToWork(slaves, m.idle, m.busy, m.dead, w, order[m.next]);
  }

  lemma SendWorkOk(f: Line -> Line, input: seq<Line>, order: seq<int>, slaves: set<int>, m: State, w: int)
    requires Ok(f, input, order, slaves, m) && w in m.idle && m.next < |input|
    ensures 0 <= order[m.next] < |input| && Ok(f, input, order, slaves, AfterWork(order, m, w))
  {
    hide Sorted, IsOrder, Right, Workers;
    InInput(order, |input|, m.next);
    ToWorkNow(order, slaves, m, w);
    HandOutNow(order, m, w);
  }

  lemma SendWorkLess(f: Line -> Line, input: seq<Line>, order: seq<int>, slaves: set<int>, m: State, w: int)
    requires Ok(f, input, order, slaves, m) && w in m.idle && m.next < |input|
    ensures var m' := AfterWork(order, m, w);
            |m'.idle| == |m.idle| - 1 && |m'.busy| == |m.busy| + 1
  {
    hide Sorted, IsOrder, Right, Workers;
    ToWork(slaves, m.idle, m.busy, m.dead, w, order[m.next]);
  }

  lemma SendDieOk(f: Line -> Line, input: seq<Line>, order: seq<int>, slaves: set<int>, m: State, w: int)
    requires Ok(f, input, order, slaves, m) && w in m.idle && m.next == |input|
    ensures var m' := m.(idle := m.idle - {w}, dead := m.dead + {w});
            Ok(f, input, order, slaves, m') && |m'.idle| == |m.idle| - 1 && w !in m.dead
  {
    hide Sorted, IsOrder, Right, Workers;
    ToDeath(slaves, m.idle, m.busy, m.dead, w);
  }

  lemma ReceiveOk(f: Line -> Line, input: seq<Line>, order: seq<int>, slaves: set<int>, m: State, w: int)
    requires Ok(f, input, order, slaves, m) && w in m.busy && m.idle == {}
    ensures 0 <= m.busy[w] < |input|
    ensures var i := m.busy[w];
            var m' := m.(idle := {w}, busy := m.busy - {w}, output := m.output[i := f(input[i])]);
            Ok(f, input, order, slaves, m') && |m'.busy| == |m.busy| - 1
  {
    hide Sorted, IsOrder, Right, Workers;
    var i := m.busy[w];
    InOrder(order, m.next, |m.out|, m.output.Keys, m.busy, w, |input|);
    TakeBack(order, m.next, |m.out|, m.output.Keys, m.busy, w);
    ToRest(slaves, m.idle, m.busy, m.dead, w);
    Remembered(m.output, i, f(input[i]));
    RightMore(f, input, m.out, m.output, i);
  }

  lemma FlushOk(f: Line -> Line, input: seq<Line>, order: seq<int>, slaves: set<int>, m: State)
    requires Ok(f, input, order, slaves, m) && |m.out| in m.output
    ensures var m' := m.(output := m.output - {|m.out|}, out := m.out + [m.output[|m.out|]]);
            Ok(f, input, order, slaves, m') && |m'.output| < |m.output|
  {
    hide Sorted, IsOrder, Right, Workers;
    PutOut(order, m.next, |m.out|, m.output.Keys, m.busy);
    RightOut(f, input, m.out, m.output);
    Remembered(m.output, |m.out|, m.output[|m.out|]);
  }

  lemma StartOk(f: Line -> Line, input: seq<Line>, order: seq<int>, slaves: set<int>)
    requires IsOrder(order, |input|)
    ensures Ok(f, input, order, slaves, State(0, slaves, map[], map[], [], {}))
  {
    NothingSorted(order, map[]);
    var outputs: map<int, Line> := map[];
    assert outputs.Keys == {};
    hide Sorted;
  }

  lemma NothingSorted(order: seq<int>, busy: map<int, int>)
    requires busy == map[]
    ensures Sorted(order, 0, 0, {}, busy)
  {
    assert order[..0] == [];
  }

  lemma SomeMember(s: set<int>)
    requires |s| > 0
    ensures exists w :: w in s
  {
    assert (forall w :: w !in s) ==> s == {};
  }

  lemma SomeWorks(busy: map<int, int>)
    requires |busy| > 0
    ensures exists w :: w in busy.Keys
  {
    assert |busy| == |busy.Keys|;
    SomeMember(busy.Keys);
  }

  /** The master between messages. What a worker answers is `f` of its input. */
  class Master {
    const f: Line -> Line
    const input: seq<Line>
    /** The inputs' numbers in the order they are handed out. */
    const order: seq<int>
    ghost const slaves: set<int>
    ghost var dead: set<int>
    var next: nat
    var idle: set<int>
    var busy: map<int, int>
    var output: map<int, Line>
    var out: seq<Line>
    var log: seq<Sent>

    ghost function Now(): State
      reads this
    {
      State(next, idle, busy, output, out, dead)
    }

    ghost predicate Valid()
      reads this
    {
      Ok(f, input, order, slaves, Now()) && LogOk(log, input, order, next, dead)
    }

    constructor (f: Line -> Line, input: seq<Line>, order: seq<int>, slaves: set<int>)
      requires IsOrder(order, |input|)
      ensures Valid() && out == [] && idle == slaves && |out| !in output
      ensures this.f == f && this.input == input && this.order == order && this.slaves == slaves
    {
      StartOk(f, input, order, slaves);
      hide Ok;
      this.f, this.input, this.order, this.slaves := f, input, order, slaves;
      dead, next, idle, busy, output, out, log := {}, 0, slaves, map[], map[], [], [];
    }

    ghost function Left(): int
      reads this
    {
      3 * (|input| - next) + |idle| + 2 * |busy|
    }

    /** Gives one waiting worker the next input, or lets it die. */
    method SendTo(node: int)
      requires Valid() && node in idle
      modifies this`idle, this`next, this`busy, this`log, this`dead
      ensures Valid() && |idle| < |old(idle)| && Left() < old(Left())
    {
      hide Ok, LogOk, IsOrder;
      NextInOrder();
      if next < |input| { GiveWork(node); } else { LetDie(node); }
    }

    method GiveWork(node: int)
      requires Valid() && node in idle && next < |input|
      modifies this`idle, this`next, this`busy, this`log
      ensures Valid() && |idle| < |old(idle)| && Left() < old(Left())
    {
      hide Ok, LogOk, IsOrder;
      NextInOrder();
      var i := order[next];
      SendWorkOk(f, input, order, slaves, Now(), node);
      SendWorkLess(f, input, order, slaves, Now(), node);
      SendWork(log, input, order, next, dead, node);
      log := log + [Sent(node, Work(i, input[i]))];
      busy := busy[node := i];
      next := next + 1;
      idle := idle - {node};
    }

    method LetDie(node: int)
      requires Valid() && node in idle && next == |input|
      modifies this`idle, this`log, this`dead
      ensures Valid() && |idle| < |old(idle)| && Left() < old(Left())
    {
      hide Ok, LogOk, IsOrder;
      SendDieOk(f, input, order, slaves, Now(), node);
      SendDie(log, input, order, next, dead, node);
      log := log + [Sent(node, Die)];
      dead := dead + {node};
      idle := idle - {node};
    }

    lemma NextInOrder()
      requires Valid()
      ensures next <= |order| == |input| && IsOrder(order, |input|)
    {
    }

    /** Takes the answer of one working worker. */
    method Receive(node: int)
      requires Valid() && node in busy && idle == {} && |out| !in output
      modifies this`busy, this`output, this`idle
      ensures Valid() && Left() < old(Left()) && out == old(out)
    {
      hide Ok, LogOk;
      ReceiveOk(f, input, order, slaves, Now(), node);
      var i := busy[node];
      busy := busy - {node};
      output := output[i := f(input[i])];
      idle := idle + {node};
    }

    /** Puts out the answers that come next. */
    method Flush()
      requires Valid()
      modifies this`out, this`output
      ensures Valid() && |out| !in output && old(out) <= out
    {
      hide Ok, LogOk;
      while |out| in output
        invariant Valid() && old(out) <= out
        decreases |output|
      {
        FlushOk(f, input, order, slaves, Now());
        var line := output[|out|];
        output := output - {|out|};
        out := out + [line];
      }
    }

    /** Whatever order the answers come in, all inputs' answers are put out in
        order, every input is sent once, and every worker dies once; unless
        there are no workers, and then nothing happens. */
    method Run()
      requires Valid() && out == [] && |out| !in output
      modifies this
      ensures Valid()
      ensures slaves != {} ==> out == Answers(f, input) && dead == slaves && next == |input|
      ensures slaves == {} ==> out == []
    {
      hide LogOk, IsOrder, Sorted, Right, Workers;
      while |idle| + |busy| > 0
        invariant Valid() && |out| !in output && (slaves == {} ==> out == [])
        decreases Left()
      {
        if slaves == {} { NoWorkers(); }
        ghost var before := Left();
        SendAll();
        if |busy| > 0 {
          SomeWorks(busy);
          var node :| node in busy.Keys;
          Receive(node);
          Flush();
        }
      }
      if slaves != {} { Ends(); }
    }

    lemma NoWorkers()
      requires Valid() && slaves == {}
      ensures |idle| + |busy| == 0
    {
      hide LogOk, IsOrder, Sorted, Right;
      assert idle == {} && busy.Keys == {};
      assert |busy| == |busy.Keys|;
    }

    /** Gives all waiting workers something to do, or lets them die. */
    method SendAll()
      requires Valid() && |out| !in output
      modifies this`idle, this`next, this`busy, this`log, this`dead
      ensures Valid() && idle == {} && (Left() < old(Left()) || (old(idle) == {} && Left() == old(Left()) && busy == old(busy)))
    {
      hide LogOk, IsOrder, Sorted, Right, Workers;
      while |idle| > 0
        invariant Valid()
        invariant Left() < old(Left()) || (idle == old(idle) && Left() == old(Left()) && busy == old(busy))
        decreases |idle|
      {
        SomeMember(idle);
        var node :| node in idle;
        SendTo(node);
      }
    }

    /** When no one is waiting or working, all has been put out. */
    lemma Ends()
      requires Valid() && |idle| + |busy| == 0 && slaves != {} && |out| !in output
      ensures out == Answers(f, input) && dead == slaves && next == |input|
    {
      assert idle == {} && busy.Keys == {};
      AllOut(order, |out|, output.Keys, busy, |input|);
    }
  }

  lemma InOrder(order: seq<int>, next: nat, flushed: nat, kept: set<int>, busy: map<int, int>, w: int, n: nat)
    requires IsOrder(order, n) && Sorted(order, next, flushed, kept, busy) && w in busy
    ensures 0 <= busy[w] < n && busy[w] !in kept
  {
    assert Working(busy, busy[w]);
    assert busy[w] in order[..next];
  }

  /** When no one is left working, all inputs have been put out. */
  lemma AllOut(order: seq<int>, flushed: nat, kept: set<int>, busy: map<int, int>, n: nat)
    requires IsOrder(order, n) && Sorted(order, n, flushed, kept, busy) && busy.Keys == {} && flushed !in kept && flushed <= n
    ensures flushed == n
  {
    assert order[..n] == order;
    assert !Working(busy, flushed) by { assert forall w :: w in busy ==> w in busy.Keys; }
    if flushed < n { EveryNumberComes(order, n, flushed); }
  }

  function Numbers(n: nat): set<int> {
    if n == 0 then {} else Numbers(n - 1) + {n - 1}
  }

  lemma {:induction false} NumbersAre(n: nat)
    ensures |Numbers(n)| == n && forall k :: k in Numbers(n) <==> 0 <= k < n
  {
    if n > 0 { NumbersAre(n - 1); }
  }

  function SetOf(s: seq<int>): set<int> {
    set k | k in s
  }

  lemma {:induction false} SizeOfOrder(s: seq<int>)
    requires NoRepeat(s)
    ensures |SetOf(s)| == |s|
  {
    if s != [] {
      var t, x := s[..|s| - 1], s[|s| - 1];
      SizeOfOrder(t);
      assert x !in t;
      assert SetOf(s) == SetOf(t) + {x};
    }
  }

  /** n different numbers below n are all of them. */
  lemma EveryNumberComes(order: seq<int>, n: nat, i: int)
    requires IsOrder(order, n) && 0 <= i < n
    ensures i in order
  {
    SizeOfOrder(order);
    NumbersAre(n);
    assert SetOf(order) <= Numbers(n);
    var rest := Numbers(n) - SetOf(order);
    assert Numbers(n) == SetOf(order) + rest;
    assert |rest| == 0;
    assert i in Numbers(n) && i !in rest;
  }
}
