/** The server's linked queue. Each critical section changes the list in place
    and makes exactly one step of the queue model. */
module SentServer {

  import opened SentQueue

  datatype Status = RUNNING | ABORTED | FINISHED

  class Line {
    var s: string
    var status: Status
    var next: Line?

    constructor (s: string)
      ensures this.s == s && status == RUNNING && next == null
    {
      this.s, status, next := s, RUNNING, null;
    }
  }

  /** Where the next new line is linked in: at the head, after a line, or
      nowhere because the input has ended. */
  datatype Tail = AtHead | After(line: Line) | Null

  function StatusOf(spot: Spot): Status {
    match spot
    case Running(_) => RUNNING
    case Aborted => ABORTED
    case Finished => FINISHED
  }

  /** A client's pointer leads to its line, and that is still in the list. */
  ghost predicate Points(current: map<int, Line>, spine: seq<Line>, st: State, c: int) {
    && c in current && c in st.held
    && 0 <= st.held[c] - st.flushed < |spine| && current[c] == spine[st.held[c] - st.flushed]
  }

  ghost predicate Pointed(current: map<int, Line>, spine: seq<Line>, st: State) {
    && current.Keys == st.held.Keys
    && (forall c {:trigger Points(current, spine, st, c)} :: c in current ==> Points(current, spine, st, c))
  }

  lemma PointsMore(current: map<int, Line>, spine: seq<Line>, st: State, c: int, more: seq<Line>, st': State, k: nat)
    requires Pointed(current, spine, st) && k < |spine + more|
    requires st'.held == st.held[c := st.flushed + k] && st'.flushed == st.flushed
    ensures Pointed(current[c := (spine + more)[k]], spine + more, st')
  {
    var current', spine' := current[c := (spine + more)[k]], spine + more;
    forall d | d in current' ensures Points(current', spine', st', d) { assert d != c ==> Points(current, spine, st, d); }
    assert current'.Keys == current.Keys + {c} && st'.held.Keys == st.held.Keys + {c};
  }

  lemma PointsLess(current: map<int, Line>, spine: seq<Line>, st: State, c: int, st': State)
    requires Pointed(current, spine, st) && st'.held == st.held - {c} && st'.flushed == st.flushed
    ensures Pointed(current - {c}, spine, st')
  {
    var current' := current - {c};
    forall d | d in current' ensures Points(current', spine, st', d) { assert Points(current, spine, st, d); }
    assert current'.Keys == current.Keys - {c} && st'.held.Keys == st.held.Keys - {c};
  }

  /** No client has the first line when it is answered. */
  lemma PointsPast(current: map<int, Line>, spine: seq<Line>, input: seq<string>, st: State)
    requires Pointed(current, spine, st) && |spine| == |st.queue|
    requires Sound(input, st) && st.queue != [] && st.queue[0].spot.Finished?
    ensures Pointed(current, spine[1..], WriteOne(st))
  {
    forall c | c in current ensures Points(current, spine[1..], WriteOne(st), c) {
      assert Points(current, spine, st, c) && HeldOk(st, c);
    }
  }

  lemma PointsSame(current: map<int, Line>, spine: seq<Line>, st: State, st': State)
    requires Pointed(current, spine, st) && st'.held == st.held && st'.flushed == st.flushed
    ensures Pointed(current, spine, st')
  {
    forall c | c in current ensures Points(current, spine, st', c) { assert Points(current, spine, st, c); }
  }

  lemma PointsAll(current: map<int, Line>, spine: seq<Line>, st: State)
    requires Pointed(current, spine, st)
    ensures current.Keys == st.held.Keys
  {
  }

  lemma SentIs(input: seq<string>, st: State)
    requires Ok(input, st)
    ensures st.sent == st.flushed + |st.queue| && (st.eof ==> st.sent == |input|)
  {
  }

  lemma PointsIn(current: map<int, Line>, spine: seq<Line>, st: State, c: int)
    requires Pointed(current, spine, st) && c in current
    ensures Points(current, spine, st, c)
  {
  }

  lemma EndsEmpty(input: seq<string>, st: State)
    requires Sound(input, st)
    ensures st.exited ==> st.queue == []
  {
  }

  lemma AnswerIsSound(input: seq<string>, st: State, c: int, reply: string)
    requires Ok(input, st) && c in st.held && !st.exited
    ensures HeldOk(st, c) && Sound(input, Answer(st, c, reply)) && |Answer(st, c, reply).replies| == |st.replies| + 1
  {
    AnswerKeeps(input, st, c, reply);
    assert CellOk(input, st, st.held[c] - st.flushed);
    hide Ok, Sound;
    OneMore(st.replies, st.held[c], reply);
  }

  lemma OneMore(replies: map<int, string>, i: int, reply: string)
    requires i !in replies
    ensures |replies[i := reply]| == |replies| + 1
  {
    var more := replies[i := reply];
    assert more.Keys == replies.Keys + {i};
    assert |more| == |more.Keys| && |replies| == |replies.Keys|;
  }

  class Server {
    const input: seq<string>
    var head: Line?
    var tail: Tail
    var sent: nat
    var received: nat
    var flushed: nat
    var out: seq<string>
    var exited: bool
    /** The clients about to ask, and the lines that the others hold. */
    var waiting: set<int>
    var current: map<int, Line>
    /** The lines in the list, and the state that the list stands for. */
    ghost var spine: seq<Line>
    ghost var st: State

    /** Line k of the list is as the model says, and linked to the next. */
    ghost predicate Linked(queue: seq<Cell>, k: int)
      requires 0 <= k < |spine|
      reads this`spine, spine
    {
      && k < |queue| && spine[k].s == queue[k].text && spine[k].status == StatusOf(queue[k].spot)
      && spine[k].next == (if k + 1 < |spine| then spine[k + 1] else null)
    }

    ghost predicate Chained()
      reads this`st, this`spine, this`head, this`tail, spine
    {
      && |spine| == |st.queue|
      && (forall k {:trigger Linked(st.queue, k)} :: 0 <= k < |spine| ==> Linked(st.queue, k))
      && (forall j, k :: 0 <= j < k < |spine| ==> spine[j] != spine[k])
      && head == (if spine == [] then null else spine[0])
      && (st.eof ==> tail == Null)
      && (!st.eof ==> tail == (if spine == [] then AtHead else After(spine[|spine| - 1])))
    }

    ghost predicate Counted()
      reads this
    {
      && sent == st.sent && flushed == st.flushed && out == st.out && exited == st.exited && waiting == st.waiting
      && received == |st.replies|
    }

    ghost predicate Valid()
      reads this, spine
    {
      Ok(input, st) && Chained() && Counted() && Pointed(current, spine, st)
    }

    constructor (input: seq<string>)
      ensures Valid() && st == Start() && this.input == input && fresh(spine)
    {
      StartIsOk(input);
      this.input, head, tail, sent, received, flushed, out := input, null, AtHead, 0, 0, 0, [];
      exited, waiting, current, spine, st := false, {}, map[], [], Start();
    }

    /** The first line in the list that was given back. */
    method FindAborted() returns (cur: Line?, ghost k: nat)
      requires Chained()
      ensures k == FirstAborted(st.queue, 0)
      ensures |spine| == |st.queue| && cur == if k < |spine| then spine[k] else null
    {
      cur := head;
      k := 0;
      while cur != null && cur.status != ABORTED
        invariant k <= |spine| && cur == if k < |spine| then spine[k] else null
        invariant FirstAborted(st.queue, 0) == FirstAborted(st.queue, k)
        decreases |spine| - k
      {
        assert Linked(st.queue, k);
        cur := cur.next;
        k := k + 1;
      }
      if cur != null { assert Linked(st.queue, k); }
    }

    /** Gives the client a line that another gave back. */
    method TakeLine(c: int, cur: Line, ghost k: nat)
      requires Valid() && c !in current && k < |spine| && cur == spine[k] && st.queue[k].spot.Aborted?
      modifies this`st, this`current, this`waiting, cur`status
      ensures Chained() && Counted() && Pointed(current, spine, st) && st == Take(old(st), c, k) && c in current && current[c] == cur
    {
      hide Ok, Pointed, HeldOk;
      PointsMore(current, spine, st, c, [], Take(st, c, k), k);
      assert spine + [] == spine;
      assert Linked(st.queue, k);
      cur.status := RUNNING;
      current := current[c := cur];
      waiting := waiting - {c};
      st := Take(st, c, k);
      forall j | 0 <= j < |spine| ensures Linked(st.queue, j) { assert old(Linked(st.queue, j)); }
    }

    /** Links a line in at the end of the list. */
    method LinkIn(cur: Line, ghost st': State)
      requires Chained() && !st.eof && cur !in spine && |st'.queue| == |st.queue| + 1
      requires st'.queue[..|st.queue|] == st.queue && !st'.eof && cur.s == st'.queue[|st.queue|].text
      requires cur.status == StatusOf(st'.queue[|st.queue|].spot) && cur.next == null
      modifies this`st, this`spine, this`head, this`tail, if spine == [] then {} else {spine[|spine| - 1]}
      ensures Chained() && spine == old(spine) + [cur] && st == st'
    {
      if spine != [] { assert Linked(st.queue, |spine| - 1); }
      match tail {
        case AtHead => head := cur;
        case After(last) => last.next := cur;
        case Null => assert false;
      }
      tail := After(cur);
      spine := spine + [cur];
      st := st';
      forall j | 0 <= j < |spine| ensures Linked(st.queue, j) {
        if j < |old(spine)| { assert old(Linked(st.queue, j)) && st'.queue[j] == st'.queue[..|old(spine)|][j]; }
      }
    }

    /** Reads the next line of the input and gives it to the client. */
    method AddLine(c: int) returns (cur: Line)
      requires Valid() && c !in current && st.sent < |input|
      modifies this`st, this`spine, this`head, this`tail, this`sent, this`current, this`waiting
      modifies if spine == [] then {} else {spine[|spine| - 1]}
      ensures Chained() && Counted() && Pointed(current, spine, st)
      ensures st == Read(input, old(st), c) && c in current && current[c] == cur
      ensures fresh(cur) && spine == old(spine) + [cur]
    {
      hide Ok, Pointed, HeldOk, Chained;
      SentIs(input, st);
      SpineIs();
      cur := new Line(input[sent]);
      PointsMore(current, spine, st, c, [cur], Read(input, st, c), |spine|);
      LinkIn(cur, Read(input, st, c));
      sent := sent + 1;
      current := current[c := cur];
      waiting := waiting - {c};
    }

    lemma SpineIs()
      requires Chained()
      ensures |spine| == |st.queue|
    {
    }

    /** Gives the client the first line that was given back, or else the next
        line of the input; without either, sends it away. */
    method QueueGet(c: int) returns (cur: Line?)
      requires Valid() && !exited && c in waiting && c !in current
      modifies this, spine
      ensures Valid() && st == AfterGet(input, old(st), c)
      ensures (cur != null <==> c in current) && (cur != null ==> cur == current[c])
      ensures forall k :: 0 <= k < |spine| ==> spine[k] in old(spine) || fresh(spine[k])
    {
      hide Ok, Pointed, Chained, Take, Read, TurnAway;
      PointsAll(current, spine, st);
      GetKeeps(input, st, c);
      ghost var k;
      cur, k := FindAborted();
      if cur != null {
        TakeLine(c, cur, k);
      } else if sent < |input| {
        cur := AddLine(c);
      } else {
        SendAway(c);
      }
    }

    /** The input has ended. */
    method SendAway(c: int)
      requires Chained() && Counted() && Pointed(current, spine, st) && c !in current
      modifies this`st, this`exited, this`tail, this`waiting
      ensures Chained() && Counted() && Pointed(current, spine, st) && st == TurnAway(old(st), c)
    {
      hide Pointed;
      PointsSame(current, spine, st, TurnAway(st, c));
      if head == null { exited := true; } else { tail := Null; }
      waiting := waiting - {c};
      st := TurnAway(st, c);
      forall j | 0 <= j < |spine| ensures Linked(st.queue, j) { assert old(Linked(st.queue, j)); }
    }

    /** The client died: its line can be given to another. */
    method QueueAbort(c: int)
      requires Valid() && !exited && c in current
      modifies this, spine
      ensures Valid() && HeldOk(old(st), c) && st == AfterAbort(old(st), c) && spine == old(spine)
    {
      AbortKeeps(input, st, c);
      hide Ok, Pointed;
      PointsIn(current, spine, st, c);
      PointsLess(current, spine, st, c, AfterAbort(st, c));
      ghost var k := st.held[c] - st.flushed;
      var node := current[c];
      assert Linked(st.queue, k);
      node.status := ABORTED;
      current := current - {c};
      st := AfterAbort(st, c);
      forall j | 0 <= j < |spine| ensures Linked(st.queue, j) { assert old(Linked(st.queue, j)); }
    }

    /** Takes the first line off the list; ends when it was the last of all. */
    method PopHead()
      requires Chained() && head != null && (exited == st.exited)
      modifies this`st, this`spine, this`head, this`tail, this`exited
      ensures Chained() && old(st.queue) != [] && st == WriteOne(old(st)) && exited == st.exited
      ensures old(spine) != [] && spine == old(spine)[1..]
    {
      assert Linked(st.queue, 0);
      head := head.next;
      if head == null {
        if tail == Null { exited := true; } else { tail := AtHead; }
      }
      spine := spine[1..];
      st := WriteOne(st);
      forall j | 0 <= j < |spine| ensures Linked(st.queue, j) { assert old(Linked(st.queue, j + 1)); }
    }

    /** Writes the first line's reply and frees the line. */
    method WriteHead()
      requires Chained() && Counted() && Pointed(current, spine, st) && Sound(input, st)
      requires !exited && head != null && head.status == FINISHED
      modifies this`st, this`spine, this`head, this`tail, this`flushed, this`out, this`exited
      ensures Chained() && Counted() && Pointed(current, spine, st) && old(st.queue) != [] && st == WriteOne(old(st))
      ensures old(spine) != [] && spine == old(spine)[1..]
    {
      hide Sound, Pointed;
      SpineIs();
      HeadSpot();
      PointsPast(current, spine, input, st);
      assert Linked(st.queue, 0);
      out := out + [head.s];
      PopHead();
      flushed := flushed + 1;
    }

    lemma HeadSpot()
      requires Chained()
      ensures (head != null && head.status == FINISHED) <==> (st.queue != [] && st.queue[0].spot.Finished?)
    {
      if spine != [] { assert Linked(st.queue, 0); }
    }

    /** The client's line is answered; the lines answered at the front of the
        list are written out. */
    method QueueFinish(c: int, reply: string)
      requires Valid() && !exited && c in current
      modifies this, spine
      ensures Valid() && HeldOk(old(st), c) && st == AfterFinish(old(st), c, reply)
      ensures forall k :: 0 <= k < |spine| ==> spine[k] in old(spine)
    {
      hide Ok, Pointed, Sound, Chained, HeldOk, WriteOne;
      PointsIn(current, spine, st, c);
      FinishKeeps(input, st, c, reply);
      SetReply(c, reply);
      while !exited && head != null && head.status == FINISHED
        invariant Chained() && Counted() && Pointed(current, spine, st) && Sound(input, st)
        invariant Flushed(st) == AfterFinish(old(st), c, reply)
        invariant forall k :: 0 <= k < |spine| ==> spine[k] in old(spine)
        decreases |spine|
      {
        HeadSpot();
        WriteOneKeeps(input, st);
        WriteHead();
      }
      HeadSpot();
      EndsEmpty(input, st);
    }

    method SetReply(c: int, reply: string)
      requires Valid() && !exited && c in current
      modifies this`st, this`received, this`current, this`waiting, spine
      ensures Chained() && Counted() && Pointed(current, spine, st) && Sound(input, st)
      ensures HeldOk(old(st), c) && st == Answer(old(st), c, reply)
    {
      hide Ok, Pointed, Sound;
      PointsIn(current, spine, st, c);
      AnswerIsSound(input, st, c, reply);
      PointsLess(current, spine, st, c, Answer(st, c, reply));
      ghost var k := st.held[c] - st.flushed;
      var node := current[c];
      assert Linked(st.queue, k);
      node.s := reply;
      node.status := FINISHED;
      received := received + 1;
      current := current - {c};
      waiting := waiting + {c};
      st := Answer(st, c, reply);
      forall j | 0 <= j < |spine| ensures Linked(st.queue, j) { assert old(Linked(st.queue, j)); }
    }

    method Connect(c: int)
      requires Valid() && !exited && c !in current
      modifies this`waiting, this`st
      ensures Valid() && st == old(st).(waiting := old(st.waiting) + {c})
    {
      hide Ok, Pointed;
      PointsAll(current, spine, st);
      ConnectKeeps(input, st, c);
      PointsSame(current, spine, st, st.(waiting := st.waiting + {c}));
      waiting := waiting + {c};
      st := st.(waiting := st.waiting + {c});
      forall j | 0 <= j < |spine| ensures Linked(st.queue, j) { assert old(Linked(st.queue, j)); }
    }

    lemma Mirrors()
      requires Valid()
      ensures exited == st.exited && waiting == st.waiting && out == st.out
      ensures current.Keys == st.held.Keys && forall c :: c in current ==> HeldOk(st, c)
    {
      forall c | c in current ensures HeldOk(st, c) { assert c in st.held; }
    }

    /** One client's next move. */
    method Move(e: Event)
      requires Valid()
      modifies this, spine
      ensures Valid() && st == Step(input, old(st), e)
      ensures forall k :: 0 <= k < |spine| ==> spine[k] in old(spine) || fresh(spine[k])
    {
      hide Ok, Pointed, Chained, Counted, AfterGet, AfterFinish, AfterAbort;
      Mirrors();
      if !exited {
        match e
        case Connect(c) => if c !in current { Connect(c); }
        case Get(c) => if c in waiting && c !in current { var cur := QueueGet(c); }
        case Reply(c, text) => if c in current { QueueFinish(c, text); }
        case Die(c) => if c in current { QueueAbort(c); }
      }
    }

    /** The list server makes exactly the run of the model. */
    method Run(events: seq<Event>)
      requires Valid() && st == Start()
      modifies this, spine
      ensures Valid() && st == Play(input, events) && out == Play(input, events).out && exited == Play(input, events).exited
    {
      hide Ok, Pointed, Chained, Counted, Step;
      var n := 0;
      while n < |events|
        invariant n <= |events| && Valid() && st == Play(input, events[..n])
        invariant forall k :: 0 <= k < |spine| ==> spine[k] in old(spine) || fresh(spine[k])
      {
        assert events[..n + 1][..n] == events[..n];
        Move(events[n]);
        n := n + 1;
      }
      assert events[..n] == events;
      Mirrors();
    }
  }
}
