/** The queue of a server that hands numbered lines to clients and writes their
    replies out in the lines' order: the steps that the server's critical
    sections make, as functions on its state. */
module SentQueue {

  /** Where a line in the queue is: with a client, given back, or answered. */
  datatype Spot = Running(client: int) | Aborted | Finished

  datatype Cell = Cell(text: string, spot: Spot)

  /** The server's state. The line in queue[k] is line number flushed + k.
      `replies` remembers the reply each answered line got. */
  datatype State = State(
    queue: seq<Cell>,
    sent: nat,
    flushed: nat,
    out: seq<string>,
    replies: map<int, string>,
    waiting: set<int>,
    held: map<int, int>,
    eof: bool,
    exited: bool)

  function Start(): State {
    State([], 0, 0, [], map[], {}, map[], false, false)
  }

  // ----- what holds between steps

  predicate CellOk(input: seq<string>, st: State, k: int)
    requires 0 <= k < |st.queue| && st.flushed + |st.queue| <= |input|
  {
    var i, cell := st.flushed + k, st.queue[k];
    match cell.spot
    case Running(c) => i !in st.replies && cell.text == input[i] && c in st.held && st.held[c] == i
    case Aborted => i !in st.replies && cell.text == input[i]
    case Finished => i in st.replies && cell.text == st.replies[i]
  }

  /** What the client holds is in the queue, and the client is the one that has it. */
  predicate HeldOk(st: State, c: int) {
    && c in st.held && c !in st.waiting
    && st.flushed <= st.held[c] < st.flushed + |st.queue|
    && st.queue[st.held[c] - st.flushed].spot == Running(c)
  }

  predicate WrittenOk(st: State, i: int) {
    0 <= i < |st.out| && i in st.replies && st.out[i] == st.replies[i]
  }

  /** Holds also while finished lines are being flushed. */
  ghost predicate Sound(input: seq<string>, st: State) {
    && st.sent == st.flushed + |st.queue| <= |input| && st.flushed == |st.out|
    && (forall i {:trigger WrittenOk(st, i)} :: 0 <= i < st.flushed ==> WrittenOk(st, i))
    && (forall k {:trigger CellOk(input, st, k)} :: 0 <= k < |st.queue| ==> CellOk(input, st, k))
    && (forall c {:trigger HeldOk(st, c)} :: c in st.held ==> HeldOk(st, c))
    && (forall i :: i in st.replies ==> 0 <= i < st.sent)
    && (st.eof || st.exited ==> st.sent == |input|)
    && (st.exited ==> st.queue == [])
  }

  /** Between steps, the first line in the queue is still to be answered, and
      the end of the input has been noticed only with lines left in the queue. */
  ghost predicate Ok(input: seq<string>, st: State) {
    && Sound(input, st)
    && (st.queue != [] ==> !st.queue[0].spot.Finished?)
    && (st.queue == [] && st.eof ==> st.exited)
  }

  // ----- the steps

  /** The first line from number k on that was given back; |queue| if none was. */
  function FirstAborted(queue: seq<Cell>, k: nat): (r: nat)
    requires k <= |queue|
    ensures k <= r <= |queue| && (r < |queue| ==> queue[r].spot.Aborted?)
    ensures forall j :: k <= j < r ==> !queue[j].spot.Aborted?
    decreases |queue| - k
  {
    if k == |queue| || queue[k].spot.Aborted? then k else FirstAborted(queue, k + 1)
  }

  /** The client takes a line that is in the queue. */
  function Take(st: State, c: int, k: nat): State
    requires k < |st.queue|
  {
    st.(queue := st.queue[k := st.queue[k].(spot := Running(c))], held := st.held[c := st.flushed + k],
        waiting := st.waiting - {c})
  }

  /** The client takes the next line of the input. */
  function Read(input: seq<string>, st: State, c: int): State
    requires st.sent < |input|
  {
    st.(queue := st.queue + [Cell(input[st.sent], Running(c))], sent := st.sent + 1, held := st.held[c := st.sent],
        waiting := st.waiting - {c})
  }

  /** The client is sent away; with nothing in the queue, the server ends. */
  function TurnAway(st: State, c: int): State {
    var st' := st.(waiting := st.waiting - {c});
    if st.queue == [] then st'.(exited := true) else st'.(eof := true)
  }

  function AfterGet(input: seq<string>, st: State, c: int): State {
    var k := FirstAborted(st.queue, 0);
    if k < |st.queue| then Take(st, c, k)
    else if st.sent < |input| then Read(input, st, c)
    else TurnAway(st, c)
  }

  /** The client's line has been answered. */
  function Answer(st: State, c: int, reply: string): State
    requires HeldOk(st, c)
  {
    var i := st.held[c];
    st.(queue := st.queue[i - st.flushed := Cell(reply, Finished)], replies := st.replies[i := reply],
        held := st.held - {c}, waiting := st.waiting + {c})
  }

  /** Writes the first line's reply. */
  function WriteOne(st: State): State
    requires st.queue != []
  {
    var st' := st.(queue := st.queue[1..], flushed := st.flushed + 1, out := st.out + [st.queue[0].text]);
    if |st.queue| == 1 && st.eof then st'.(exited := true) else st'
  }

  function Flushed(st: State): State
    decreases |st.queue|
  {
    if st.queue != [] && st.queue[0].spot.Finished? then Flushed(WriteOne(st)) else st
  }

  function AfterFinish(st: State, c: int, reply: string): State
    requires HeldOk(st, c)
  {
    Flushed(Answer(st, c, reply))
  }

  function AfterAbort(st: State, c: int): State
    requires HeldOk(st, c)
  {
    var k := st.held[c] - st.flushed;
    st.(queue := st.queue[k := st.queue[k].(spot := Aborted)], held := st.held - {c})
  }

  // ----- every step keeps what holds

  lemma TakeKeeps(input: seq<string>, st: State, c: int, k: nat)
    requires Ok(input, st) && k < |st.queue| && st.queue[k].spot.Aborted? && c !in st.held
    ensures Ok(input, Take(st, c, k))
  {
    var st' := Take(st, c, k);
    forall j | 0 <= j < |st'.queue| ensures CellOk(input, st', j) { assert CellOk(input, st, j); }
    forall d | d in st'.held ensures HeldOk(st', d) { assert d != c ==> HeldOk(st, d); }
    forall i | 0 <= i < st.flushed ensures WrittenOk(st', i) { assert WrittenOk(st, i); }
  }

  lemma ReadKeeps(input: seq<string>, st: State, c: int)
    requires Ok(input, st) && st.sent < |input| && c !in st.held
    ensures Ok(input, Read(input, st, c))
  {
    var st' := Read(input, st, c);
    forall j | 0 <= j < |st'.queue| ensures CellOk(input, st', j) { assert j < |st.queue| ==> CellOk(input, st, j); }
    forall d | d in st'.held ensures HeldOk(st', d) { assert d != c ==> HeldOk(st, d); }
    forall i | 0 <= i < st.flushed ensures WrittenOk(st', i) { assert WrittenOk(st, i); }
  }

  lemma TurnAwayKeeps(input: seq<string>, st: State, c: int)
    requires Ok(input, st) && st.sent == |input| && c !in st.held
    ensures Ok(input, TurnAway(st, c))
  {
    var st' := TurnAway(st, c);
    forall j | 0 <= j < |st'.queue| ensures CellOk(input, st', j) { assert CellOk(input, st, j); }
    forall d | d in st'.held ensures HeldOk(st', d) { assert HeldOk(st, d); }
    forall i | 0 <= i < st.flushed ensures WrittenOk(st', i) { assert WrittenOk(st, i); }
  }

  lemma GetKeeps(input: seq<string>, st: State, c: int)
    requires Ok(input, st) && c !in st.held
    ensures Ok(input, AfterGet(input, st, c))
  {
    hide Ok, Take, Read, TurnAway;
    SentIsWithin(input, st);
    var k := FirstAborted(st.queue, 0);
    if k < |st.queue| { TakeKeeps(input, st, c, k); }
    else if st.sent < |input| { ReadKeeps(input, st, c); }
    else { TurnAwayKeeps(input, st, c); }
  }

  lemma SentIsWithin(input: seq<string>, st: State)
    requires Ok(input, st)
    ensures st.sent <= |input|
  {
  }

  lemma AnswerKeeps(input: seq<string>, st: State, c: int, reply: string)
    requires Sound(input, st) && c in st.held && !st.exited
    ensures HeldOk(st, c) && Sound(input, Answer(st, c, reply))
  {
    assert HeldOk(st, c);
    var i, st' := st.held[c], Answer(st, c, reply);
    assert CellOk(input, st, i - st.flushed);
    forall j | 0 <= j < |st'.queue| ensures CellOk(input, st', j) { assert CellOk(input, st, j); }
    forall d | d in st'.held ensures HeldOk(st', d) { assert HeldOk(st, d); }
    forall n | 0 <= n < st.flushed ensures WrittenOk(st', n) { assert WrittenOk(st, n); }
  }

  lemma WriteOneKeeps(input: seq<string>, st: State)
    requires Sound(input, st) && st.queue != [] && st.queue[0].spot.Finished?
    ensures Sound(input, WriteOne(st))
  {
    var st' := WriteOne(st);
    assert CellOk(input, st, 0);
    forall j | 0 <= j < |st'.queue| ensures CellOk(input, st', j) { assert CellOk(input, st, j + 1); }
    forall d | d in st'.held ensures HeldOk(st', d) { assert HeldOk(st, d); }
    forall n | 0 <= n < st'.flushed ensures WrittenOk(st', n) { assert n < st.flushed ==> WrittenOk(st, n); }
  }

  /** Flushing only moves replies from the queue to the output. */
  lemma {:induction false} FlushKeeps(input: seq<string>, st: State)
    requires Sound(input, st) && (st.queue == [] && st.eof ==> st.exited)
    ensures Ok(input, Flushed(st))
    ensures Flushed(st).sent == st.sent && Flushed(st).replies == st.replies && Flushed(st).held == st.held
    ensures st.out <= Flushed(st).out
    decreases |st.queue|
  {
    if st.queue != [] && st.queue[0].spot.Finished? {
      WriteOneKeeps(input, st);
      FlushKeeps(input, WriteOne(st));
    }
  }

  lemma FinishKeeps(input: seq<string>, st: State, c: int, reply: string)
    requires Ok(input, st) && c in st.held
    ensures HeldOk(st, c) && Ok(input, AfterFinish(st, c, reply))
    ensures AfterFinish(st, c, reply).replies == st.replies[st.held[c] := reply] && st.held[c] !in st.replies
    ensures st.out <= AfterFinish(st, c, reply).out
  {
    assert HeldOk(st, c);
    assert CellOk(input, st, st.held[c] - st.flushed);
    AnswerKeeps(input, st, c, reply);
    FlushKeeps(input, Answer(st, c, reply));
  }

  lemma AbortKeeps(input: seq<string>, st: State, c: int)
    requires Ok(input, st) && c in st.held
    ensures HeldOk(st, c) && Ok(input, AfterAbort(st, c))
  {
    assert HeldOk(st, c);
    var st' := AfterAbort(st, c);
    forall j | 0 <= j < |st'.queue| ensures CellOk(input, st', j) { assert CellOk(input, st, j); }
    forall d | d in st'.held ensures HeldOk(st', d) { assert HeldOk(st, d); }
    forall n | 0 <= n < st.flushed ensures WrittenOk(st', n) { assert WrittenOk(st, n); }
  }

  lemma ConnectKeeps(input: seq<string>, st: State, c: int)
    requires Ok(input, st) && c !in st.held
    ensures Ok(input, st.(waiting := st.waiting + {c}))
  {
    var st' := st.(waiting := st.waiting + {c});
    forall j | 0 <= j < |st'.queue| ensures CellOk(input, st', j) { assert CellOk(input, st, j); }
    forall d | d in st'.held ensures HeldOk(st', d) { assert HeldOk(st, d); }
    forall n | 0 <= n < st.flushed ensures WrittenOk(st', n) { assert WrittenOk(st, n); }
  }

  // ----- runs

  /** What may happen next, in any order. */
  datatype Event = Connect(c: int) | Get(c: int) | Reply(c: int, text: string) | Die(c: int)

  /** A client asks only when it is waiting, and answers or dies only when it
      holds a line; nothing happens after the server has ended. */
  function Step(input: seq<string>, st: State, e: Event): State {
    if st.exited then st
    else match e
      case Connect(c) => if c in st.held then st else st.(waiting := st.waiting + {c})
      case Get(c) => if c in st.waiting && c !in st.held then AfterGet(input, st, c) else st
      case Reply(c, text) => if HeldOk(st, c) then AfterFinish(st, c, text) else st
      case Die(c) => if HeldOk(st, c) then AfterAbort(st, c) else st
  }

  function Play(input: seq<string>, events: seq<Event>): State {
    if events == [] then Start() else Step(input, Play(input, events[..|events| - 1]), events[|events| - 1])
  }

  lemma StartIsOk(input: seq<string>)
    ensures Ok(input, Start())
  {
  }

  lemma StepKeeps(input: seq<string>, st: State, e: Event)
    requires Ok(input, st)
    ensures Ok(input, Step(input, st, e))
  {
    hide Ok, AfterGet, AfterFinish, AfterAbort;
    match e
    case Connect(c) => if c !in st.held { ConnectKeeps(input, st, c); }
    case Get(c) => if c !in st.held { GetKeeps(input, st, c); }
    case Reply(c, text) => if c in st.held { FinishKeeps(input, st, c, text); }
    case Die(c) => if c in st.held { AbortKeeps(input, st, c); }
  }

  /** Whatever clients do and in whatever order, the state stays right. */
  lemma {:induction false} PlayIsOk(input: seq<string>, events: seq<Event>)
    ensures Ok(input, Play(input, events))
  {
    hide Ok, Step, Start;
    if events == [] {
      StartIsOk(input);
    } else {
      PlayIsOk(input, events[..|events| - 1]);
      StepKeeps(input, Play(input, events[..|events| - 1]), events[|events| - 1]);
    }
  }

  // ----- what it means

  /** The line a client is working on, if it is. */
  function Asked(input: seq<string>, st: State, c: int): (r: string) {
    if c in st.held && 0 <= st.held[c] < |input| then input[st.held[c]] else ""
  }

  /** Every client that answers gives the right answer to the line it has. */
  ghost predicate Truthful(f: string -> string, input: seq<string>, events: seq<Event>) {
    forall n :: 0 <= n < |events| && events[n].Reply? ==>
      events[n].text == f(Asked(input, Play(input, events[..n]), events[n].c))
  }

  predicate RightReplies(f: string -> string, input: seq<string>, st: State) {
    forall i :: i in st.replies ==> 0 <= i < |input| && st.replies[i] == f(input[i])
  }

  lemma StepIsRight(f: string -> string, input: seq<string>, st: State, e: Event)
    requires Ok(input, st) && RightReplies(f, input, st)
    requires e.Reply? ==> e.text == f(Asked(input, st, e.c))
    ensures RightReplies(f, input, Step(input, st, e))
  {
    if e.Reply? && e.c in st.held && !st.exited {
      FinishKeeps(input, st, e.c, e.text);
    }
  }

  lemma {:induction false} PlayIsRight(f: string -> string, input: seq<string>, events: seq<Event>)
    requires Truthful(f, input, events)
    ensures RightReplies(f, input, Play(input, events))
  {
    hide Step, Ok;
    if events != [] {
      var past, e := events[..|events| - 1], events[|events| - 1];
      forall n | 0 <= n < |past| && past[n].Reply? ensures past[n].text == f(Asked(input, Play(input, past[..n]), past[n].c)) {
        assert past[..n] == events[..n] && past[n] == events[n];
      }
      PlayIsRight(f, input, past);
      PlayIsOk(input, past);
      StepIsRight(f, input, Play(input, past), e);
    }
  }

  /** However the clients' steps interleave and whoever dies, what has been
      written is the answers to the first lines, in order and each once; and
      the server ends only when all lines have been answered and written. */
  lemma OutputIsAnswers(f: string -> string, input: seq<string>, events: seq<Event>)
    requires Truthful(f, input, events)
    ensures var st := Play(input, events);
            && |st.out| <= |input|
            && (forall i :: 0 <= i < |st.out| ==> st.out[i] == f(input[i]))
            && (st.exited ==> |st.out| == |input|)
  {
    var st := Play(input, events);
    PlayIsOk(input, events);
    PlayIsRight(f, input, events);
    forall i | 0 <= i < |st.out| ensures i < |input| && st.out[i] == f(input[i]) { assert WrittenOk(st, i); }
  }

  /** A line that is being worked on is with exactly one client. */
  lemma OneHolder(input: seq<string>, events: seq<Event>, k: nat)
    requires k < |Play(input, events).queue|
    ensures var st := Play(input, events);
            st.queue[k].spot.Running? <==> exists c :: c in st.held && st.held[c] == st.flushed + k
    ensures var st := Play(input, events);
            forall c, d :: c in st.held && d in st.held && st.held[c] == st.flushed + k == st.held[d] ==> c == d
  {
    var st := Play(input, events);
    PlayIsOk(input, events);
    assert CellOk(input, st, k);
    forall c | c in st.held && st.held[c] == st.flushed + k ensures st.queue[k].spot == Running(c) { assert HeldOk(st, c); }
  }

  /** What has been written stays written. */
  lemma {:induction false} OutputOnlyGrows(input: seq<string>, events: seq<Event>, n: nat)
    requires n <= |events|
    ensures Play(input, events[..n]).out <= Play(input, events).out
    decreases |events|
  {
    hide Ok;
    if n == |events| {
      assert events[..n] == events;
    } else {
      var past, e := events[..|events| - 1], events[|events| - 1];
      assert past[..n] == events[..n];
      OutputOnlyGrows(input, past, n);
      PlayIsOk(input, past);
      var st := Play(input, past);
      if e.Reply? && e.c in st.held { FinishKeeps(input, st, e.c, e.text); }
    }
  }

  /** A client that asks is given a line unless none is left to give; and when
      it is sent away without the server ending, another client has the first
      line that is still to be answered. */
  lemma AskingHelps(input: seq<string>, st: State, c: int)
    requires Ok(input, st) && c !in st.held
    ensures var st' := AfterGet(input, st, c);
            && (c in st'.held <==> st.sent < |input| || exists k :: 0 <= k < |st.queue| && st.queue[k].spot.Aborted?)
            && (st'.exited && !st.exited ==> st.flushed == |input|)
            && (c !in st'.held && !st'.exited ==> exists d :: d in st.held && d != c && st.held[d] == st.flushed)
  {
    var k := FirstAborted(st.queue, 0);
    if k == |st.queue| && st.queue != [] {
      assert CellOk(input, st, 0);
      assert !st.queue[0].spot.Aborted?;
    }
  }

  /** When no client has a line, all that is left in the queue before the first
      answered line was given back, and whoever asks next gets the first of
      it, reads on, or ends the server with everything written. */
  lemma NobodyBusy(input: seq<string>, st: State, c: int)
    requires Ok(input, st) && st.held == map[] && !st.exited
    ensures st.queue != [] ==> st.queue[0].spot.Aborted? && AfterGet(input, st, c).held == map[c := st.flushed]
    ensures st.queue == [] && st.sent < |input| ==> AfterGet(input, st, c).held == map[c := st.sent]
    ensures st.queue == [] && st.sent == |input| ==> AfterGet(input, st, c).exited && |st.out| == |input|
  {
    if st.queue != [] {
      assert CellOk(input, st, 0);
    }
  }
}
