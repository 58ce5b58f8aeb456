/** A bounded queue between one reader and one writer, with the critical
    sections of its monitor as atomic steps under any interleaving. */
module QueueCat {

  /** A thread is between sections, asleep on a condition, or at its end. */
  datatype Thread = Ready | Asleep | Done

  type Line = nat

  class Monitor {
    /** Lines not yet read from the input, in the queue, and written. */
    var unread: seq<Line>
    var dq: seq<Line>
    var written: seq<Line>
    var finished: bool
    const overfull: nat
    var reader: Thread
    var writer: Thread
    ghost const input: seq<Line>

    /** What holds between sections, whatever the interleaving. */
    ghost predicate Valid()
      reads this
    {
      // Nothing is lost, repeated or put out of order.
      && written + dq + unread == input
      && (overfull > 0 ==> |dq| <= overfull)
      // A sleeper is asleep for a reason that still holds.
      && (reader.Asleep? ==> overfull > 0 && |dq| == overfull)
      && (writer.Asleep? ==> dq == [] && !finished)
      && (finished <==> reader.Done?) && (reader.Done? ==> unread == [])
      && (writer.Done? ==> finished && dq == [])
    }

    constructor (input: seq<Line>, overfull: nat)
      ensures Valid() && this.input == input && written == []
    {
      unread, dq, written, finished := input, [], [], false;
      this.overfull, this.input := overfull, input;
      reader, writer := Ready, Ready;
    }

    /** Never are both threads asleep, nor one asleep and the other at its end. */
    lemma SomeoneIsAwake()
      requires Valid()
      ensures reader.Ready? || writer.Ready? || (reader.Done? && writer.Done?)
    {
    }

    /** One pass of the reader through its section: it goes to sleep when the
        queue is full, and otherwise adds a line and wakes the writer if the
        queue was empty. */
    method PutInp()
      requires Valid() && reader.Ready? && unread != []
      modifies this
      ensures Valid()
      ensures if overfull > 0 && |old(dq)| == overfull
              then reader.Asleep? && unread == old(unread) && dq == old(dq) && writer == old(writer)
              else reader.Ready? && unread == old(unread)[1..] && dq == old(dq) + [old(unread)[0]]
                   && writer == (if old(dq) == [] && old(writer).Asleep? then Ready else old(writer))
      ensures written == old(written) && finished == old(finished)
    {
      if overfull > 0 && |dq| == overfull {
        reader := Asleep;
      } else {
        var needsNotify := dq == [];
        assert unread == [unread[0]] + unread[1..];
        dq := dq + [unread[0]];
        unread := unread[1..];
        if needsNotify && writer.Asleep? {
          writer := Ready;
        }
      }
    }

    /** The reader's last section. */
    method FinishInp()
      requires Valid() && reader.Ready? && unread == []
      modifies this
      ensures Valid() && finished && reader.Done? && unread == [] && dq == old(dq) && written == old(written)
      ensures writer == if old(writer).Asleep? then Ready else old(writer)
    {
      finished, reader := true, Done;
      if writer.Asleep? {
        writer := Ready;
      }
    }

    /** One pass of the writer: it sleeps on an empty queue, takes a line and
        wakes the reader if the queue was full, or ends. */
    method GetInp()
      requires Valid() && writer.Ready?
      modifies this
      ensures Valid() && unread == old(unread) && finished == old(finished)
      ensures if old(dq) != [] then
                writer.Ready? && dq == old(dq)[1..] && written == old(written) + [old(dq)[0]]
                && reader == (if |old(dq)| == overfull && old(reader).Asleep? then Ready else old(reader))
              else
                writer == (if finished then Done else Asleep) && dq == [] && written == old(written) && reader == old(reader)
    {
      if !finished && dq == [] {
        writer := Asleep;
      } else if dq != [] {
        var needsNotify := |dq| == overfull;
        assert dq == [dq[0]] + dq[1..];
        written := written + [dq[0]];
        dq := dq[1..];
        if needsNotify && reader.Asleep? {
          reader := Ready;
        }
      } else {
        writer := Done;
      }
    }

    /** Goes down with every section that a thread runs. */
    ghost function Left(): nat
      reads this
    {
      5 * |unread| + 2 * |dq|
      + (if reader.Ready? then 3 else if reader.Asleep? then 2 else 0)
      + (if writer.Ready? then 2 else if writer.Asleep? then 1 else 0)
    }

    /** However the sections are interleaved, both threads end, and what was
        written is what was read. */
    method Run()
      requires Valid()
      modifies this
      ensures Valid() && reader.Done? && writer.Done? && written == input
    {
      while !(reader.Done? && writer.Done?)
        invariant Valid()
        decreases Left()
      {
        SomeoneIsAwake();
        var pickReader: bool := *;
        if reader.Ready? && (pickReader || !writer.Ready?) {
          if unread == [] {
            FinishInp();
          } else {
            PutInp();
          }
        } else {
          GetInp();
        }
      }
    }

    /** At any time the lines written are the first of the input. */
    lemma WrittenIsPrefix()
      requires Valid()
      ensures written <= input
    {
    }
  }
}
