/**
 The object a mailbox is meant to be: a bounded FIFO that can be stopped. Every operation
 happens at once; nothing waits.
 */
module BoundedFifo {
  import opened Codes
  import opened MailboxSpec

  datatype Fifo = Fifo(items: seq<MsgId>, stopped: bool)

  /** The FIFO a mailbox stands for. */
  function AsFifo(x: Box): Fifo { Fifo(x.messages, x.stopped != 0) }

  /** The count is the length of the list, within the capacity. */
  predicate Counted(x: Box) { x.count == |x.messages| && x.count <= CAPACITY }

  /** What holds of every mailbox, flushed or not: the count is exact while the mailbox is
      open, and a count of zero is never wrong. */
  predicate Credible(x: Box) {
    (x.stopped == 0 ==> Counted(x)) && (x.count == 0 ==> x.messages == [])
  }

  /** What an operation did, with the code it returned. `block` says whether it may wait, `sig`
      whether a signal was pending for its task when it ended. */
  datatype Event =
    | Silent
    | Added(m: MsgId, head: bool, block: bool, sig: bool, code: int)
    | Removed(m: MsgId)
    | NotRemoved(block: bool, sig: bool, code: int)
    | Stop
    | Flush
    | Corrupt

  /** An add may end now, with this code. On a full queue a blocking add ends only by a signal. */
  predicate AddEnds(q: Fifo, block: bool, sig: bool, code: int) {
    if q.stopped then code == MAILBOX_STOPPED
    else if |q.items| < CAPACITY then code == 0
    else if !block then code == MAILBOX_FULL
    else sig && code == MAILBOX_ERROR
  }

  /** A remove may end now without a message, with this code. On an empty queue a blocking
      remove ends only by a signal. */
  predicate EmptyEnds(q: Fifo, block: bool, sig: bool, code: int) {
    && q.items == []
    && if q.stopped then code == MAILBOX_STOPPED
       else if !block then code == MAILBOX_EMPTY
       else sig && code == MAILBOX_ERROR
  }

  predicate Legal(q: Fifo, ev: Event) {
    match ev
    case Silent => true
    case Added(_, _, block, sig, code) => AddEnds(q, block, sig, code)
    case Removed(m) => q.items != [] && m == q.items[0]
    case NotRemoved(block, sig, code) => EmptyEnds(q, block, sig, code)
    case Stop => true
    case Flush => q.stopped
    case Corrupt => false
  }

  function Effect(q: Fifo, ev: Event): Fifo
    requires Legal(q, ev)
  {
    match ev
    case Added(m, head, _, _, code) =>
      if code != 0 then q else q.(items := if head then [m] + q.items else q.items + [m])
    case Removed(_) => q.(items := q.items[1..])
    case Stop => q.(stopped := true)
    case Flush => q.(items := [])
    case _ => q
  }

  predicate LegalTrace(q: Fifo, trace: seq<Event>)
    decreases |trace|
  {
    trace == [] || (Legal(q, trace[0]) && LegalTrace(Effect(q, trace[0]), trace[1..]))
  }

  function Final(q: Fifo, trace: seq<Event>): Fifo
    requires LegalTrace(q, trace)
    decreases |trace|
  {
    if trace == [] then q else Final(Effect(q, trace[0]), trace[1..])
  }
}
