/**
 One mailbox as a value, and each of its critical sections as a function of that value.
 A function here is everything one task does between taking the mailbox lock and giving
 it up: to return, or to sleep. `sig` says whether a signal is pending for the task at
 the point where the wait macro looks.
 */
module MailboxSpec {
  import opened Codes
  import opened WaitQueues

  type MsgId = nat

  datatype Box = Box(
    owner: int,
    count: int,
    stopped: int,
    messages: seq<MsgId>,
    waiting: int,
    queue: seq<Waiter>,
    derefs: int,
    derefQueue: seq<Waiter>)

  /** What a critical section ends with. Phantom is a removal from an empty list: the
      count said there was a message and the list holds none. */
  datatype Verdict = Done(code: int) | Took(m: MsgId) | Phantom | Slept

  /** mailbox_create */
  function Created(owner: int): Box {
    Box(owner, 0, 0, [], 0, [], 0, [])
  }

  /** mailbox_full */
  predicate Full(x: Box) {
    x.count >= CAPACITY
  }

  /** list_add or list_add_tail, count++, wake_up_locked */
  function Link(x: Box, m: MsgId, head: bool): Box {
    x.(messages := if head then [m] + x.messages else x.messages + [m],
       count := x.count + 1,
       queue := WakeOne(x.queue))
  }

  /** list_entry of the first element, list_del_init, count--, wake_up_locked */
  function Unlink(x: Box): (Box, Verdict) {
    var y := x.(count := x.count - 1, queue := WakeOne(x.queue));
    if x.messages == [] then (y, Phantom)
    else (y.(messages := x.messages[1..]), Took(x.messages[0]))
  }

  /** Join the wait queue as an exclusive waiter and give up the lock. */
  function Sleep(x: Box, t: Tid): Box {
    x.(queue := x.queue + [Waiter(t, true)])
  }

  /** waiting--, wake_up_locked: what every waiter does on its way out. */
  function StopWaiting(x: Box): Box {
    x.(waiting := x.waiting - 1, queue := WakeOne(x.queue))
  }

  predicate CanAdd(x: Box) { x.stopped != 0 || !Full(x) }

  predicate CanRemove(x: Box) { x.stopped != 0 || x.count != 0 }

  /** mailbox_add_message up to its return or its first sleep */
  function AddEnter(x: Box, t: Tid, m: MsgId, block: bool, head: bool, sig: bool): (Box, Verdict) {
    if x.stopped != 0 then (x, Done(MAILBOX_STOPPED))
    else if !Full(x) then (Link(x, m, head), Done(0))
    else if !block then (x, Done(MAILBOX_FULL))
    else AddWait(x.(waiting := x.waiting + 1), t, m, head, sig)
  }

  /** mailbox_add_message with the lock held inside the wait: the condition is evaluated,
      and either the wait ends or the task sleeps again */
  function AddWait(x: Box, t: Tid, m: MsgId, head: bool, sig: bool): (Box, Verdict) {
    if CanAdd(x) then
      var y := StopWaiting(x);
      if y.stopped != 0 then (y, Done(MAILBOX_STOPPED)) else (Link(y, m, head), Done(0))
    else if sig then (StopWaiting(x), Done(MAILBOX_ERROR))
    else (Sleep(x, t), Slept)
  }

  /** mailbox_remove_message up to its return or its first sleep */
  function RemoveEnter(x: Box, t: Tid, block: bool, sig: bool): (Box, Verdict) {
    if x.stopped != 0 && x.count == 0 then (x, Done(MAILBOX_STOPPED))
    else if x.count != 0 then Unlink(x)
    else if !block then (x, Done(MAILBOX_EMPTY))
    else RemoveWait(x.(waiting := x.waiting + 1), t, sig)
  }

  /** mailbox_remove_message with the lock held inside the wait */
  function RemoveWait(x: Box, t: Tid, sig: bool): (Box, Verdict) {
    if CanRemove(x) then
      var y := StopWaiting(x);
      if y.stopped != 0 && y.count == 0 then (y, Done(MAILBOX_STOPPED)) else Unlink(y)
    else if sig then (StopWaiting(x), Done(MAILBOX_ERROR))
    else (Sleep(x, t), Slept)
  }

  /** __mailbox_stop */
  function Halt(x: Box, status: int): Box {
    x.(stopped := status, queue := WakeOne(x.queue))
  }

  /** The locked part of mailbox_destroy: sleep as a non-exclusive waiter while somebody
      waits, else empty the list. The count is left as it is. */
  function Destroy(x: Box, t: Tid): (Box, bool) {
    if x.waiting == 0 then (x.(messages := []), true)
    else (x.(queue := x.queue + [Waiter(t, false)]), false)
  }

  /** claim_mailbox */
  function Claim(x: Box): Box {
    x.(derefs := x.derefs + 1)
  }

  /** unclaim_mailbox */
  function Unclaim(x: Box): Box {
    var y := x.(derefs := x.derefs - 1);
    if y.derefs == 0 then y.(derefQueue := WakeOne(y.derefQueue)) else y
  }

  /** wait_until_mailbox_unclaimed with its lock held: is the wait over? */
  function AwaitUnclaimed(x: Box, t: Tid): (Box, bool) {
    if x.derefs == 0 then (x, true)
    else (x.(derefQueue := x.derefQueue + [Waiter(t, true)]), false)
  }
}
