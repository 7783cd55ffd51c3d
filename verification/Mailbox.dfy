/**
 One mailbox as the code has it: a record whose fields are changed in place under its
 lock. A call that sleeps gives the lock up; what the other tasks do meanwhile, and whether
 a signal is pending, is the caller's `script`.
 */
module MailboxObject {
  import opened Codes
  import opened WaitQueues
  import opened MailboxSpec
  import opened Sections
  import opened BoundedFifo
  import opened MessageStore

  /** One pass through the wait: is a signal pending before the sleep, and if not, what the
      mailbox looks like when the lock is taken again. */
  datatype Nap = Nap(signal: bool, found: Box)

  datatype Outcome = Returned(code: int) | Received(m: MsgId) | Garbage | Asleep

  function OutcomeOf(v: Verdict): Outcome {
    match v
    case Done(code) => Returned(code)
    case Took(m) => Received(m)
    case Phantom => Garbage
    case Slept => Asleep
  }

  // ---------------------------------------------------------------- specification of the calls

  /** The waiting part of an add, for a script of naps. */
  function AddNaps(x: Box, t: Tid, m: MsgId, head: bool, script: seq<Nap>): (Box, Verdict)
    decreases |script|
  {
    var r := AddWait(x, t, m, head, script != [] && script[0].signal);
    if r.1.Slept? && script != [] then AddNaps(script[0].found, t, m, head, script[1..]) else r
  }

  /** mailbox_add_message, from entry to return. */
  function AddCall(x: Box, t: Tid, m: MsgId, block: bool, head: bool, script: seq<Nap>): (Box, Verdict) {
    if x.stopped == 0 && Full(x) && block then AddNaps(x.(waiting := x.waiting + 1), t, m, head, script)
    else AddEnter(x, t, m, block, head, false)
  }

  function RemoveNaps(x: Box, t: Tid, script: seq<Nap>): (Box, Verdict)
    decreases |script|
  {
    var r := RemoveWait(x, t, script != [] && script[0].signal);
    if r.1.Slept? && script != [] then RemoveNaps(script[0].found, t, script[1..]) else r
  }

  /** mailbox_remove_message, from entry to return. */
  function RemoveCall(x: Box, t: Tid, block: bool, script: seq<Nap>): (Box, Verdict) {
    if x.stopped == 0 && x.count == 0 && block then RemoveNaps(x.(waiting := x.waiting + 1), t, script)
    else RemoveEnter(x, t, block, false)
  }

  /** The state in which a call holds the lock after k naps. */
  function SeenAt(x: Box, script: seq<Nap>, k: nat): Box
    requires k <= |script|
  {
    if k == 0 then x else script[k - 1].found
  }

  predicate SignalAt(script: seq<Nap>, k: nat) { k < |script| && script[k].signal }

  predicate AllCredible(x: Box, script: seq<Nap>) {
    Credible(x) && forall i :: 0 <= i < |script| ==> Credible(script[i].found)
  }

  /** Before each of its first k naps an add finds the mailbox open and full, and no signal. */
  ghost predicate NapsInAdd(x: Box, script: seq<Nap>, k: nat) {
    && k <= |script|
    && forall i :: 0 <= i < k ==>
         SeenAt(x, script, i).stopped == 0 && SeenAt(x, script, i).count >= CAPACITY && !SignalAt(script, i)
  }

  /** Before each of its first k naps a remove finds the mailbox open and empty, and no signal. */
  ghost predicate NapsInRemove(x: Box, script: seq<Nap>, k: nat) {
    && k <= |script|
    && forall i :: 0 <= i < k ==>
         SeenAt(x, script, i).stopped == 0 && SeenAt(x, script, i).count == 0 && !SignalAt(script, i)
  }

  /** An add of m that ended with v is one step of the FIFO x stands for, now y. */
  predicate AddsTo(x: Box, y: Box, v: Verdict, m: MsgId, head: bool, block: bool, sig: bool) {
    && v.Done? && Legal(AsFifo(x), Added(m, head, block, sig, v.code))
    && AsFifo(y) == Effect(AsFifo(x), Added(m, head, block, sig, v.code))
  }

  /** A remove that ended with v is one step of the FIFO x stands for, now y; or it took a
      message from an empty list on the word of a count that was not zero. */
  predicate RemovesFrom(x: Box, y: Box, v: Verdict, block: bool, sig: bool) {
    match v
    case Took(m) => Legal(AsFifo(x), Removed(m)) && AsFifo(y) == Effect(AsFifo(x), Removed(m))
    case Done(code) =>
      Legal(AsFifo(x), NotRemoved(block, sig, code)) && AsFifo(y) == Effect(AsFifo(x), NotRemoved(block, sig, code))
    case Phantom => x.messages == [] && x.count != 0 && AsFifo(y) == AsFifo(x)
    case Slept => false
  }

  lemma {:induction false} AddNapsDo(x: Box, t: Tid, m: MsgId, head: bool, script: seq<Nap>) returns (k: nat)
    ensures NapsInAdd(x, script, k)
    ensures var (y, v) := AddNaps(x, t, m, head, script);
            && AddDoes(SeenAt(x, script, k), y, v, t, m, true, head, SignalAt(script, k), true)
            && (v.Slept? ==> k == |script|)
    decreases |script|
  {
    hide AddDoes;
    hide AddWait;
    var sig := script != [] && script[0].signal;
    AddWaitDoes(x, t, m, head, sig);
    AddSleeps(x, t, m, head, sig);
    if AddWait(x, t, m, head, sig).1.Slept? && script != [] {
      var n := AddNapsDo(script[0].found, t, m, head, script[1..]);
      k := n + 1;
      SeenLater(x, script, k);
    } else {
      k := 0;
    }
  }

  lemma AddSleeps(x: Box, t: Tid, m: MsgId, head: bool, sig: bool)
    ensures AddWait(x, t, m, head, sig).1.Slept? <==> x.stopped == 0 && x.count >= CAPACITY && !sig
  {
  }

  lemma SeenLater(x: Box, script: seq<Nap>, k: nat)
    requires script != [] && 0 < k <= |script|
    ensures forall i :: 0 < i <= k ==> SeenAt(x, script, i) == SeenAt(script[0].found, script[1..], i - 1)
    ensures forall i :: 0 < i <= k ==> SignalAt(script, i) == SignalAt(script[1..], i - 1)
  {
  }

  /** An add call with any interference while it sleeps: after k naps, each of them because the
      mailbox was open and full, its last section does to the mailbox it then finds what an add
      does; if the call is asleep at the end, all naps were taken. */
  lemma AddCallDoes(x: Box, t: Tid, m: MsgId, block: bool, head: bool, script: seq<Nap>) returns (k: nat)
    ensures NapsInAdd(x, script, k) && (k > 0 ==> block)
    ensures var (y, v) := AddCall(x, t, m, block, head, script);
            && AddDoes(SeenAt(x, script, k), y, v, t, m, block, head, SignalAt(script, k), k > 0)
            && (v.Slept? ==> k == |script|)
  {
    hide Woken;
    if x.stopped == 0 && Full(x) && block {
      var x' := x.(waiting := x.waiting + 1);
      k := AddNapsDo(x', t, m, head, script);
      forall i | 0 <= i < k ensures SeenAt(x, script, i).stopped == 0 && SeenAt(x, script, i).count >= CAPACITY {
        assert SeenAt(x', script, i).stopped == 0;
      }
    } else {
      AddEnterDoes(x, t, m, block, head, false);
      k := 0;
    }
  }

  /** Linearization of add: a call that returns did so in one atomic step of the FIFO, in the
      state it found after its last nap. */
  lemma AddCallAtomic(x: Box, t: Tid, m: MsgId, block: bool, head: bool, script: seq<Nap>) returns (k: nat)
    requires AllCredible(x, script) && !AddCall(x, t, m, block, head, script).1.Slept?
    ensures NapsInAdd(x, script, k) && (k > 0 ==> block)
    ensures var (y, v) := AddCall(x, t, m, block, head, script);
            AddsTo(SeenAt(x, script, k), y, v, m, head, block, SignalAt(script, k))
  {
    k := AddCallDoes(x, t, m, block, head, script);
    hide AddCall;
    hide Woken;
  }

  lemma {:induction false} RemoveNapsDo(x: Box, t: Tid, script: seq<Nap>) returns (k: nat)
    ensures NapsInRemove(x, script, k)
    ensures var (y, v) := RemoveNaps(x, t, script);
            && RemoveDoes(SeenAt(x, script, k), y, v, t, true, SignalAt(script, k), true)
            && (v.Slept? ==> k == |script|)
    decreases |script|
  {
    hide RemoveDoes;
    hide RemoveWait;
    var sig := script != [] && script[0].signal;
    RemoveWaitDoes(x, t, sig);
    RemoveSleeps(x, t, sig);
    if RemoveWait(x, t, sig).1.Slept? && script != [] {
      var n := RemoveNapsDo(script[0].found, t, script[1..]);
      k := n + 1;
      SeenLater(x, script, k);
    } else {
      k := 0;
    }
  }

  lemma RemoveSleeps(x: Box, t: Tid, sig: bool)
    ensures RemoveWait(x, t, sig).1.Slept? <==> x.stopped == 0 && x.count == 0 && !sig
  {
  }

  /** The same for a remove call. */
  lemma RemoveCallDoes(x: Box, t: Tid, block: bool, script: seq<Nap>) returns (k: nat)
    ensures NapsInRemove(x, script, k) && (k > 0 ==> block)
    ensures var (y, v) := RemoveCall(x, t, block, script);
            && RemoveDoes(SeenAt(x, script, k), y, v, t, block, SignalAt(script, k), k > 0)
            && (v.Slept? ==> k == |script|)
  {
    hide Woken;
    if x.stopped == 0 && x.count == 0 && block {
      var x' := x.(waiting := x.waiting + 1);
      k := RemoveNapsDo(x', t, script);
      forall i | 0 <= i < k ensures SeenAt(x, script, i).stopped == 0 && SeenAt(x, script, i).count == 0 {
        assert SeenAt(x', script, i).stopped == 0;
      }
    } else {
      RemoveEnterDoes(x, t, block, false);
      k := 0;
    }
  }

  /** Linearization of remove: the same, or the list was empty and the count wrong. */
  lemma RemoveCallAtomic(x: Box, t: Tid, block: bool, script: seq<Nap>) returns (k: nat)
    requires AllCredible(x, script) && !RemoveCall(x, t, block, script).1.Slept?
    ensures NapsInRemove(x, script, k) && (k > 0 ==> block)
    ensures var (y, v) := RemoveCall(x, t, block, script);
            RemovesFrom(SeenAt(x, script, k), y, v, block, SignalAt(script, k))
  {
    k := RemoveCallDoes(x, t, block, script);
    hide RemoveCall;
    hide Woken;
  }

  // ---------------------------------------------------------------- the object

  /** wake_up_locked: take tasks off the front until an exclusive one was taken. */
  method WakeUp(queue: seq<Waiter>) returns (rest: seq<Waiter>)
    ensures rest == WakeOne(queue)
  {
    rest := queue;
    var awake := false;
    while rest != [] && !awake
      invariant if awake then rest == WakeOne(queue) else WakeOne(rest) == WakeOne(queue)
      decreases |rest|
    {
      awake := rest[0].exclusive;
      rest := rest[1..];
    }
  }

  class Mailbox {
    const owner: int
    var messageCount: int
    var messageMax: int
    var stopped: int
    var messages: seq<MsgId>
    var modifyQueue: seq<Waiter>
    var waiting: int
    var dereferenceQueue: seq<Waiter>
    var dereferences: int

    ghost predicate Valid()
      reads this
    {
      messageMax == CAPACITY
    }

    /** The record as a value. */
    function View(): Box
      reads this
    {
      Box(owner, messageCount, stopped, messages, waiting, modifyQueue, dereferences, dereferenceQueue)
    }

    constructor (owner: int)
      ensures Valid() && this.owner == owner && View() == Created(owner)
    {
      this.owner := owner;
      messageCount := 0;
      messageMax := 32;
      stopped := 0;
      waiting := 0;
      messages := [];
      modifyQueue := [];
      dereferenceQueue := [];
      dereferences := 0;
    }

    /** mailbox_full */
    method IsFull() returns (full: bool)
      requires Valid()
      ensures full == Full(View())
    {
      full := messageCount >= messageMax;
    }

    /** wake_up_locked on the mailbox queue */
    method WakeUpLocked()
      modifies this`modifyQueue
      ensures modifyQueue == WakeOne(old(modifyQueue))
    {
      modifyQueue := WakeUp(modifyQueue);
    }

    /** The lock is taken again after a sleep: the fields hold what others left there. */
    method Relock(found: Box)
      requires found.owner == owner
      modifies this
      ensures View() == found && messageMax == old(messageMax)
    {
      messageCount, stopped, messages := found.count, found.stopped, found.messages;
      waiting, modifyQueue := found.waiting, found.queue;
      dereferences, dereferenceQueue := found.derefs, found.derefQueue;
    }

    /** list_add or list_add_tail, and the rest of a successful add */
    method LinkMessage(m: MsgId, head: bool)
      modifies this
      ensures View() == Link(old(View()), m, head) && messageMax == old(messageMax)
    {
      if head {
        messages := [m] + messages;
      } else {
        messages := messages + [m];
      }
      messageCount := messageCount + 1;
      WakeUpLocked();
    }

    method UnlinkMessage() returns (r: Outcome)
      modifies this
      ensures (View(), r) == (Unlink(old(View())).0, OutcomeOf(Unlink(old(View())).1)) && messageMax == old(messageMax)
    {
      if messages == [] {
        r := Garbage;
      } else {
        r := Received(messages[0]);
        messages := messages[1..];
      }
      messageCount := messageCount - 1;
      WakeUpLocked();
    }

    method LeaveWait()
      modifies this
      ensures View() == StopWaiting(old(View())) && messageMax == old(messageMax)
    {
      waiting := waiting - 1;
      WakeUpLocked();
    }

    /** mailbox_add_message */
    method AddMessage(me: Tid, m: MsgId, block: bool, head: bool, script: seq<Nap>) returns (r: Outcome)
      requires Valid() && forall i :: 0 <= i < |script| ==> script[i].found.owner == owner
      modifies this
      ensures Valid()
      ensures (View(), r) == (AddCall(old(View()), me, m, block, head, script).0,
                              OutcomeOf(AddCall(old(View()), me, m, block, head, script).1))
    {
      if stopped != 0 {
        return Returned(MAILBOX_STOPPED);
      }
      var full := IsFull();
      if full {
        if !block {
          return Returned(MAILBOX_FULL);
        }
        waiting := waiting + 1;
        ghost var goal := AddNaps(View(), me, m, head, script);
        var i := 0;
        while stopped == 0 && full
          invariant Valid() && full == Full(View())
          invariant 0 <= i <= |script|
          invariant AddNaps(View(), me, m, head, script[i..]) == goal
          decreases |script| - i
        {
          assert script[i..] != [] ==> script[i..][0] == script[i] && script[i..][1..] == script[i + 1..];
          if i < |script| && script[i].signal {
            LeaveWait();
            return Returned(MAILBOX_ERROR);
          }
          modifyQueue := modifyQueue + [Waiter(me, true)];
          if i == |script| {
            return Asleep;
          }
          Relock(script[i].found);
          full := IsFull();
          i := i + 1;
        }
        LeaveWait();
        if stopped != 0 {
          return Returned(MAILBOX_STOPPED);
        }
      }
      LinkMessage(m, head);
      r := Returned(0);
    }

    /** mailbox_remove_message */
    method RemoveMessage(me: Tid, block: bool, script: seq<Nap>) returns (r: Outcome)
      requires Valid() && forall i :: 0 <= i < |script| ==> script[i].found.owner == owner
      modifies this
      ensures Valid()
      ensures (View(), r) == (RemoveCall(old(View()), me, block, script).0,
                              OutcomeOf(RemoveCall(old(View()), me, block, script).1))
    {
      if stopped != 0 && messageCount == 0 {
        return Returned(MAILBOX_STOPPED);
      }
      if messageCount == 0 {
        if !block {
          return Returned(MAILBOX_EMPTY);
        }
        waiting := waiting + 1;
        ghost var goal := RemoveNaps(View(), me, script);
        var i := 0;
        while stopped == 0 && messageCount == 0
          invariant Valid()
          invariant 0 <= i <= |script|
          invariant RemoveNaps(View(), me, script[i..]) == goal
          decreases |script| - i
        {
          assert script[i..] != [] ==> script[i..][0] == script[i] && script[i..][1..] == script[i + 1..];
          if i < |script| && script[i].signal {
            LeaveWait();
            return Returned(MAILBOX_ERROR);
          }
          modifyQueue := modifyQueue + [Waiter(me, true)];
          if i == |script| {
            return Asleep;
          }
          Relock(script[i].found);
          i := i + 1;
        }
        LeaveWait();
        if stopped != 0 && messageCount == 0 {
          return Returned(MAILBOX_STOPPED);
        }
      }
      r := UnlinkMessage();
    }

    /** __mailbox_stop */
    method Stop(status: int)
      modifies this
      ensures View() == Halt(old(View()), status) && messageMax == old(messageMax)
    {
      stopped := status;
      WakeUpLocked();
    }

    /** The locked part of mailbox_destroy: false if the deletion thread went to sleep. The
        flush frees every linked message, once, and nothing else. */
    method FlushMessages(me: Tid, store: Store) returns (done: bool)
      requires forall i, j :: 0 <= i < j < |messages| ==> messages[i] != messages[j]
      requires forall i :: 0 <= i < |messages| ==> messages[i] in store.Live()
      modifies this, store
      ensures (View(), done) == Destroy(old(View()), me)
      ensures store.objects == if done then old(store.objects) - (set m | m in old(messages)) else old(store.objects)
    {
      if waiting != 0 {
        modifyQueue := modifyQueue + [Waiter(me, false)];
        return false;
      }
      ghost var freed := 0;
      while messages != []
        invariant 0 <= freed <= |old(messages)| && messages == old(messages)[freed..]
        invariant View() == old(View()).(messages := messages)
        invariant store.objects == old(store.objects) - (set i | 0 <= i < freed :: old(messages)[i])
        decreases |messages|
      {
        var m := messages[0];
        messages := messages[1..];
        store.Destroy(m);
        freed := freed + 1;
      }
      assert (set i | 0 <= i < freed :: old(messages)[i]) == (set m | m in old(messages));
      done := true;
    }

    /** claim_mailbox */
    method Claim()
      modifies this`dereferences
      ensures View() == MailboxSpec.Claim(old(View()))
    {
      dereferences := dereferences + 1;
    }

    /** unclaim_mailbox */
    method Unclaim()
      modifies this`dereferences, this`dereferenceQueue
      ensures View() == MailboxSpec.Unclaim(old(View()))
    {
      dereferences := dereferences - 1;
      if dereferences == 0 {
        dereferenceQueue := WakeUp(dereferenceQueue);
      }
    }

    /** wait_until_mailbox_unclaimed, up to its return or its sleep */
    method AwaitUnclaimed(me: Tid) returns (done: bool)
      modifies this`dereferenceQueue
      ensures (View(), done) == MailboxSpec.AwaitUnclaimed(old(View()), me)
    {
      done := dereferences == 0;
      if !done {
        dereferenceQueue := dereferenceQueue + [Waiter(me, true)];
      }
    }
  }
}
