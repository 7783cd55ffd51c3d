/**
 What every critical section keeps true of its mailbox, whatever the other tasks did
 before it.
 */
module BoxInvariant {
  import opened Codes
  import opened WaitQueues
  import opened MailboxSpec

  /**
   - The stop word is one of the three values the code stores.
   - Until the flush the count is the length of the list and at most the capacity.
   - After the flush the list is empty, the mailbox is stopped and nobody waits.
   - On a stopped mailbox a sleeping sender or receiver always has a woken one ahead of it
     (fewer sleep than wait), so the wake-ups cascade.
   - A deletion thread sleeps on the queue only while somebody waits.
   */
  predicate Sound(x: Box, flushed: bool) {
    && (x.stopped == 0 || x.stopped == STOPPED || x.stopped == EXITING_AND_STOPPED)
    && 0 <= x.count <= CAPACITY
    && (if flushed then x.messages == [] && x.stopped != 0 && x.waiting == 0 else x.count == |x.messages|)
    && Exclusives(x.queue) <= x.waiting
    && (x.stopped != 0 && Exclusives(x.queue) > 0 ==> Exclusives(x.queue) < x.waiting)
    && (Others(x.queue) > 0 ==> x.waiting > 0)
  }

  predicate SameClaims(x: Box, y: Box) {
    y.owner == x.owner && y.derefs == x.derefs && y.derefQueue == x.derefQueue
  }

  /** y's queue is what wake-ups left of x's. */
  predicate WokenOnly(x: Box, y: Box) {
    |y.queue| <= |x.queue| && y.queue == x.queue[|x.queue| - |y.queue|..]
  }

  /** The net effect of a section run by t: it joins the queue exactly if it slept. */
  predicate QueueEffect(x: Box, y: Box, t: Tid, v: Verdict) {
    if v.Slept? then y.queue == x.queue + [Waiter(t, true)] else WokenOnly(x, y)
  }

  lemma WokenOnlyTransitive(x: Box, y: Box, z: Box)
    requires WokenOnly(x, y) && WokenOnly(y, z)
    ensures WokenOnly(x, z)
  {
  }

  lemma WakeSound(x: Box, flushed: bool)
    requires Sound(x, flushed)
    ensures Sound(x.(queue := WakeOne(x.queue)), flushed) && WokenOnly(x, x.(queue := WakeOne(x.queue)))
  {
    WakeOneCounts(x.queue);
  }

  lemma HaltSound(x: Box, flushed: bool, status: int)
    requires Sound(x, flushed) && (status == STOPPED || status == EXITING_AND_STOPPED)
    ensures Sound(Halt(x, status), flushed) && WokenOnly(x, Halt(x, status))
  {
    WakeOneCounts(x.queue);
  }

  /** The way out of a wait keeps the cascade going: it wakes the next one. */
  lemma StopWaitingSound(x: Box, flushed: bool)
    requires Sound(x, flushed) && Exclusives(x.queue) < x.waiting
    ensures Sound(StopWaiting(x), flushed) && WokenOnly(x, StopWaiting(x))
  {
    WakeOneCounts(x.queue);
  }

  lemma AddWaitSound(x: Box, t: Tid, m: MsgId, head: bool, sig: bool, flushed: bool)
    requires Sound(x, flushed) && Exclusives(x.queue) < x.waiting
    ensures var (y, v) := AddWait(x, t, m, head, sig);
            && Sound(y, flushed) && SameClaims(x, y) && QueueEffect(x, y, t, v)
            && y.stopped == x.stopped
            && y.waiting == x.waiting - (if v.Slept? then 0 else 1)
            && (v.Slept? || v.Done?)
  {
    if CanAdd(x) {
      StopWaitingSound(x, flushed);
      var y := StopWaiting(x);
      WakeSound(y, flushed);
      WokenOnlyTransitive(x, y, Link(y, m, head));
    } else if sig {
      StopWaitingSound(x, flushed);
    } else {
      AppendCounts(x.queue, Waiter(t, true));
    }
  }

  lemma AddEnterSound(x: Box, t: Tid, m: MsgId, block: bool, head: bool, sig: bool, flushed: bool)
    requires Sound(x, flushed)
    ensures var (y, v) := AddEnter(x, t, m, block, head, sig);
            && Sound(y, flushed) && SameClaims(x, y) && QueueEffect(x, y, t, v)
            && y.stopped == x.stopped
            && y.waiting == x.waiting + (if v.Slept? then 1 else 0)
            && (v.Slept? || v.Done?)
  {
    WakeSound(x, flushed);
    if x.stopped == 0 && Full(x) && block {
      AddWaitSound(x.(waiting := x.waiting + 1), t, m, head, sig, flushed);
    }
  }

  lemma UnlinkSound(x: Box, flushed: bool)
    requires Sound(x, flushed) && x.count != 0
    ensures var (y, v) := Unlink(x);
            && Sound(y, flushed) && SameClaims(x, y) && WokenOnly(x, y)
            && y.stopped == x.stopped && y.waiting == x.waiting
            && (v.Took? || v.Phantom?)
  {
    WakeOneCounts(x.queue);
  }

  lemma RemoveWaitSound(x: Box, t: Tid, sig: bool, flushed: bool)
    requires Sound(x, flushed) && Exclusives(x.queue) < x.waiting
    ensures var (y, v) := RemoveWait(x, t, sig);
            && Sound(y, flushed) && SameClaims(x, y) && QueueEffect(x, y, t, v)
            && y.stopped == x.stopped
            && y.waiting == x.waiting - (if v.Slept? then 0 else 1)
  {
    if CanRemove(x) {
      StopWaitingSound(x, flushed);
      var y := StopWaiting(x);
      if y.count != 0 {
        UnlinkSound(y, flushed);
        WokenOnlyTransitive(x, y, Unlink(y).0);
      }
    } else if sig {
      StopWaitingSound(x, flushed);
    } else {
      AppendCounts(x.queue, Waiter(t, true));
    }
  }

  lemma RemoveEnterSound(x: Box, t: Tid, block: bool, sig: bool, flushed: bool)
    requires Sound(x, flushed)
    ensures var (y, v) := RemoveEnter(x, t, block, sig);
            && Sound(y, flushed) && SameClaims(x, y) && QueueEffect(x, y, t, v)
            && y.stopped == x.stopped
            && y.waiting == x.waiting + (if v.Slept? then 1 else 0)
  {
    if x.count != 0 {
      UnlinkSound(x, flushed);
    } else if x.stopped == 0 && block {
      RemoveWaitSound(x.(waiting := x.waiting + 1), t, sig, flushed);
    }
  }

  lemma DestroySound(x: Box, t: Tid, flushed: bool)
    requires Sound(x, flushed) && x.stopped != 0
    ensures var (y, done) := Destroy(x, t);
            && Sound(y, flushed || done) && SameClaims(x, y) && y.waiting == x.waiting
            && y.stopped == x.stopped
            && (done ==> x.queue == y.queue && y.waiting == 0)
            && (!done ==> y.queue == x.queue + [Waiter(t, false)])
  {
    AppendCounts(x.queue, Waiter(t, false));
  }

  lemma InterruptSound(x: Box, i: nat, flushed: bool)
    requires Sound(x, flushed) && i < |x.queue| && x.queue[i].exclusive
    ensures Sound(x.(queue := Drop(x.queue, i)), flushed)
  {
    DropCounts(x.queue, i);
  }
}
