/**
 The invariant of the whole module and the proof that every step keeps it. No assumption is
 made about how many deletions are scheduled for one mailbox.
 */
module Invariant {
  import opened Codes
  import opened WaitQueues
  import opened MailboxSpec
  import opened BoxInvariant
  import opened Protocol
  import opened Tallies

  predicate PastUnlink(d: DeletePc) { !d.Start? && !d.Polling? }

  predicate PastFlush(d: DeletePc) { d.Flushed? || d.WaitClaims? || d.Unclaimed? || d.Gone? }

  /** What a deletion thread may rely on about its mailbox. */
  ghost predicate DeleterOk(d: DeletePc, slot: Slot, linked: bool) {
    && slot.box.stopped != 0
    && (d.Polling? ==> d.pid == slot.box.owner)
    && (PastUnlink(d) ==> !linked)
    && (PastFlush(d) ==> slot.log.flushed)
    && (d.Unclaimed? || d.Gone? ==> slot.box.derefs == 0)
    && (d.Gone? ==> slot.log.freed)
  }

  ghost predicate DeletersOk(ts: seq<Thread>, slot: Slot, b: BoxId, linked: bool) {
    && (forall t :: 0 <= t < |ts| && ts[t].Deleter? && ts[t].b == b ==> DeleterOk(ts[t].d, slot, linked))
    && (slot.log.freed ==> exists t :: 0 <= t < |ts| && ts[t] == Deleter(b, Gone))
  }

  /** Exact counts: dereferences is the number of tasks between claim and unclaim, waiting
      the number of tasks inside the two wait sections. */
  ghost predicate CountsOk(ts: seq<Thread>, x: Box, b: BoxId) {
    && x.derefs == Sum(ts, ClaimsOn(b))
    && x.waiting == Sum(ts, WaitsOn(b))
  }

  ghost predicate QueuesOk(ts: seq<Thread>, x: Box, b: BoxId) {
    && QueueOk(x.queue, ts, b)
    && ClaimQueueOk(x.derefQueue, ts, b)
    && (x.derefs == 0 && x.derefQueue != [] ==> |x.derefQueue| < Sum(ts, DeletesOf(b)))
  }

  ghost predicate BoxOk(ts: seq<Thread>, slot: Slot, b: BoxId, linked: bool) {
    && Sound(slot.box, slot.log.flushed)
    && CountsOk(ts, slot.box, b)
    && QueuesOk(ts, slot.box, b)
    && DeletersOk(ts, slot, b, linked)
  }

  /** The table leads from the owner's pid to this mailbox. */
  predicate Linked(s: System, b: BoxId)
    requires b < |s.boxes|
  {
    var pid := s.boxes[b].box.owner;
    pid in s.table && s.table[pid] == b
  }

  ghost predicate ThreadsOk(s: System) {
    forall t :: 0 <= t < |s.threads| && (s.threads[t].User? || s.threads[t].Deleter?) ==> s.threads[t].b < |s.boxes|
  }

  ghost predicate TableOwned(s: System) {
    forall pid :: pid in s.table ==> s.table[pid] < |s.boxes| && s.boxes[s.table[pid]].box.owner == pid
  }

  ghost predicate Inv(s: System) {
    && ThreadsOk(s)
    && TableOwned(s)
    && forall b :: 0 <= b < |s.boxes| ==> BoxOk(s.threads, s.boxes[b], b, Linked(s, b))
  }

  // ---------------------------------------------------------------- frames

  /** A task that has nothing to do with b, before and after its step, leaves b alone. */
  lemma FrameMove(ts: seq<Thread>, t: Tid, th: Thread, slot: Slot, b: BoxId, linked: bool)
    requires BoxOk(ts, slot, b, linked)
    requires t < |ts| && !About(ts[t], b) && !About(th, b)
    ensures BoxOk(ts[t := th], slot, b, linked)
  {
    SumUpdate(ts, t, th, ClaimsOn(b));
    SumUpdate(ts, t, th, WaitsOn(b));
    SumUpdate(ts, t, th, DeletesOf(b));
    var us := ts[t := th];
    if slot.log.freed {
      var u :| 0 <= u < |ts| && ts[u] == Deleter(b, Gone);
      assert us[u] == Deleter(b, Gone);
    }
  }

  lemma FrameAppend(ts: seq<Thread>, th: Thread, slot: Slot, b: BoxId, linked: bool)
    requires BoxOk(ts, slot, b, linked)
    requires !About(th, b)
    ensures BoxOk(ts + [th], slot, b, linked)
  {
    SumAppend(ts, th, ClaimsOn(b));
    SumAppend(ts, th, WaitsOn(b));
    SumAppend(ts, th, DeletesOf(b));
    var us := ts + [th];
    if slot.log.freed {
      var u :| 0 <= u < |ts| && ts[u] == Deleter(b, Gone);
      assert us[u] == Deleter(b, Gone);
    }
  }

  /** A step of one task on one mailbox keeps the invariant if it keeps it there. */
  lemma MoveInv(s: System, s': System, t: Tid, b: BoxId)
    requires Inv(s) && t < |s.threads| && b < |s.boxes|
    requires forall c :: c != b ==> !About(s.threads[t], c)
    requires |s'.threads| == |s.threads| && s'.threads == s.threads[t := s'.threads[t]]
    requires forall c :: c != b ==> !About(s'.threads[t], c)
    requires |s'.boxes| == |s.boxes| && s'.boxes == s.boxes[b := s'.boxes[b]]
    requires s'.boxes[b].box.owner == s.boxes[b].box.owner
    requires s'.table == s.table
    requires BoxOk(s'.threads, s'.boxes[b], b, Linked(s, b))
    ensures Inv(s')
  {
    if s'.threads[t].User? || s'.threads[t].Deleter? {
      assert About(s'.threads[t], s'.threads[t].b);
    }
    forall c | 0 <= c < |s'.boxes| ensures BoxOk(s'.threads, s'.boxes[c], c, Linked(s', c)) {
      if c != b {
        FrameMove(s.threads, t, s'.threads[t], s.boxes[c], c, Linked(s, c));
      }
    }
  }

  // ---------------------------------------------------------------- one mailbox

  /** Any section a claiming task runs and after which it still claims. */
  lemma UserMove(ts: seq<Thread>, t: Tid, th: Thread, slot: Slot, slot': Slot, b: BoxId, linked: bool)
    requires BoxOk(ts, slot, b, linked)
    requires t < |ts| && ts[t].User? && ts[t].b == b && th.User? && th.b == b
    requires !Queued(slot.box.queue, t)
    requires Sound(slot'.box, slot'.log.flushed) && SameClaims(slot.box, slot'.box)
    requires slot'.log.flushed == slot.log.flushed && slot'.log.freed == slot.log.freed
    requires slot.box.stopped != 0 ==> slot'.box.stopped != 0
    requires slot'.box.waiting == slot.box.waiting - Weight(WaitsOn(b), ts[t]) + Weight(WaitsOn(b), th)
    requires WokenOnly(slot.box, slot'.box)
          || (slot'.box.queue == slot.box.queue + [Waiter(t, true)] && Waits(th, b))
    ensures BoxOk(ts[t := th], slot', b, linked)
  {
    var us := ts[t := th];
    SumUpdate(ts, t, th, ClaimsOn(b));
    SumUpdate(ts, t, th, WaitsOn(b));
    SumUpdate(ts, t, th, DeletesOf(b));
    QueueMove(ts, t, th, slot.box.queue, slot'.box.queue, b);
    assert ClaimQueueOk(slot'.box.derefQueue, us, b);
    DeletersMove(ts, t, th, slot, slot', b, linked);
  }

  lemma QueueMove(ts: seq<Thread>, t: Tid, th: Thread, q: seq<Waiter>, r: seq<Waiter>, b: BoxId)
    requires t < |ts| && QueueOk(q, ts, b) && !Queued(q, t)
    requires (|r| <= |q| && r == q[|q| - |r|..]) || (r == q + [Waiter(t, true)] && Waits(th, b))
          || (r == q + [Waiter(t, false)] && th == Deleter(b, WaitWaiters))
    ensures QueueOk(r, ts[t := th], b)
  {
  }

  /** Deletion threads other than t keep what they rely on. */
  lemma DeletersMove(ts: seq<Thread>, t: Tid, th: Thread, slot: Slot, slot': Slot, b: BoxId, linked: bool)
    requires DeletersOk(ts, slot, b, linked)
    requires t < |ts| && ts[t] != Deleter(b, Gone)
    requires th.Deleter? && th.b == b ==> DeleterOk(th.d, slot', linked)
    requires slot'.log.flushed == slot.log.flushed || slot'.log.flushed
    requires slot'.log.freed == slot.log.freed || (slot'.log.freed && th == Deleter(b, Gone))
    requires slot'.box.owner == slot.box.owner
    requires slot.box.stopped != 0 ==> slot'.box.stopped != 0
    requires slot.box.derefs == 0 ==> slot'.box.derefs == 0
    ensures DeletersOk(ts[t := th], slot', b, linked)
  {
    var us := ts[t := th];
    if slot'.log.freed {
      if slot.log.freed {
        var u :| 0 <= u < |ts| && ts[u] == Deleter(b, Gone);
        assert us[u] == Deleter(b, Gone);
      } else {
        assert us[t] == Deleter(b, Gone);
      }
    }
  }

  /** A deletion thread's section that stays with its mailbox. */
  lemma DeleterMove(ts: seq<Thread>, t: Tid, th: Thread, slot: Slot, slot': Slot, b: BoxId, linked: bool)
    requires BoxOk(ts, slot, b, linked)
    requires t < |ts| && ts[t].Deleter? && ts[t].b == b && th.Deleter? && th.b == b && !ts[t].d.Gone?
    requires !Queued(slot.box.queue, t) && !Queued(slot.box.derefQueue, t)
    requires Sound(slot'.box, slot'.log.flushed)
    requires slot'.box.owner == slot.box.owner
    requires slot'.box.derefs == slot.box.derefs && slot'.box.waiting == slot.box.waiting
    requires slot.box.stopped != 0 ==> slot'.box.stopped != 0
    requires slot'.log.flushed == slot.log.flushed || slot'.log.flushed
    requires slot'.log.freed == slot.log.freed || (slot'.log.freed && th == Deleter(b, Gone))
    requires WokenOnly(slot.box, slot'.box)
          || (slot'.box.queue == slot.box.queue + [Waiter(t, false)] && th == Deleter(b, WaitWaiters))
    requires slot'.box.derefQueue == slot.box.derefQueue
          || (slot'.box.derefQueue == slot.box.derefQueue + [Waiter(t, true)]
              && th == Deleter(b, WaitClaims) && slot.box.derefs != 0)
    requires DeleterOk(th.d, slot', linked)
    ensures BoxOk(ts[t := th], slot', b, linked)
  {
    var us := ts[t := th];
    SumUpdate(ts, t, th, ClaimsOn(b));
    SumUpdate(ts, t, th, WaitsOn(b));
    SumUpdate(ts, t, th, DeletesOf(b));
    QueueMove(ts, t, th, slot.box.queue, slot'.box.queue, b);
    ClaimQueueMove(ts, t, th, slot.box.derefQueue, slot'.box.derefQueue, b);
    DeletersMove(ts, t, th, slot, slot', b, linked);
  }

  lemma ClaimQueueMove(ts: seq<Thread>, t: Tid, th: Thread, q: seq<Waiter>, r: seq<Waiter>, b: BoxId)
    requires t < |ts| && ClaimQueueOk(q, ts, b) && !Queued(q, t)
    requires r == q || (r == q + [Waiter(t, true)] && th == Deleter(b, WaitClaims))
    ensures ClaimQueueOk(r, ts[t := th], b)
  {
  }

  /** A task that is not inside a wait is on no queue. */
  lemma NotQueued(ts: seq<Thread>, x: Box, b: BoxId, t: Tid)
    requires QueuesOk(ts, x, b) && t < |ts|
    ensures !Waits(ts[t], b) && ts[t] != Deleter(b, WaitWaiters) ==> !Queued(x.queue, t)
    ensures ts[t] != Deleter(b, WaitClaims) ==> !Queued(x.derefQueue, t)
  {
  }
}
