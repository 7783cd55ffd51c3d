/**
 What each critical section does to its mailbox, as a relation between the mailbox before
 and after: which verdict in which case, what happens to the list, the count and the waiters,
 and who is woken. The relations count sleepers; they do not mention how a wake-up is done.
 */
module Sections {
  import opened Codes
  import opened WaitQueues
  import opened MailboxSpec

  // ---------------------------------------------------------------- wake-ups

  /** r is what n wake-ups leave of q: the first n exclusive tasks are gone, with everybody ahead
      of them; if there were fewer than n, everybody is gone. */
  ghost predicate Woken(q: seq<Waiter>, r: seq<Waiter>, n: nat) {
    && |r| <= |q| && r == q[|q| - |r|..]
    && var k := |q| - |r|;
       if Exclusives(q) < n then k == |q|
       else Exclusives(q[..k]) == n && (if n == 0 then k == 0 else k > 0 && q[k - 1].exclusive)
  }

  lemma {:induction false} SplitCounts(p: seq<Waiter>, q: seq<Waiter>)
    ensures Exclusives(p + q) == Exclusives(p) + Exclusives(q)
  {
    if p == [] {
      assert p + q == q;
    } else {
      SplitCounts(p[1..], q);
      assert (p + q)[1..] == p[1..] + q;
    }
  }

  lemma {:induction false} NoneExclusive(q: seq<Waiter>)
    requires forall i :: 0 <= i < |q| ==> !q[i].exclusive
    ensures Exclusives(q) == 0
  {
    if q != [] { NoneExclusive(q[1..]); }
  }

  lemma WokenNone(q: seq<Waiter>)
    ensures Woken(q, q, 0)
  {
    assert q[..0] == [] && q[0..] == q;
  }

  /** The tasks one wake-up takes off a queue that has an exclusive task: that one is the last. */
  lemma WokenFront(r: seq<Waiter>)
    requires Exclusives(r) > 0
    ensures |WakeOne(r)| < |r|
    ensures var j := |r| - |WakeOne(r)|; r[j - 1].exclusive && Exclusives(r[..j]) == 1
  {
    WakeOnePrefix(r);
    WakeOneCounts(r);
    hide WakeOne;
    var j := |r| - |WakeOne(r)|;
    if !r[j - 1].exclusive {
      NoneExclusive(r);
      assert false;
    }
    NoneExclusive(r[..j - 1]);
    AppendCounts(r[..j - 1], r[j - 1]);
    assert r[..j] == r[..j - 1] + [r[j - 1]];
  }

  /** One more wake-up. */
  lemma WokenMore(q: seq<Waiter>, r: seq<Waiter>, n: nat)
    requires Woken(q, r, n)
    ensures Woken(q, WakeOne(r), n + 1)
  {
    var z := WakeOne(r);
    WakeOneCounts(r);
    if Exclusives(r) > 0 { WokenFront(r); }
    hide WakeOne;
    hide Exclusives;
    var k, j := |q| - |r|, |r| - |z|;
    assert q == q[..k] + r;
    SplitCounts(q[..k], r);
    assert z == q[k + j..];
    if Exclusives(q) > n {
      assert q[..k + j] == q[..k] + r[..j];
      SplitCounts(q[..k], r[..j]);
      assert q[k + j - 1] == r[j - 1];
    }
  }

  lemma WokenOnce(q: seq<Waiter>)
    ensures Woken(q, WakeOne(q), 1)
    ensures Woken(q, WakeOne(WakeOne(q)), 2)
  {
    WokenNone(q);
    WokenMore(q, q, 0);
    WokenMore(q, WakeOne(q), 1);
  }

  /** The first exclusive task on the queue. */
  ghost predicate FirstExclusive(q: seq<Waiter>, i: nat) {
    i < |q| && q[i].exclusive && forall j :: 0 <= j < i ==> !q[j].exclusive
  }

  /** A wake-up releases the first exclusive task, and one exclusive task per wake-up. */
  lemma WokenFirst(q: seq<Waiter>, r: seq<Waiter>, n: nat, i: nat)
    requires Woken(q, r, n) && n > 0 && FirstExclusive(q, i)
    ensures |r| < |q| - i
    ensures Exclusives(r) == if Exclusives(q) < n then 0 else Exclusives(q) - n
  {
    var k := |q| - |r|;
    assert q == q[..k] + r;
    SplitCounts(q[..k], r);
  }

  // ---------------------------------------------------------------- add

  /** mailbox_add_message between two points where it holds the lock: from its entry, or
      (`waited`) from a wake-up, to its return or its next sleep. */
  ghost predicate AddDoes(x: Box, y: Box, v: Verdict, t: Tid, m: MsgId, block: bool, head: bool, sig: bool, waited: bool) {
    var open, full := x.stopped == 0, x.count >= CAPACITY;
    && (v == Done(MAILBOX_STOPPED) <==> !open)
    && (v == Done(0) <==> open && !full)
    && (v == Done(MAILBOX_FULL) <==> open && full && !block)
    && (v == Done(MAILBOX_ERROR) <==> open && full && block && sig)
    && (v == Slept <==> open && full && block && !sig)
    && y.messages == (if v != Done(0) then x.messages else if head then [m] + x.messages else x.messages + [m])
    && y.count == (if v == Done(0) then x.count + 1 else x.count)
    && y.waiting == x.waiting + (if v.Slept? then 1 else 0) - (if waited then 1 else 0)
    && (if v.Slept? then y.queue == x.queue + [Waiter(t, true)]
        else Woken(x.queue, y.queue, (if v == Done(0) then 1 else 0) + (if waited || v == Done(MAILBOX_ERROR) then 1 else 0)))
    && SameElse(x, y)
  }

  /** The fields no add or remove touches. */
  predicate SameElse(x: Box, y: Box) {
    y.owner == x.owner && y.stopped == x.stopped && y.derefs == x.derefs && y.derefQueue == x.derefQueue
  }

  lemma AddEnterDoes(x: Box, t: Tid, m: MsgId, block: bool, head: bool, sig: bool)
    ensures var (y, v) := AddEnter(x, t, m, block, head, sig); AddDoes(x, y, v, t, m, block, head, sig, false)
  {
    WokenNone(x.queue);
    WokenOnce(x.queue);
    hide Woken;
    hide WakeOne;
  }

  lemma AddWaitDoes(x: Box, t: Tid, m: MsgId, head: bool, sig: bool)
    ensures var (y, v) := AddWait(x, t, m, head, sig); AddDoes(x, y, v, t, m, true, head, sig, true)
  {
    WokenOnce(x.queue);
    hide Woken;
    hide WakeOne;
  }

  // ---------------------------------------------------------------- remove

  /** mailbox_remove_message between two points where it holds the lock. */
  ghost predicate RemoveDoes(x: Box, y: Box, v: Verdict, t: Tid, block: bool, sig: bool, waited: bool) {
    var open, none := x.stopped == 0, x.count == 0;
    && (v == Done(MAILBOX_STOPPED) <==> !open && none)
    && (v.Took? <==> !none && x.messages != [])
    && (v.Phantom? <==> !none && x.messages == [])
    && (v == Done(MAILBOX_EMPTY) <==> open && none && !block)
    && (v == Done(MAILBOX_ERROR) <==> open && none && block && sig)
    && (v == Slept <==> open && none && block && !sig)
    && (if v.Took? then x.messages == [v.m] + y.messages else y.messages == x.messages)
    && y.count == (if none then x.count else x.count - 1)
    && y.waiting == x.waiting + (if v.Slept? then 1 else 0) - (if waited then 1 else 0)
    && (if v.Slept? then y.queue == x.queue + [Waiter(t, true)]
        else Woken(x.queue, y.queue, (if none then 0 else 1) + (if waited || v == Done(MAILBOX_ERROR) then 1 else 0)))
    && SameElse(x, y)
  }

  lemma RemoveEnterDoes(x: Box, t: Tid, block: bool, sig: bool)
    ensures var (y, v) := RemoveEnter(x, t, block, sig); RemoveDoes(x, y, v, t, block, sig, false)
  {
    WokenNone(x.queue);
    WokenOnce(x.queue);
    hide Woken;
    hide WakeOne;
  }

  lemma RemoveWaitDoes(x: Box, t: Tid, sig: bool)
    ensures var (y, v) := RemoveWait(x, t, sig); RemoveDoes(x, y, v, t, true, sig, true)
  {
    WokenOnce(x.queue);
    hide Woken;
    hide WakeOne;
  }

  // ---------------------------------------------------------------- the other sections

  /** A new mailbox is open and empty, and nobody waits for it or holds it. */
  lemma CreatedDoes(owner: int)
    ensures var x := Created(owner);
            && x.owner == owner && x.stopped == 0 && x.count == 0 && x.messages == []
            && x.waiting == 0 && x.queue == [] && x.derefs == 0 && x.derefQueue == []
  {
  }

  /** A stop stores the whole word, gives one wake-up and changes nothing else. */
  lemma HaltDoes(x: Box, status: int)
    ensures var y := Halt(x, status);
            && y.stopped == status && Woken(x.queue, y.queue, 1)
            && y == x.(stopped := y.stopped, queue := y.queue)
  {
    WokenOnce(x.queue);
  }

  /** The destroyer flushes exactly if nobody waits, and then leaves the count as it is;
      otherwise it joins the queue, not exclusively. */
  lemma DestroyDoes(x: Box, t: Tid)
    ensures var (y, done) := Destroy(x, t);
            && (done <==> x.waiting == 0)
            && y.messages == (if done then [] else x.messages)
            && y.queue == (if done then x.queue else x.queue + [Waiter(t, false)])
            && y == x.(messages := y.messages, queue := y.queue)
  {
  }

  /** A claim and its end: the count by one, and one wake-up exactly when it reaches zero. */
  lemma ClaimsDo(x: Box)
    ensures MailboxSpec.Claim(x).derefs == x.derefs + 1 && MailboxSpec.Claim(x) == x.(derefs := x.derefs + 1)
    ensures var y := Unclaim(x);
            && y.derefs == x.derefs - 1 && Woken(x.derefQueue, y.derefQueue, if x.derefs == 1 then 1 else 0)
            && y == x.(derefs := y.derefs, derefQueue := y.derefQueue)
  {
    WokenOnce(x.derefQueue);
    WokenNone(x.derefQueue);
  }

  /** The wait for claims is over exactly at zero; otherwise the task joins the queue, exclusively. */
  lemma AwaitDoes(x: Box, t: Tid)
    ensures var (y, done) := AwaitUnclaimed(x, t);
            && (done <==> x.derefs == 0)
            && y.derefQueue == (if done then x.derefQueue else x.derefQueue + [Waiter(t, true)])
            && y == x.(derefQueue := y.derefQueue)
  {
  }
}
