/**
 Counting tasks by where they stand, and the pigeonhole arguments that tie a wait queue to
 the tasks that sleep on it.
 */
module Tallies {
  import opened WaitQueues
  import opened MailboxSpec
  import opened Protocol

  /** What to count: claims on a mailbox, tasks inside its two wait sections, holders of a
      message, deletion threads of a mailbox, and the work tasks still have to do on a
      stopped mailbox. */
  datatype Tally = ClaimsOn(b: BoxId) | WaitsOn(b: BoxId) | HoldersOf(m: MsgId)
                 | DeletesOf(b: BoxId) | WorkOn(b: BoxId)

  predicate About(th: Thread, b: BoxId) {
    (th.User? || th.Deleter?) && th.b == b
  }

  predicate Waits(th: Thread, b: BoxId) {
    th.User? && th.b == b && (th.pc.WaitAdd? || th.pc.WaitRemove?)
  }

  predicate HoldsMessage(th: Thread, m: MsgId) {
    match th
    case Freeing(n) => n == m
    case User(_, Adding(n, _, _)) => n == m
    case User(_, Holding(n)) => n == m
    case User(_, WaitAdd(n, _)) => n == m
    case User(_, Delivered(n)) => n == m
    case _ => false
  }

  /** Steps a call still needs once its mailbox is stopped. */
  function UserWork(pc: UserPc): nat {
    match pc
    case Undefined => 0
    case Leaving(_) => 1
    case Delivered(_) => 1
    case Halting => 2
    case Adding(_, _, _) => 2
    case WaitAdd(_, _) => 2
    case Managing(_) => 3
    case Holding(_) => 3
    case Sending(_) => 3
    case Receiving(_) => 4
    case WaitRemove => 4
  }

  function DeleteWork(d: DeletePc): nat {
    match d
    case Start => 8
    case Polling(_) => 7
    case Unlinked => 6
    case Stopped => 5
    case WaitWaiters => 4
    case Flushed => 3
    case WaitClaims => 2
    case Unclaimed => 1
    case Gone => 0
  }

  function Weight(k: Tally, th: Thread): nat {
    match k
    case ClaimsOn(b) => if th.User? && th.b == b then 1 else 0
    case WaitsOn(b) => if Waits(th, b) then 1 else 0
    case HoldersOf(m) => if HoldsMessage(th, m) then 1 else 0
    case DeletesOf(b) => if th.Deleter? && th.b == b then 1 else 0
    case WorkOn(b) =>
      if th.User? && th.b == b then UserWork(th.pc)
      else if th.Deleter? && th.b == b then DeleteWork(th.d)
      else 0
  }

  function Sum(ts: seq<Thread>, k: Tally): nat {
    if ts == [] then 0 else Weight(k, ts[0]) + Sum(ts[1..], k)
  }

  /** Moving one task changes a count by that task's share. */
  lemma {:induction false} SumUpdate(ts: seq<Thread>, t: Tid, th: Thread, k: Tally)
    requires t < |ts|
    ensures Sum(ts[t := th], k) == Sum(ts, k) - Weight(k, ts[t]) + Weight(k, th)
    ensures Weight(k, ts[t]) <= Sum(ts, k)
  {
    if t == 0 {
      assert ts[0 := th][1..] == ts[1..];
    } else {
      SumUpdate(ts[1..], t - 1, th, k);
      assert ts[t := th][1..] == ts[1..][t - 1 := th];
    }
  }

  lemma {:induction false} SumAppend(ts: seq<Thread>, th: Thread, k: Tally)
    ensures Sum(ts + [th], k) == Sum(ts, k) + Weight(k, th)
  {
    if ts == [] {
      assert ts + [th] == [th];
      assert Sum([th], k) == Weight(k, th) + Sum([], k);
    } else {
      SumAppend(ts[1..], th, k);
      assert (ts + [th])[1..] == ts[1..] + [th];
    }
  }

  lemma {:induction false} SumZero(ts: seq<Thread>, k: Tally)
    requires forall t :: 0 <= t < |ts| ==> Weight(k, ts[t]) == 0
    ensures Sum(ts, k) == 0
  {
    if ts != [] { SumZero(ts[1..], k); }
  }

  /** A positive count has a witness. */
  lemma {:induction false} SumPositive(ts: seq<Thread>, k: Tally) returns (t: Tid)
    requires Sum(ts, k) > 0
    ensures t < |ts| && Weight(k, ts[t]) > 0
  {
    if Weight(k, ts[0]) > 0 {
      t := 0;
    } else {
      t := SumPositive(ts[1..], k);
      t := t + 1;
    }
  }

  /** Two different contributors count twice. */
  lemma SumTwo(ts: seq<Thread>, k: Tally, t: Tid, u: Tid)
    requires t < |ts| && u < |ts| && t != u
    ensures Weight(k, ts[t]) + Weight(k, ts[u]) <= Sum(ts, k)
  {
    SumUpdate(ts, t, Idle(0), k);
    SumUpdate(ts[t := Idle(0)], u, Idle(0), k);
    assert Weight(k, Idle(0)) == 0;
  }

  /** The tasks a tally counts. */
  ghost function Members(ts: seq<Thread>, k: Tally): set<int> {
    set t | 0 <= t < |ts| && Weight(k, ts[t]) > 0
  }

  /** A tally that counts each task at most once is a number of tasks. */
  lemma {:induction false} SumIsCardinality(ts: seq<Thread>, k: Tally)
    requires !k.WorkOn?
    ensures Sum(ts, k) == |Members(ts, k)|
  {
    if ts != [] {
      var n := |ts| - 1;
      var us, th := ts[..n], ts[n];
      assert ts == us + [th];
      SumIsCardinality(us, k);
      SumAppend(us, th, k);
      MembersAppend(us, th, k);
    }
  }

  lemma MembersAppend(ts: seq<Thread>, th: Thread, k: Tally)
    ensures Members(ts + [th], k) == if Weight(k, th) > 0 then Members(ts, k) + {|ts|} else Members(ts, k)
    ensures |Members(ts + [th], k)| == |Members(ts, k)| + (if Weight(k, th) > 0 then 1 else 0)
  {
    hide Weight;
    var us := ts + [th];
    assert forall t :: 0 <= t < |us| ==> us[t] == if t < |ts| then ts[t] else th;
  }

  // ---------------------------------------------------------------- queues

  /** Everyone on the mailbox queue is inside a wait on that mailbox, once. */
  ghost predicate QueueOk(q: seq<Waiter>, ts: seq<Thread>, b: BoxId) {
    && Distinct(q)
    && forall i :: 0 <= i < |q| ==>
         && q[i].tid < |ts|
         && (if q[i].exclusive then Waits(ts[q[i].tid], b) else ts[q[i].tid] == Deleter(b, WaitWaiters))
  }

  ghost predicate ClaimQueueOk(q: seq<Waiter>, ts: seq<Thread>, b: BoxId) {
    && Distinct(q)
    && forall i :: 0 <= i < |q| ==>
         q[i].exclusive && q[i].tid < |ts| && ts[q[i].tid] == Deleter(b, WaitClaims)
  }

  lemma QueueTail(q: seq<Waiter>, ts: seq<Thread>, b: BoxId)
    requires QueueOk(q, ts, b) && q != []
    ensures QueueOk(q[1..], ts[q[0].tid := Idle(0)], b)
  {
  }

  /** No more senders and receivers sleep on the queue than are inside a wait, and no more
      deletion threads than there are. */
  lemma {:induction false} QueuePigeonhole(q: seq<Waiter>, ts: seq<Thread>, b: BoxId)
    requires QueueOk(q, ts, b)
    ensures Exclusives(q) <= Sum(ts, WaitsOn(b))
    ensures Others(q) <= Sum(ts, DeletesOf(b))
    decreases |q|
  {
    if q != [] {
      QueueTail(q, ts, b);
      QueuePigeonhole(q[1..], ts[q[0].tid := Idle(0)], b);
      SumUpdate(ts, q[0].tid, Idle(0), WaitsOn(b));
      SumUpdate(ts, q[0].tid, Idle(0), DeletesOf(b));
    }
  }

  /** A waiter that is off the queue is not among the sleepers. */
  lemma AwakePigeonhole(q: seq<Waiter>, ts: seq<Thread>, b: BoxId, t: Tid)
    requires QueueOk(q, ts, b) && t < |ts| && Waits(ts[t], b) && !Queued(q, t)
    ensures Exclusives(q) < Sum(ts, WaitsOn(b))
  {
    assert QueueOk(q, ts[t := Idle(0)], b);
    QueuePigeonhole(q, ts[t := Idle(0)], b);
    SumUpdate(ts, t, Idle(0), WaitsOn(b));
  }

  /** Conversely, if fewer sleep than wait, some waiter is awake. */
  lemma {:induction false} SomeAwake(q: seq<Waiter>, ts: seq<Thread>, b: BoxId) returns (t: Tid)
    requires QueueOk(q, ts, b) && Exclusives(q) < Sum(ts, WaitsOn(b))
    ensures t < |ts| && Waits(ts[t], b) && !Queued(q, t)
    decreases |q|
  {
    if q == [] {
      t := SumPositive(ts, WaitsOn(b));
    } else {
      var u := q[0].tid;
      QueueTail(q, ts, b);
      SumUpdate(ts, u, Idle(0), WaitsOn(b));
      t := SomeAwake(q[1..], ts[u := Idle(0)], b);
      assert forall i :: 1 <= i < |q| ==> q[i] == q[1..][i - 1];
    }
  }

  lemma {:induction false} ClaimQueuePigeonhole(q: seq<Waiter>, ts: seq<Thread>, b: BoxId)
    requires ClaimQueueOk(q, ts, b)
    ensures |q| <= Sum(ts, DeletesOf(b))
    decreases |q|
  {
    if q != [] {
      var r, us := q[1..], ts[q[0].tid := Idle(0)];
      assert forall i :: 0 <= i < |r| ==> r[i] == q[i + 1];
      ClaimQueuePigeonhole(r, us, b);
      SumUpdate(ts, q[0].tid, Idle(0), DeletesOf(b));
    }
  }
}
