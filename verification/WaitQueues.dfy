/**
 Kernel wait queues as the mailbox code uses them: a FIFO of sleeping tasks, some of
 them exclusive. A waker takes tasks off the front up to and including the first
 exclusive one. A task that is on the queue sleeps; a task that a waker took off runs,
 re-takes the lock and checks its condition again.
 */
module WaitQueues {

  type Tid = nat

  datatype Waiter = Waiter(tid: Tid, exclusive: bool)

  /** wake_up_locked: the tasks that stay asleep. */
  function WakeOne(q: seq<Waiter>): seq<Waiter> {
    if q == [] then [] else if q[0].exclusive then q[1..] else WakeOne(q[1..])
  }

  /** How many exclusive tasks (senders and receivers) sleep on the queue. */
  function Exclusives(q: seq<Waiter>): nat {
    if q == [] then 0 else (if q[0].exclusive then 1 else 0) + Exclusives(q[1..])
  }

  /** How many non-exclusive tasks (deletion threads) sleep on the queue. */
  function Others(q: seq<Waiter>): nat {
    if q == [] then 0 else (if q[0].exclusive then 0 else 1) + Others(q[1..])
  }

  predicate Queued(q: seq<Waiter>, t: Tid) {
    exists i :: 0 <= i < |q| && q[i].tid == t
  }

  ghost predicate Distinct(q: seq<Waiter>) {
    forall i, j :: 0 <= i < j < |q| ==> q[i].tid != q[j].tid
  }

  /** A signal takes the sleeping task at position i off the queue without a waker. */
  function Drop(q: seq<Waiter>, i: nat): (r: seq<Waiter>)
    requires i < |q|
  {
    q[..i] + q[i + 1..]
  }

  /** Those who stay asleep are the end of the queue. Of the woken front everyone before its
      last task is non-exclusive, and it ends at an exclusive task unless all were woken. */
  lemma {:induction false} WakeOnePrefix(q: seq<Waiter>)
    ensures |WakeOne(q)| <= |q| && WakeOne(q) == q[|q| - |WakeOne(q)|..]
    ensures var n := |q| - |WakeOne(q)|;
            && (forall i :: 0 <= i < n - 1 ==> !q[i].exclusive)
            && (n == |q| || (n > 0 && q[n - 1].exclusive))
  {
    if q != [] && !q[0].exclusive {
      WakeOnePrefix(q[1..]);
      var n := |q| - |WakeOne(q)|;
      assert q[n..] == q[1..][n - 1..];
      forall i | 0 <= i < n - 1 ensures !q[i].exclusive {
        if i > 0 { assert q[i] == q[1..][i - 1]; }
      }
      if n != |q| { assert q[n - 1] == q[1..][n - 2]; }
    }
  }

  /** One wake-up releases one sender or receiver if any sleeps, and every deletion thread
      when none does. */
  lemma {:induction false} WakeOneCounts(q: seq<Waiter>)
    ensures |WakeOne(q)| <= |q| && WakeOne(q) == q[|q| - |WakeOne(q)|..]
    ensures Exclusives(WakeOne(q)) == if Exclusives(q) == 0 then 0 else Exclusives(q) - 1
    ensures Others(WakeOne(q)) <= Others(q)
    ensures Exclusives(q) == 0 ==> WakeOne(q) == []
  {
    WakeOnePrefix(q);
    if q != [] && !q[0].exclusive {
      WakeOneCounts(q[1..]);
    }
  }

  lemma {:induction false} AppendCounts(q: seq<Waiter>, w: Waiter)
    ensures Exclusives(q + [w]) == Exclusives(q) + (if w.exclusive then 1 else 0)
    ensures Others(q + [w]) == Others(q) + (if w.exclusive then 0 else 1)
  {
    if q == [] {
      assert q + [w] == [w];
      assert Exclusives([w]) == (if w.exclusive then 1 else 0) + Exclusives([]);
      assert Others([w]) == (if w.exclusive then 0 else 1) + Others([]);
    } else {
      assert (q + [w])[1..] == q[1..] + [w];
      AppendCounts(q[1..], w);
    }
  }

  lemma {:induction false} OthersPositive(q: seq<Waiter>, i: nat)
    requires i < |q| && !q[i].exclusive
    ensures Others(q) > 0
  {
    if i > 0 { OthersPositive(q[1..], i - 1); }
  }

  lemma {:induction false} DropCounts(q: seq<Waiter>, i: nat)
    requires i < |q|
    ensures Exclusives(Drop(q, i)) == Exclusives(q) - (if q[i].exclusive then 1 else 0)
    ensures Others(Drop(q, i)) == Others(q) - (if q[i].exclusive then 0 else 1)
  {
    if i == 0 {
      assert Drop(q, 0) == q[1..];
    } else {
      DropCounts(q[1..], i - 1);
      assert Drop(q, i)[1..] == Drop(q[1..], i - 1);
      assert Drop(q, i)[0] == q[0];
    }
  }
}
