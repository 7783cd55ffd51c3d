/**
 When mailboxes are freed and who may still touch them.
 */
module Reclamation {
  import opened Codes
  import opened WaitQueues
  import opened MailboxSpec
  import opened BoxInvariant
  import opened Protocol
  import opened Tallies
  import opened Invariant
  import opened InvariantSteps
  import opened StepFacts

  ghost predicate InTable(s: System, b: BoxId) {
    exists pid :: pid in s.table && s.table[pid] == b
  }

  /** The mailboxes whose memory a step reads or writes. A walk of a table chain may visit
      any mailbox in the table; a signal works on the sleeping task alone. */
  ghost predicate Touches(s: System, e: Step, b: BoxId)
    requires Enabled(s, e)
  {
    match e
    case Fork => false
    case Interrupt(_, _) => false
    case Release(_) => false
    case Lookup(_, _, _, valid, _) => valid && InTable(s, b)
    case ExitHook(_, _) => InTable(s, b)
    case DeleteUnlink(_) => InTable(s, b)
    case _ => s.threads[e.t].b == b
  }

  /** Somebody other than t has finished deleting b. */
  ghost predicate DeletedByOther(s: System, t: int, b: BoxId) {
    exists u :: 0 <= u < |s.threads| && u != t && s.threads[u] == Deleter(b, Gone)
  }

  /** At most one deletion was ever scheduled for each mailbox. */
  ghost predicate OneDeletion(s: System) {
    forall b :: 0 <= b < |s.boxes| ==> Sum(s.threads, DeletesOf(b)) <= 1
  }

  lemma TableLive(s: System, b: BoxId)
    requires Inv(s) && InTable(s, b)
    ensures b < |s.boxes| && Linked(s, b) && !s.boxes[b].log.freed
  {
  }

  /** A freed mailbox has no claims and a finished deletion. */
  lemma FreedFacts(s: System, b: BoxId)
    requires Inv(s) && b < |s.boxes| && s.boxes[b].log.freed
    ensures exists u :: 0 <= u < |s.threads| && s.threads[u] == Deleter(b, Gone)
    ensures s.boxes[b].box.derefs == 0 && !Linked(s, b) && s.boxes[b].log.flushed
    ensures Sum(s.threads, ClaimsOn(b)) == 0
  {
  }

  /** Exact counts in every reachable state: dereferences is the number of tasks between claim
      and unclaim, waiting the number of tasks inside the two wait sections. */
  lemma ExactCounts(s: System, b: BoxId)
    requires Reachable(s) && b < |s.boxes|
    ensures s.boxes[b].box.derefs == |set t | 0 <= t < |s.threads| && s.threads[t].User? && s.threads[t].b == b|
    ensures s.boxes[b].box.waiting == |set t | 0 <= t < |s.threads| && Waits(s.threads[t], b)|
  {
    ReachableInv(s);
    assert BoxOk(s.threads, s.boxes[b], b, Linked(s, b));
    SumIsCardinality(s.threads, ClaimsOn(b));
    SumIsCardinality(s.threads, WaitsOn(b));
    assert Members(s.threads, ClaimsOn(b)) == set t | 0 <= t < |s.threads| && s.threads[t].User? && s.threads[t].b == b;
    assert Members(s.threads, WaitsOn(b)) == set t | 0 <= t < |s.threads| && Waits(s.threads[t], b);
  }

  /** A task with a claim never sees its mailbox freed. */
  lemma ClaimKeepsAlive(s: System, t: Tid)
    requires Inv(s) && UserAt(s, t)
    ensures !s.boxes[s.threads[t].b].log.freed
    ensures BoxOf(s, t).derefs > 0
  {
    var b := s.threads[t].b;
    assert BoxOk(s.threads, s.boxes[b], b, Linked(s, b));
    SumUpdate(s.threads, t, Idle(0), ClaimsOn(b));
    if s.boxes[b].log.freed { FreedFacts(s, b); }
  }

  /** Safe reclamation, with no assumption on how many deletions are scheduled: a step
      touches a freed mailbox exactly when it is a step of a deletion thread of that
      mailbox and another deletion thread has already finished the job. */
  lemma TouchesFreed(s: System, e: Step, b: BoxId)
    requires Reachable(s) && Enabled(s, e) && b < |s.boxes|
    ensures Touches(s, e, b) && s.boxes[b].log.freed
       <==> (var t := Actor(e);
             && 0 <= t < |s.threads| && s.threads[t].Deleter? && s.threads[t].b == b
             && !s.threads[t].d.Polling? && DeletedByOther(s, t, b))
  {
    ReachableInv(s);
    var t := Actor(e);
    if Touches(s, e, b) && s.boxes[b].log.freed {
      FreedFacts(s, b);
      if InTable(s, b) { TableLive(s, b); }
      if 0 <= t < |s.threads| && s.threads[t].User? { ClaimKeepsAlive(s, t); }
    }
    if 0 <= t < |s.threads| && s.threads[t].Deleter? && s.threads[t].b == b && DeletedByOther(s, t, b) {
      var u :| 0 <= u < |s.threads| && u != t && s.threads[u] == Deleter(b, Gone);
      assert BoxOk(s.threads, s.boxes[b], b, Linked(s, b));
      assert DeleterOk(s.threads[u].d, s.boxes[b], Linked(s, b));
    }
  }

  /** With one deletion per mailbox nothing ever touches a freed mailbox. */
  lemma SafeReclamation(s: System, e: Step, b: BoxId)
    requires Reachable(s) && OneDeletion(s) && Enabled(s, e) && b < |s.boxes| && Touches(s, e, b)
    ensures !s.boxes[b].log.freed
  {
    TouchesFreed(s, e, b);
    var t := Actor(e);
    if s.boxes[b].log.freed {
      var u :| 0 <= u < |s.threads| && u != t && s.threads[u] == Deleter(b, Gone);
      SumTwo(s.threads, DeletesOf(b), t, u);
    }
  }

  /** What holds at the very moment a mailbox is freed: it is out of the table, no task
      holds a claim, no task is inside a wait, its list is empty, and (one deletion) it was
      not freed before. */
  lemma FreedOnlyWhenReleased(s: System, t: Tid)
    requires Reachable(s) && Enabled(s, DeleteFree(t))
    ensures var b := s.threads[t].b;
            && !Linked(s, b)
            && s.boxes[b].box.derefs == 0
            && (forall u :: 0 <= u < |s.threads| && s.threads[u].User? ==> s.threads[u].b != b)
            && s.boxes[b].box.waiting == 0 && s.boxes[b].box.messages == []
            && (OneDeletion(s) ==> !s.boxes[b].log.freed)
  {
    ReachableInv(s);
    var b := s.threads[t].b;
    DeleterAwake(s, t);
    forall u | 0 <= u < |s.threads| && s.threads[u].User? ensures s.threads[u].b != b {
      if s.threads[u].b == b { ClaimKeepsAlive(s, u); }
    }
    if OneDeletion(s) && s.boxes[b].log.freed {
      SafeReclamation(s, DeleteFree(t), b);
    }
  }

  // ---------------------------------------------------------------- claims do not come back

  /** Out of the table and unclaimed. */
  ghost predicate Released(s: System, b: BoxId) {
    b < |s.boxes| && !Linked(s, b) && s.boxes[b].box.derefs == 0
  }

  /** Once out of the table and unclaimed, a mailbox is never claimed again. */
  lemma {:induction false} StaysReleased(s: System, run: seq<Step>, b: BoxId)
    requires Inv(s) && Run(s, run) && Released(s, b)
    ensures Released(After(s, run), b)
    decreases |run|
  {
    if run != [] {
      var e := run[0];
      StepInv(s, e);
      StepReleased(s, e, b);
      StaysReleased(Next(s, e), run[1..], b);
    }
  }

  /** A step puts a new claim on a mailbox only through the table. */
  lemma {:induction false} StepReleased(s: System, e: Step, b: BoxId)
    requires Inv(s) && Enabled(s, e) && Released(s, b) && Inv(Next(s, e))
    ensures Released(Next(s, e), b)
  {
    var s' := Next(s, e);
    StepFrame(s, e);
    StepUnlinked(s, e, b);
    assert BoxOk(s.threads, s.boxes[b], b, Linked(s, b));
    assert BoxOk(s'.threads, s'.boxes[b], b, Linked(s', b));
    if Sum(s'.threads, ClaimsOn(b)) > 0 {
      var t := SumPositive(s'.threads, ClaimsOn(b));
      NewClaimLinked(s, e, b, t);
      SumUpdate(s.threads, t, Idle(0), ClaimsOn(b));
    }
  }

  lemma {:induction false} NewClaimLinked(s: System, e: Step, b: BoxId, t: Tid)
    requires Inv(s) && Enabled(s, e) && b < |s.boxes| && !Linked(s, b)
    requires t < |Next(s, e).threads| && Next(s, e).threads[t].User? && Next(s, e).threads[t].b == b
    ensures t < |s.threads| && s.threads[t].User? && s.threads[t].b == b
  {
    hide BoxOk;
    hide Next;
    hide Enabled;
    StepFrame(s, e);
    if t < |s.threads| && s.threads[t].Idle? {
      IdleBecomesUser(s, e, t);
    }
  }

  lemma IdleBecomesUser(s: System, e: Step, t: Tid)
    requires Inv(s) && Enabled(s, e) && t < |s.threads| && s.threads[t].Idle?
    requires t < |Next(s, e).threads| && Next(s, e).threads[t].User?
    ensures var b := Next(s, e).threads[t].b; b == |s.boxes| || (b < |s.boxes| && Linked(s, b))
  {
    hide BoxOk;
    StepFrame(s, e);
    assert Actor(e) == t;
    assert e.Lookup?;
  }

  // ---------------------------------------------------------------- the right mailbox

  lemma {:induction false} RunDeletes(s: System, run: seq<Step>, b: BoxId)
    requires Run(s, run)
    ensures Sum(s.threads, DeletesOf(b)) <= Sum(After(s, run).threads, DeletesOf(b))
    ensures |s.boxes| <= |After(s, run).boxes|
    decreases |run|
  {
    if run != [] {
      StepDeletes(s, run[0], b);
      StepFrame(s, run[0]);
      RunDeletes(Next(s, run[0]), run[1..], b);
    }
  }

  /** A deletion thread that has not unlinked yet finds its own mailbox in the table. */
  ghost predicate RightMailbox(s: System) {
    forall t :: 0 <= t < |s.threads| && s.threads[t].Deleter? && !PastUnlink(s.threads[t].d) ==>
      s.threads[t].b < |s.boxes| && Linked(s, s.threads[t].b)
  }

  lemma {:induction false} StepRightMailbox(s: System, e: Step)
    requires Inv(s) && Enabled(s, e) && RightMailbox(s) && OneDeletion(s)
    ensures RightMailbox(Next(s, e))
  {
    hide BoxOk;
    var s' := Next(s, e);
    StepFrame(s, e);
    StepTable(s, e);
    forall t | 0 <= t < |s'.threads| && s'.threads[t].Deleter? && !PastUnlink(s'.threads[t].d)
      ensures s'.threads[t].b < |s'.boxes| && Linked(s', s'.threads[t].b)
    {
      var b := s'.threads[t].b;
      EarlyDeleter(s, e, t);
      if e.DeleteUnlink? && s.threads[e.t].d.pid == s.boxes[b].box.owner {
        DeleterAwake(s, e.t);
        SumTwo(s.threads, DeletesOf(b), t, e.t);
      }
    }
  }

  /** Where a deletion thread that has not unlinked comes from. */
  lemma EarlyDeleter(s: System, e: Step, t: Tid)
    requires Inv(s) && Enabled(s, e) && RightMailbox(s)
    requires t < |Next(s, e).threads| && Next(s, e).threads[t].Deleter? && !PastUnlink(Next(s, e).threads[t].d)
    ensures Next(s, e).threads[t].b < |s.boxes| && Linked(s, Next(s, e).threads[t].b)
    ensures e.DeleteUnlink? ==> t < |s.threads| && t != e.t && s.threads[t] == Next(s, e).threads[t]
  {
    hide BoxOk;
    hide Next;
    StepFrame(s, e);
    if t == |s.threads| {
      if e.ExitHook? { assert Linked(s, s.table[e.pid]) by { SpawnNeedsEntry(s, e); } }
    } else if t == Actor(e) {
      if e.DeleteUnlink? { UnlinkMoves(s, e); }
    }
  }

  lemma SpawnNeedsEntry(s: System, e: Step)
    requires Inv(s) && Enabled(s, e) && e.ExitHook? && |Next(s, e).threads| > |s.threads|
    ensures e.pid in s.table && s.table[e.pid] < |s.boxes| && Linked(s, s.table[e.pid])
  {
  }

  lemma UnlinkMoves(s: System, e: Step)
    requires Enabled(s, e) && e.DeleteUnlink?
    ensures e.t < |Next(s, e).threads| && Next(s, e).threads[e.t] == Deleter(s.threads[e.t].b, Unlinked)
  {
  }

  lemma {:induction false} RunRightMailbox(s: System, run: seq<Step>)
    requires Inv(s) && RightMailbox(s) && Run(s, run) && OneDeletion(After(s, run))
    ensures RightMailbox(After(s, run)) && OneDeletion(s)
    decreases |run|
  {
    RunOneDeletion(s, run);
    if run != [] {
      StepInv(s, run[0]);
      StepRightMailbox(s, run[0]);
      RunRightMailbox(Next(s, run[0]), run[1..]);
    }
  }

  lemma RunOneDeletion(s: System, run: seq<Step>)
    requires Run(s, run) && OneDeletion(After(s, run))
    ensures OneDeletion(s)
  {
    forall b | 0 <= b < |s.boxes| ensures Sum(s.threads, DeletesOf(b)) <= 1 {
      RunDeletes(s, run, b);
    }
  }

  /** With one deletion per mailbox, the table entry that a deletion thread removes by pid is
      the very mailbox it goes on to destroy. */
  lemma UnlinksItsOwn(s: System, t: Tid)
    requires Reachable(s) && OneDeletion(s) && Enabled(s, DeleteUnlink(t))
    ensures var pid := s.threads[t].d.pid; pid in s.table && s.table[pid] == s.threads[t].b
  {
    var init, run :| Initial(init) && Run(init, run) && After(init, run) == s;
    RunRightMailbox(init, run);
    ReachableInv(s);
    DeleterAwake(s, t);
  }

  // ---------------------------------------------------------------- the deletion thread's wake-ups

  /** A deletion thread asleep until nobody waits is owed a wake-up: some sender or receiver
      is inside a wait, and one of them is awake and able to leave. */
  lemma DestroyerAwaitsWaiters(s: System, t: Tid) returns (u: Tid)
    requires Reachable(s) && DeleterAt(s, t) && s.threads[t].d.WaitWaiters? && !Awake(s, t)
    ensures BoxOf(s, t).waiting > 0
    ensures UserAt(s, u) && Waits(s.threads[u], s.threads[t].b) && Awake(s, u)
  {
    ReachableInv(s);
    DeleterAwake(s, t);
    var b := s.threads[t].b;
    var q := BoxOf(s, t).queue;
    var i :| 0 <= i < |q| && q[i].tid == t;
    OthersPositive(q, i);
    u := SomeAwake(q, s.threads, b);
  }

  /** A deletion thread asleep until nobody claims is owed a wake-up: some task holds a claim. */
  lemma DestroyerAwaitsClaims(s: System, t: Tid) returns (u: Tid)
    requires Reachable(s) && OneDeletion(s)
    requires DeleterAt(s, t) && s.threads[t].d.WaitClaims? && Queued(BoxOf(s, t).derefQueue, t)
    ensures BoxOf(s, t).derefs > 0
    ensures UserAt(s, u) && s.threads[u].b == s.threads[t].b
  {
    ReachableInv(s);
    DeleterAwake(s, t);
    u := SumPositive(s.threads, ClaimsOn(s.threads[t].b));
  }
}
