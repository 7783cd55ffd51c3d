/**
 What a second exit hook for one mailbox leads to.
 */
module DoubleDeletion {
  import opened Codes
  import opened WaitQueues
  import opened MailboxSpec
  import opened BoxInvariant
  import opened Protocol
  import opened Tallies
  import opened Invariant
  import opened InvariantSteps
  import opened StepFacts
  import opened Reclamation
  import opened StopCascade
  import opened Termination
  import opened Refinement
  import opened FifoRuns

  ghost predicate NoHook(run: seq<Step>) {
    forall i :: 0 <= i < |run| ==> !run[i].ExitHook?
  }

  /** Some run without exit hooks leads from s to z. */
  ghost predicate Leads(s: System, z: System) {
    exists run :: Run(s, run) && NoHook(run) && After(s, run) == z
  }

  lemma LeadsHere(s: System)
    ensures Leads(s, s)
  {
    assert Run(s, []) && NoHook([]) && After(s, []) == s;
  }

  lemma LeadsFurther(s: System, z: System, e: Step)
    requires Leads(s, z) && Enabled(z, e) && !e.ExitHook?
    ensures Leads(s, Next(z, e))
  {
    hide Enabled;
    hide Next;
    var run :| Run(s, run) && NoHook(run) && After(s, run) == z;
    RunSnoc(s, run, e);
    assert NoHook(run + [e]);
  }

  // ---------------------------------------------------------------- what follows from a flush

  /** A flushed mailbox is out of the table. */
  ghost predicate FlushedGone(s: System) {
    forall b :: 0 <= b < |s.boxes| && s.boxes[b].log.flushed ==> !Linked(s, b)
  }

  /** Only a flushed mailbox has claimants that took a message that was not there. */
  ghost predicate LostFlushed(s: System) {
    forall t :: 0 <= t < |s.threads| && s.threads[t].User? && s.threads[t].pc.Undefined? ==>
      s.threads[t].b < |s.boxes| && s.boxes[s.threads[t].b].log.flushed
  }

  lemma {:induction false} OnlyFlushFlushes(s: System, e: Step, b: BoxId)
    requires Enabled(s, e) && b < |s.boxes| && !s.boxes[b].log.flushed
    ensures b < |Next(s, e).boxes|
    ensures Next(s, e).boxes[b].log.flushed ==> e.DeleteFlush? && s.threads[e.t].b == b
  {
    hide WakeOne;
    StepFrame(s, e);
    if e.EnterAdd? || e.ResumeAdd? {
      AddSectionKeeps(s, e);
    } else if e.EnterRemove? || e.ResumeRemove? {
      RemoveSectionKeeps(s, e);
    }
  }

  lemma {:induction false} OnlyPhantomLoses(s: System, e: Step)
    requires Enabled(s, e) && 0 <= Actor(e) < |s.threads| && Actor(e) < |Next(s, e).threads|
    requires var th := Next(s, e).threads[Actor(e)]; th.User? && th.pc.Undefined?
    ensures (e.EnterRemove? || e.ResumeRemove?) && RemoveSection(s, e).1.Phantom?
    ensures s.threads[e.t].b == Next(s, e).threads[e.t].b
  {
    hide WakeOne;
    if e.EnterAdd? || e.ResumeAdd? {
      AddThread(s, e);
    } else if e.EnterRemove? || e.ResumeRemove? {
      RemoveSectionKeeps(s, e);
    }
  }

  lemma {:induction false} StepFlushedGone(s: System, e: Step)
    requires Inv(s) && Enabled(s, e) && FlushedGone(s)
    ensures FlushedGone(Next(s, e))
  {
    hide Next;
    hide BoxOk;
    StepFrame(s, e);
    var s' := Next(s, e);
    forall b | 0 <= b < |s'.boxes| && s'.boxes[b].log.flushed ensures !Linked(s', b) {
      if b >= |s.boxes| {
        GrowsByLookup(s, e);
      } else {
        if !s.boxes[b].log.flushed {
          OnlyFlushFlushes(s, e, b);
          DeleterAwake(s, e.t);
        }
        StepUnlinked(s, e, b);
      }
    }
  }

  lemma {:induction false} StepLostFlushed(s: System, e: Step)
    requires Inv(s) && Enabled(s, e) && LostFlushed(s)
    ensures LostFlushed(Next(s, e))
  {
    hide Next;
    hide BoxOk;
    hide RemoveSection;
    StepFrame(s, e);
    var s' := Next(s, e);
    forall t | 0 <= t < |s'.threads| && s'.threads[t].User? && s'.threads[t].pc.Undefined?
      ensures s'.threads[t].b < |s'.boxes| && s'.boxes[s'.threads[t].b].log.flushed
    {
      if t == Actor(e) && t < |s.threads| {
        OnlyPhantomLoses(s, e);
        PhantomFlushed(s, e);
      }
    }
  }

  lemma PhantomFlushed(s: System, e: Step)
    requires Inv(s) && Enabled(s, e) && (e.EnterRemove? || e.ResumeRemove?) && RemoveSection(s, e).1.Phantom?
    ensures s.boxes[s.threads[e.t].b].log.flushed
  {
  }

  lemma {:induction false} RunFlushFacts(s: System, run: seq<Step>)
    requires Inv(s) && FlushedGone(s) && LostFlushed(s) && Run(s, run)
    ensures FlushedGone(After(s, run)) && LostFlushed(After(s, run))
    decreases |run|
  {
    hide Inv;
    hide FlushedGone;
    hide LostFlushed;
    if run != [] {
      StepInv(s, run[0]);
      StepFlushedGone(s, run[0]);
      StepLostFlushed(s, run[0]);
      RunFlushFacts(Next(s, run[0]), run[1..]);
    }
  }

  /** A mailbox in the table was not flushed, and none of its claimants is lost. */
  lemma LinkedUnharmed(s: System, b: BoxId)
    requires Reachable(s) && b < |s.boxes| && Linked(s, b)
    ensures !s.boxes[b].log.flushed && !Stuck(s, b)
  {
    var init, run :| Initial(init) && Run(init, run) && After(init, run) == s;
    RunFlushFacts(init, run);
  }

  // ---------------------------------------------------------------- two deletion threads, one ahead

  /** Out of the table, not flushed; one deletion thread has unlinked, another has not begun. */
  ghost predicate Emptying(s: System, b: BoxId, u: Tid, v: Tid) {
    && Inv(s) && b < |s.boxes| && s.boxes[b].box.stopped != 0 && !Linked(s, b)
    && !s.boxes[b].log.flushed && !Stuck(s, b)
    && Apart(s, b, u, v, Unlinked)
  }

  ghost predicate Apart(s: System, b: BoxId, u: Tid, v: Tid, d: DeletePc) {
    u != v && u < |s.threads| && v < |s.threads| && s.threads[u] == Deleter(b, d) && s.threads[v] == Deleter(b, Start)
  }

  /** Some claimant can take a step. */
  lemma SomeClaimantMoves(s: System, b: BoxId) returns (e: Step)
    requires Inv(s) && IsStopped(s, b) && !Stuck(s, b) && s.boxes[b].box.derefs > 0
    ensures Enabled(s, e) && !e.ExitHook? && 0 <= Actor(e) && UserAt(s, Actor(e)) && s.threads[Actor(e)].b == b
  {
    assert BoxOk(s.threads, s.boxes[b], b, Linked(s, b));
    var c := SumPositive(s.threads, ClaimsOn(b));
    if Waits(s.threads[c], b) {
      SumUpdate(s.threads, c, Idle(0), WaitsOn(b));
      e := CascadeGoesOn(s, b);
    } else {
      e := ClaimantMoves(s, c);
    }
  }

  /** ... and it does no harm and is progress. */
  lemma {:induction false} ClaimantStep(s: System, e: Step, b: BoxId, u: Tid, v: Tid)
    requires Emptying(s, b, u, v) && Enabled(s, e)
    requires 0 <= Actor(e) && UserAt(s, Actor(e)) && s.threads[Actor(e)].b == b
    ensures Emptying(Next(s, e), b, u, v)
    ensures Sum(Next(s, e).threads, WorkOn(b)) < Sum(s.threads, WorkOn(b))
  {
    hide Inv;
    hide Next;
    StepInv(s, e);
    StepFrame(s, e);
    StepUnlinked(s, e, b);
    OnlyFlushFlushes(s, e, b);
    UserWorks(s, e);
    ActorOnly(s, e);
    SumUpdate(s.threads, e.t, Next(s, e).threads[e.t], WorkOn(b));
    StaysUnstuck(s, e, b);
  }

  lemma StaysUnstuck(s: System, e: Step, b: BoxId)
    requires Inv(s) && Enabled(s, e) && b < |s.boxes| && !s.boxes[b].log.flushed && !Stuck(s, b)
    requires 0 <= Actor(e) < |s.threads| && |Next(s, e).threads| == |s.threads|
    ensures !Stuck(Next(s, e), b)
  {
    hide Inv;
    hide Next;
    hide RemoveSection;
    StepFrame(s, e);
    var s' := Next(s, e);
    forall t | 0 <= t < |s'.threads| ensures s'.threads[t] != User(b, Undefined) {
      if t == Actor(e) && s'.threads[t] == User(b, Undefined) {
        OnlyPhantomLoses(s, e);
        PhantomFlushed(s, e);
      }
    }
  }

  /** So all claimants can leave before the list is flushed. */
  lemma {:induction false} ClaimantsLeave(s: System, z: System, b: BoxId, u: Tid, v: Tid) returns (z': System)
    requires Leads(s, z) && Emptying(z, b, u, v)
    ensures Leads(s, z') && Emptying(z', b, u, v) && z'.boxes[b].box.derefs == 0
    decreases Sum(z.threads, WorkOn(b))
  {
    hide Inv;
    hide Next;
    hide Leads;
    hide Apart;
    hide Stuck;
    ClaimsNatural(z, b);
    if z.boxes[b].box.derefs == 0 {
      z' := z;
    } else {
      var e := SomeClaimantMoves(z, b);
      ClaimantStep(z, e, b, u, v);
      LeadsFurther(s, z, e);
      z' := ClaimantsLeave(s, Next(z, e), b, u, v);
    }
  }

  lemma ClaimsNatural(s: System, b: BoxId)
    requires Inv(s) && b < |s.boxes|
    ensures s.boxes[b].box.derefs >= 0
    ensures s.boxes[b].box.derefs == 0 ==> s.boxes[b].box.waiting == 0
  {
    assert BoxOk(s.threads, s.boxes[b], b, Linked(s, b));
    if s.boxes[b].box.derefs == 0 && s.boxes[b].box.waiting > 0 {
      var t := SumPositive(s.threads, WaitsOn(b));
      SumUpdate(s.threads, t, Idle(0), ClaimsOn(b));
      assert false;
    }
  }

  // ---------------------------------------------------------------- the first one finishes

  ghost predicate Finishing(s: System, b: BoxId, u: Tid, v: Tid, d: DeletePc) {
    Inv(s) && b < |s.boxes| && s.boxes[b].box.derefs == 0 && Apart(s, b, u, v, d)
  }

  /** The next step of a deletion thread that need not wait, and where it leads. */
  function NextDelete(u: Tid, d: DeletePc): (Step, DeletePc)
    requires d.Unlinked? || d.Stopped? || d.Flushed? || d.Unclaimed?
  {
    match d
    case Unlinked => (DeleteStop(u), Stopped)
    case Stopped => (DeleteFlush(u), Flushed)
    case Flushed => (DeleteAwait(u), Unclaimed)
    case Unclaimed => (DeleteFree(u), Gone)
  }

  lemma {:induction false} FinishStep(s: System, b: BoxId, u: Tid, v: Tid, d: DeletePc)
    requires Finishing(s, b, u, v, d) && (d.Unlinked? || d.Stopped? || d.Flushed? || d.Unclaimed?)
    ensures Enabled(s, NextDelete(u, d).0)
    ensures Finishing(Next(s, NextDelete(u, d).0), b, u, v, NextDelete(u, d).1)
  {
    ClaimsNatural(s, b);
    hide Inv;
    hide WakeOne;
    StepInv(s, NextDelete(u, d).0);
  }

  lemma {:induction false} Finishes(s: System, z: System, b: BoxId, u: Tid, v: Tid, d: DeletePc) returns (z': System)
    requires Leads(s, z) && Finishing(z, b, u, v, d)
    requires d.Unlinked? || d.Stopped? || d.Flushed? || d.Unclaimed? || d.Gone?
    ensures Leads(s, z') && Finishing(z', b, u, v, Gone)
    decreases DeleteWork(d)
  {
    hide Enabled;
    hide Next;
    hide Leads;
    hide Finishing;
    if d.Gone? {
      z' := z;
    } else {
      FinishStep(z, b, u, v, d);
      LeadsFurther(s, z, NextDelete(u, d).0);
      z' := Finishes(s, Next(z, NextDelete(u, d).0), b, u, v, NextDelete(u, d).1);
    }
  }

  // ---------------------------------------------------------------- from the second exit hook

  /** The mailbox is still in the table; a deletion thread is on its way to unlink it, another
      has not begun. */
  ghost predicate Scheduled(s: System, b: BoxId, u: Tid, v: Tid, d: DeletePc) {
    && Reachable(s) && b < |s.boxes| && Linked(s, b) && Apart(s, b, u, v, d)
    && (d.Start? || d == Polling(s.boxes[b].box.owner))
  }

  lemma {:induction false} SecondHook(s: System, t: Tid, pid: int, u: Tid)
    requires Reachable(s) && Enabled(s, ExitHook(t, pid)) && pid in s.table
    requires u < |s.threads| && s.threads[u].Deleter? && s.threads[u].b == s.table[pid]
    ensures Scheduled(Next(s, ExitHook(t, pid)), s.table[pid], u, |s.threads|, s.threads[u].d)
  {
    ReachableStep(s, ExitHook(t, pid));
    ReachableInv(s);
    DeleterAwake(s, u);
    hide Inv;
    hide Reachable;
    hide WakeOne;
  }

  lemma {:induction false} BeginsDeleting(s: System, b: BoxId, u: Tid, v: Tid)
    requires Scheduled(s, b, u, v, Start)
    ensures Enabled(s, DeleteStart(u))
    ensures Scheduled(Next(s, DeleteStart(u)), b, u, v, Polling(s.boxes[b].box.owner))
  {
    ReachableStep(s, DeleteStart(u));
    hide Reachable;
  }

  lemma {:induction false} Unlinks(s: System, b: BoxId, u: Tid, v: Tid)
    requires b < |s.boxes| && Scheduled(s, b, u, v, Polling(s.boxes[b].box.owner))
    ensures Enabled(s, DeleteUnlink(u)) && Emptying(Next(s, DeleteUnlink(u)), b, u, v)
  {
    ReachableInv(s);
    LinkedUnharmed(s, b);
    DeleterAwake(s, u);
    hide Inv;
    hide Reachable;
    StepInv(s, DeleteUnlink(u));
    var s' := Next(s, DeleteUnlink(u));
    forall t | 0 <= t < |s'.threads| ensures s'.threads[t] != User(b, Undefined) {
      if t != u { assert s'.threads[t] == s.threads[t]; }
    }
  }

  /** An exit hook for a mailbox that already has a deletion thread is one too many: some run
      from there ends with a step that touches the mailbox after it was freed. */
  lemma SecondHookIsFatal(s: System, t: Tid, pid: int, u: Tid) returns (z: System, e: Step)
    requires Reachable(s) && Enabled(s, ExitHook(t, pid)) && pid in s.table
    requires u < |s.threads| && s.threads[u].Deleter? && s.threads[u].b == s.table[pid]
    ensures Leads(Next(s, ExitHook(t, pid)), z) && Enabled(z, e)
    ensures s.table[pid] < |z.boxes| && z.boxes[s.table[pid]].log.freed && Touches(z, e, s.table[pid])
  {
    var b, v, s1 := s.table[pid], |s.threads|, Next(s, ExitHook(t, pid));
    SecondHook(s, t, pid, u);
    LeadsHere(s1);
    z := ToUnlink(s1, b, u, v, s.threads[u].d);
    z := ClaimantsLeave(s1, z, b, u, v);
    z := Finishes(s1, z, b, u, v, Unlinked);
    e := DeleteStart(v);
  }

  lemma ToUnlink(s: System, b: BoxId, u: Tid, v: Tid, d: DeletePc) returns (z: System)
    requires Scheduled(s, b, u, v, d)
    ensures Leads(s, z) && Emptying(z, b, u, v)
  {
    hide Next;
    hide Enabled;
    hide Leads;
    hide Scheduled;
    hide Emptying;
    LeadsHere(s);
    ScheduledWhere(s, b, u, v, d);
    if d.Start? {
      BeginsDeleting(s, b, u, v);
      LeadsFurther(s, s, DeleteStart(u));
      z := Next(s, DeleteStart(u));
      ScheduledWhere(z, b, u, v, Polling(s.boxes[b].box.owner));
    } else {
      z := s;
    }
    Unlinks(z, b, u, v);
    LeadsFurther(s, z, DeleteUnlink(u));
    z := Next(z, DeleteUnlink(u));
  }

  lemma ScheduledWhere(s: System, b: BoxId, u: Tid, v: Tid, d: DeletePc)
    requires Scheduled(s, b, u, v, d)
    ensures b < |s.boxes| && (d.Start? || d == Polling(s.boxes[b].box.owner))
  {
  }

  // ---------------------------------------------------------------- the other direction

  lemma {:induction false} RunReachable(s: System, run: seq<Step>)
    requires Reachable(s) && Run(s, run)
    ensures Reachable(After(s, run))
    decreases |run|
  {
    hide Next;
    hide Reachable;
    if run != [] {
      ReachableStep(s, run[0]);
      RunReachable(Next(s, run[0]), run[1..]);
    }
  }

  /** Only exit hooks schedule deletions. */
  lemma {:induction false} StepNoHook(s: System, e: Step, b: BoxId)
    requires Enabled(s, e) && !e.ExitHook?
    ensures Sum(Next(s, e).threads, DeletesOf(b)) == Sum(s.threads, DeletesOf(b))
  {
    hide Next;
    hide Enabled;
    StepFrame(s, e);
    var ts, us := s.threads, Next(s, e).threads;
    SumPointwise(ts, us[..|ts|], DeletesOf(b));
    SumPointwise(us[..|ts|], ts, DeletesOf(b));
    if |us| > |ts| {
      assert us == us[..|ts|] + [us[|ts|]];
      SumAppend(us[..|ts|], us[|ts|], DeletesOf(b));
    } else {
      assert us == us[..|ts|];
    }
  }

  lemma {:induction false} RunNoHook(s: System, run: seq<Step>, b: BoxId)
    requires Run(s, run) && NoHook(run)
    ensures Sum(After(s, run).threads, DeletesOf(b)) == Sum(s.threads, DeletesOf(b))
    decreases |run|
  {
    hide Next;
    if run != [] {
      StepNoHook(s, run[0], b);
      RunNoHook(Next(s, run[0]), run[1..], b);
    }
  }

  /** The first exit hook of a mailbox is safe as long as no other follows. */
  lemma FirstHookIsSafe(s: System, t: Tid, pid: int, z: System, e: Step)
    requires Reachable(s) && Enabled(s, ExitHook(t, pid)) && pid in s.table && !HasDeletion(s, s.table[pid])
    requires Leads(Next(s, ExitHook(t, pid)), z) && Enabled(z, e)
    requires s.table[pid] < |z.boxes| && Touches(z, e, s.table[pid])
    ensures !z.boxes[s.table[pid]].log.freed
  {
    var b, s1 := s.table[pid], Next(s, ExitHook(t, pid));
    OneMore(s, t, pid);
    ReachableStep(s, ExitHook(t, pid));
    hide Next;
    hide Reachable;
    var run :| Run(s1, run) && NoHook(run) && After(s1, run) == z;
    RunNoHook(s1, run, b);
    RunReachable(s1, run);
    TouchesFreed(z, e, b);
    if z.boxes[b].log.freed {
      var v, w := Actor(e), 0;
      w :| 0 <= w < |z.threads| && w != v && z.threads[w] == Deleter(b, Gone);
      SumTwo(z.threads, DeletesOf(b), v, w);
    }
  }

  lemma OneMore(s: System, t: Tid, pid: int)
    requires Enabled(s, ExitHook(t, pid)) && pid in s.table && !HasDeletion(s, s.table[pid])
    ensures Sum(Next(s, ExitHook(t, pid)).threads, DeletesOf(s.table[pid])) == 1
  {
    var b := s.table[pid];
    SumZero(s.threads, DeletesOf(b));
    SumUpdate(s.threads, t, Idle(0), DeletesOf(b));
    SumAppend(s.threads[t := Idle(0)], Deleter(b, Start), DeletesOf(b));
    hide WakeOne;
  }

  /** Some deletion of b was scheduled. */
  ghost predicate HasDeletion(s: System, b: BoxId) {
    exists u :: 0 <= u < |s.threads| && s.threads[u].Deleter? && s.threads[u].b == b
  }

  /** Without another exit hook, some run from s ends in a step that touches b after b was freed. */
  ghost predicate MayTouchFreed(s: System, b: BoxId) {
    exists z, e :: Leads(s, z) && Enabled(z, e) && b < |z.boxes| && z.boxes[b].log.freed && Touches(z, e, b)
  }

  /** An exit hook makes a use after free possible exactly if the mailbox it finds already had
      a deletion scheduled: the test remove_mailbox_for_pid would have to make. */
  lemma HookExactly(s: System, t: Tid, pid: int)
    requires Reachable(s) && Enabled(s, ExitHook(t, pid)) && pid in s.table
    ensures MayTouchFreed(Next(s, ExitHook(t, pid)), s.table[pid]) <==> HasDeletion(s, s.table[pid])
  {
    hide Next;
    hide Reachable;
    hide Leads;
    hide Touches;
    var b, s1 := s.table[pid], Next(s, ExitHook(t, pid));
    if HasDeletion(s, b) {
      var u :| 0 <= u < |s.threads| && s.threads[u].Deleter? && s.threads[u].b == b;
      var z, e := SecondHookIsFatal(s, t, pid, u);
    } else if MayTouchFreed(s1, b) {
      var z, e :| Leads(s1, z) && Enabled(z, e) && b < |z.boxes| && z.boxes[b].log.freed && Touches(z, e, b);
      FirstHookIsSafe(s, t, pid, z, e);
    }
  }

}
