/**
 Deletion finishes. Once a mailbox is out of the table, every run takes only boundedly many
 more steps on it, and until it is freed some step on it is enabled. The one thing that can
 hold a deletion up for good is a claimant that took a message off a flushed list.
 */
module Termination {
  import opened Codes
  import opened WaitQueues
  import opened MailboxSpec
  import opened BoxInvariant
  import opened Protocol
  import opened Tallies
  import opened Invariant
  import opened InvariantSteps
  import opened StepFacts
  import opened StopCascade

  /** Stopped, out of the table, one deletion thread. */
  ghost predicate Closing(s: System, b: BoxId) {
    && b < |s.boxes| && s.boxes[b].box.stopped != 0 && !Linked(s, b)
    && Sum(s.threads, DeletesOf(b)) == 1
  }

  /** A step taken on b: by a claimant or deletion thread of b, or a signal to a sleeper. */
  ghost predicate StepOn(s: System, e: Step, b: BoxId) {
    match e
    case Interrupt(c, _) => c == b
    case _ => 0 <= Actor(e) < |s.threads| && About(s.threads[Actor(e)], b)
  }

  /** An upper bound on the steps still to be taken on b. */
  ghost function Effort(s: System, b: BoxId): int
    requires b < |s.boxes|
  {
    var x := s.boxes[b].box;
    3 * Sum(s.threads, WorkOn(b)) + Exclusives(x.queue) + (2 - Others(x.queue) - |x.derefQueue|)
  }

  lemma EffortNatural(s: System, b: BoxId)
    requires Inv(s) && Closing(s, b)
    ensures Effort(s, b) >= 0
    ensures Others(s.boxes[b].box.queue) <= 1 && |s.boxes[b].box.derefQueue| <= 1
  {
    var x := s.boxes[b].box;
    assert BoxOk(s.threads, s.boxes[b], b, Linked(s, b));
    QueuePigeonhole(x.queue, s.threads, b);
    ClaimQueuePigeonhole(x.derefQueue, s.threads, b);
  }

  /** How much a step may add to the effort through its mailbox. */
  ghost function Slack(x: Box): int {
    Exclusives(x.queue) - Others(x.queue) - |x.derefQueue|
  }

  // ---------------------------------------------------------------- steps on other mailboxes

  lemma {:induction false} ElsewhereStep(s: System, e: Step, b: BoxId)
    requires Inv(s) && Enabled(s, e) && Closing(s, b) && !StepOn(s, e, b)
    ensures b < |Next(s, e).boxes|
    ensures Next(s, e).boxes[b] == s.boxes[b]
    ensures forall k :: k == WorkOn(b) || k == DeletesOf(b) ==> Sum(Next(s, e).threads, k) == Sum(s.threads, k)
  {
    hide BoxOk;
    StepFrame(s, e);
    ElsewhereSite(s, e, b);
    var s' := Next(s, e);
    forall k | k == WorkOn(b) || k == DeletesOf(b) ensures Sum(s'.threads, k) == Sum(s.threads, k) {
      ElsewhereSum(s, e, b, k);
    }
  }

  /** A step that is not on an unlinked mailbox happens elsewhere. */
  lemma ElsewhereSite(s: System, e: Step, b: BoxId)
    requires Inv(s) && Enabled(s, e) && b < |s.boxes| && !Linked(s, b) && !StepOn(s, e, b)
    ensures Site(s, e) != b
  {
    hide BoxOk;
    match e
    case Lookup(_, pid, _, _, _) => if pid in s.table { assert Linked(s, s.table[pid]); }
    case ExitHook(_, pid) => if pid in s.table { assert Linked(s, s.table[pid]); }
    case _ =>
  }

  lemma ElsewhereSum(s: System, e: Step, b: BoxId, k: Tally)
    requires Inv(s) && Enabled(s, e) && Closing(s, b) && !StepOn(s, e, b)
    requires k == WorkOn(b) || k == DeletesOf(b)
    ensures Sum(Next(s, e).threads, k) == Sum(s.threads, k)
  {
    hide BoxOk;
    hide Next;
    hide Enabled;
    StepFrame(s, e);
    ElsewhereSite(s, e, b);
    var ts, us := s.threads, Next(s, e).threads;
    forall t | 0 <= t < |ts| ensures Weight(k, ts[t]) == Weight(k, us[t]) {
      if t == Actor(e) { ElsewhereActor(s, e, b); } else { assert us[t] == ts[t]; }
    }
    SumPointwise(ts, us[..|ts|], k);
    SumPointwise(us[..|ts|], ts, k);
    if |us| > |ts| {
      assert us == us[..|ts|] + [us[|ts|]];
      SumAppend(us[..|ts|], us[|ts|], k);
    } else {
      assert us == us[..|ts|];
    }
  }

  lemma ElsewhereActor(s: System, e: Step, b: BoxId)
    requires Inv(s) && Enabled(s, e) && b < |s.boxes| && !Linked(s, b) && !StepOn(s, e, b)
    requires 0 <= Actor(e) < |s.threads|
    ensures Actor(e) < |Next(s, e).threads|
    ensures !About(s.threads[Actor(e)], b) && !About(Next(s, e).threads[Actor(e)], b)
  {
    hide BoxOk;
    StepFrame(s, e);
    var t := Actor(e);
    if s.threads[t].Idle? && Next(s, e).threads[t].User? {
      assert e.Lookup?;
      assert Next(s, e).threads[t].b == Site(s, e);
      ElsewhereSite(s, e, b);
    }
  }

  // ---------------------------------------------------------------- steps on b

  /** The effort of a step of task t on b, from its parts. */
  lemma EffortMove(s: System, s': System, b: BoxId, t: Tid)
    requires b < |s.boxes| && b < |s'.boxes| && t < |s.threads| && |s'.threads| == |s.threads|
    requires s'.threads == s.threads[t := s'.threads[t]]
    ensures Effort(s', b) - Effort(s, b)
         == 3 * (Weight(WorkOn(b), s'.threads[t]) - Weight(WorkOn(b), s.threads[t]))
          + Slack(s'.boxes[b].box) - Slack(s.boxes[b].box)
    ensures Sum(s'.threads, DeletesOf(b))
         == Sum(s.threads, DeletesOf(b)) - Weight(DeletesOf(b), s.threads[t]) + Weight(DeletesOf(b), s'.threads[t])
  {
    SumUpdate(s.threads, t, s'.threads[t], WorkOn(b));
    SumUpdate(s.threads, t, s'.threads[t], DeletesOf(b));
  }

  /** The threads of a step with an actor that starts no new task. */
  lemma ActorOnly(s: System, e: Step)
    requires Enabled(s, e) && !e.Fork? && !e.Interrupt? && !e.ExitHook?
    ensures |Next(s, e).threads| == |s.threads| && e.t < |s.threads|
    ensures Next(s, e).threads == s.threads[e.t := Next(s, e).threads[e.t]]
  {
    StepFrame(s, e);
    SameLength(s, e);
  }

  lemma {:induction false} SameLength(s: System, e: Step)
    requires Enabled(s, e) && !e.Fork? && !e.ExitHook?
    ensures |Next(s, e).threads| == |s.threads|
  {
    hide WakeOne;
    if e.EnterAdd? || e.ResumeAdd? {
      AddSectionKeeps(s, e);
    } else if e.EnterRemove? || e.ResumeRemove? {
      RemoveSectionKeeps(s, e);
    }
  }

  /** A claimant's step on a stopped mailbox is progress for the claimant. */
  lemma {:induction false} UserWorks(s: System, e: Step)
    requires Enabled(s, e) && !e.Fork? && !e.Interrupt? && UserAt(s, e.t) && BoxOf(s, e.t).stopped != 0
    ensures |Next(s, e).threads| == |s.threads|
    ensures Weight(WorkOn(s.threads[e.t].b), Next(s, e).threads[e.t]) < Weight(WorkOn(s.threads[e.t].b), s.threads[e.t])
  {
    hide Next;
    if e.EnterAdd? || e.ResumeAdd? {
      AddWorks(s, e);
    } else if e.EnterRemove? || e.ResumeRemove? {
      RemoveWorks(s, e);
    } else {
      OtherWorks(s, e);
    }
  }

  lemma AddWorks(s: System, e: Step)
    requires Enabled(s, e) && (e.EnterAdd? || e.ResumeAdd?) && BoxOf(s, e.t).stopped != 0
    ensures |Next(s, e).threads| == |s.threads|
    ensures Next(s, e).threads[e.t].User? && Next(s, e).threads[e.t].b == s.threads[e.t].b
    ensures Next(s, e).threads[e.t].pc.Leaving?
  {
  }

  lemma RemoveWorks(s: System, e: Step)
    requires Enabled(s, e) && (e.EnterRemove? || e.ResumeRemove?) && BoxOf(s, e.t).stopped != 0
    ensures |Next(s, e).threads| == |s.threads|
    ensures Next(s, e).threads[e.t].User? && Next(s, e).threads[e.t].b == s.threads[e.t].b
    ensures var pc := Next(s, e).threads[e.t].pc; pc.Leaving? || pc.Holding? || pc.Undefined?
  {
    hide Next;
    hide Calmer;
    RemoveSectionKeeps(s, e);
    StoppedRemove(BoxOf(s, e.t), e.t, if e.EnterRemove? then s.threads[e.t].pc.block else true, e.sig);
  }

  lemma OtherWorks(s: System, e: Step)
    requires Enabled(s, e) && !e.Fork? && !e.Interrupt? && UserAt(s, e.t)
    requires !e.EnterAdd? && !e.ResumeAdd? && !e.EnterRemove? && !e.ResumeRemove?
    ensures |Next(s, e).threads| == |s.threads|
    ensures Weight(WorkOn(s.threads[e.t].b), Next(s, e).threads[e.t]) < Weight(WorkOn(s.threads[e.t].b), s.threads[e.t])
  {
    hide WakeOne;
  }

  /** A claimant's step wakes at most the one deletion thread. */
  lemma {:induction false} UserSlack(s: System, e: Step, b: BoxId)
    requires Inv(s) && Enabled(s, e) && Closing(s, b)
    requires !e.Fork? && !e.Interrupt? && UserAt(s, e.t) && s.threads[e.t].b == b
    ensures b < |Next(s, e).boxes|
    ensures Slack(Next(s, e).boxes[b].box) <= Slack(s.boxes[b].box) + 2
  {
    hide BoxOk;
    StoppedBox(s, e, b);
    EffortNatural(s, b);
  }

  lemma {:induction false} UserEffort(s: System, e: Step, b: BoxId)
    requires Inv(s) && Enabled(s, e) && Closing(s, b)
    requires !e.Fork? && !e.Interrupt? && UserAt(s, e.t) && s.threads[e.t].b == b
    ensures b < |Next(s, e).boxes| && Effort(Next(s, e), b) < Effort(s, b)
    ensures Sum(Next(s, e).threads, DeletesOf(b)) == 1
  {
    hide Inv;
    hide Next;
    UserWorks(s, e);
    UserSlack(s, e, b);
    ActorOnly(s, e);
    StepFrame(s, e);
    EffortMove(s, Next(s, e), b, e.t);
  }

  lemma {:induction false} DeleterEffort(s: System, e: Step, b: BoxId)
    requires Inv(s) && Enabled(s, e) && Closing(s, b)
    requires !e.Fork? && !e.Interrupt? && DeleterAt(s, e.t) && s.threads[e.t].b == b
    ensures b < |Next(s, e).boxes| && Effort(Next(s, e), b) < Effort(s, b)
    ensures Sum(Next(s, e).threads, DeletesOf(b)) == 1
  {
    hide Inv;
    hide Next;
    ActorOnly(s, e);
    StepFrame(s, e);
    EffortMove(s, Next(s, e), b, e.t);
    EffortNatural(s, b);
    DeleterGain(s, e, b);
  }

  /** A deletion thread's step either brings it forward or puts it to sleep. */
  lemma {:induction false} DeleterGain(s: System, e: Step, b: BoxId)
    requires Enabled(s, e) && !e.Fork? && !e.Interrupt? && DeleterAt(s, e.t) && s.threads[e.t].b == b
    requires Others(s.boxes[b].box.queue) <= 1 && |s.boxes[b].box.derefQueue| <= 1
    ensures b < |Next(s, e).boxes| && e.t < |Next(s, e).threads|
    ensures 3 * Weight(WorkOn(b), Next(s, e).threads[e.t]) + Slack(Next(s, e).boxes[b].box)
          < 3 * Weight(WorkOn(b), s.threads[e.t]) + Slack(s.boxes[b].box)
  {
    hide Next;
    if e.DeleteFlush? {
      FlushGain(s, e, b);
    } else {
      OtherGain(s, e, b);
    }
  }

  lemma FlushGain(s: System, e: Step, b: BoxId)
    requires Enabled(s, e) && e.DeleteFlush? && s.threads[e.t].b == b
    requires Others(s.boxes[b].box.queue) <= 1 && |s.boxes[b].box.derefQueue| <= 1
    ensures b < |Next(s, e).boxes| && e.t < |Next(s, e).threads|
    ensures 3 * Weight(WorkOn(b), Next(s, e).threads[e.t]) + Slack(Next(s, e).boxes[b].box)
          < 3 * Weight(WorkOn(b), s.threads[e.t]) + Slack(s.boxes[b].box)
  {
    hide Exclusives;
    hide Others;
    AppendCounts(s.boxes[b].box.queue, Waiter(e.t, false));
  }

  lemma OtherGain(s: System, e: Step, b: BoxId)
    requires Enabled(s, e) && !e.Fork? && !e.Interrupt? && DeleterAt(s, e.t) && s.threads[e.t].b == b && !e.DeleteFlush?
    requires Others(s.boxes[b].box.queue) <= 1 && |s.boxes[b].box.derefQueue| <= 1
    ensures b < |Next(s, e).boxes| && e.t < |Next(s, e).threads|
    ensures 3 * Weight(WorkOn(b), Next(s, e).threads[e.t]) + Slack(Next(s, e).boxes[b].box)
          < 3 * Weight(WorkOn(b), s.threads[e.t]) + Slack(s.boxes[b].box)
  {
    hide Exclusives;
    hide Others;
    hide WakeOne;
    WakeOneCounts(s.boxes[b].box.queue);
  }

  /** Every step on a closing mailbox lowers its effort; no other step changes it. */
  lemma {:induction false} EffortStep(s: System, e: Step, b: BoxId)
    requires Inv(s) && Enabled(s, e) && Closing(s, b)
    ensures Closing(Next(s, e), b) && Inv(Next(s, e))
    ensures Effort(Next(s, e), b) <= Effort(s, b) - (if StepOn(s, e, b) then 1 else 0)
  {
    hide BoxOk;
    StepInv(s, e);
    StepFrame(s, e);
    StepUnlinked(s, e, b);
    if !StepOn(s, e, b) {
      ElsewhereStep(s, e, b);
    } else if e.Interrupt? {
      DropCounts(s.boxes[b].box.queue, e.i);
    } else if s.threads[e.t].User? {
      UserEffort(s, e, b);
    } else {
      DeleterEffort(s, e, b);
    }
  }

  ghost function StepsOn(s: System, run: seq<Step>, b: BoxId): nat
    requires Run(s, run)
    decreases |run|
  {
    if run == [] then 0
    else (if StepOn(s, run[0], b) then 1 else 0) + StepsOn(Next(s, run[0]), run[1..], b)
  }

  /** Whatever the schedule, at most Effort(s, b) more steps are taken on a closing mailbox. */
  lemma {:induction false} DeletionBound(s: System, run: seq<Step>, b: BoxId)
    requires Inv(s) && Closing(s, b) && Run(s, run)
    ensures Closing(After(s, run), b) && Inv(After(s, run))
    ensures StepsOn(s, run, b) + Effort(After(s, run), b) <= Effort(s, b)
    ensures StepsOn(s, run, b) <= Effort(s, b)
    decreases |run|
  {
    if run != [] {
      EffortStep(s, run[0], b);
      DeletionBound(Next(s, run[0]), run[1..], b);
    } else {
      EffortNatural(s, b);
    }
  }

  // ---------------------------------------------------------------- it does not get stuck

  ghost predicate Stuck(s: System, b: BoxId) {
    exists t :: 0 <= t < |s.threads| && s.threads[t] == User(b, Undefined)
  }

  /** A claimant outside the two waits can always take its next step. */
  lemma ClaimantMoves(s: System, t: Tid) returns (e: Step)
    requires Inv(s) && UserAt(s, t) && !Waits(s.threads[t], s.threads[t].b) && !s.threads[t].pc.Undefined?
    ensures Enabled(s, e) && Actor(e) == t && StepOn(s, e, s.threads[t].b)
  {
    match s.threads[t].pc
    case Sending(_) => e := Create(t, 0, true, true);
    case Adding(_, _, _) => e := EnterAdd(t, false);
    case Receiving(_) => e := EnterRemove(t, false);
    case Holding(_) => e := CopyOut(t, true);
    case Managing(_) => e := ReadCount(t, true);
    case Halting => e := HaltBox(t);
    case Leaving(_) => e := GiveUp(t);
    case Delivered(_) => e := GiveUp(t);
  }

  /** A deletion thread that has not finished can take a step, or sleeps for waiters, or
      sleeps for claims. */
  lemma DeleterMoves(s: System, t: Tid) returns (e: Step)
    requires Inv(s) && DeleterAt(s, t) && !s.threads[t].d.Gone?
    requires s.threads[t].d.WaitWaiters? ==> !Queued(BoxOf(s, t).queue, t)
    requires s.threads[t].d.WaitClaims? ==> !Queued(BoxOf(s, t).derefQueue, t)
    ensures Enabled(s, e) && StepOn(s, e, s.threads[t].b)
  {
    match s.threads[t].d
    case Start => e := DeleteStart(t);
    case Polling(_) => e := DeleteUnlink(t);
    case Unlinked => e := DeleteStop(t);
    case Stopped => e := DeleteFlush(t);
    case WaitWaiters => e := DeleteFlush(t);
    case Flushed => e := DeleteAwait(t);
    case WaitClaims => e := DeleteAwait(t);
    case Unclaimed => e := DeleteFree(t);
  }

  /** Until a closing mailbox is freed, some step on it is enabled, unless a claimant took a
      message that was not there. */
  lemma DeletionNotStuck(s: System, b: BoxId) returns (e: Step)
    requires Inv(s) && Closing(s, b) && !s.boxes[b].log.freed && !Stuck(s, b)
    ensures Enabled(s, e) && StepOn(s, e, b)
  {
    var t := SumPositive(s.threads, DeletesOf(b));
    DeleterAwake(s, t);
    var x := s.boxes[b].box;
    if s.threads[t].d.WaitWaiters? && Queued(x.queue, t) {
      var i :| 0 <= i < |x.queue| && x.queue[i].tid == t;
      OthersPositive(x.queue, i);
      e := CascadeGoesOn(s, b);
    } else if s.threads[t].d.WaitClaims? && Queued(x.derefQueue, t) {
      var u := SumPositive(s.threads, ClaimsOn(b));
      if Waits(s.threads[u], b) {
        SumUpdate(s.threads, u, Idle(0), WaitsOn(b));
        assert false;
      }
      e := ClaimantMoves(s, u);
    } else {
      e := DeleterMoves(s, t);
    }
  }

  /** A run that leaves no step on a closing mailbox has freed it or has left a claimant
      stuck; and no run can put that off by more than Effort(s, b) steps on it. */
  lemma DeletionCompletes(s: System, run: seq<Step>, b: BoxId)
    requires Reachable(s) && Closing(s, b) && Run(s, run)
    requires forall e :: Enabled(After(s, run), e) ==> !StepOn(After(s, run), e, b)
    ensures b < |After(s, run).boxes|
    ensures After(s, run).boxes[b].log.freed || Stuck(After(s, run), b)
    ensures StepsOn(s, run, b) <= Effort(s, b)
  {
    ReachableInv(s);
    DeletionBound(s, run, b);
    var z := After(s, run);
    if !z.boxes[b].log.freed && !Stuck(z, b) {
      var e := DeletionNotStuck(z, b);
      assert false;
    }
  }
}
