/**
 After a stop. The single wake-up of __mailbox_stop reaches every sleeping sender and
 receiver, because each of them passes it on when it leaves.
 */
module StopCascade {
  import opened Codes
  import opened WaitQueues
  import opened MailboxSpec
  import opened BoxInvariant
  import opened Protocol
  import opened Tallies
  import opened Invariant
  import opened InvariantSteps
  import opened StepFacts

  ghost predicate IsStopped(s: System, b: BoxId) {
    b < |s.boxes| && s.boxes[b].box.stopped != 0
  }

  /** Twice the sleeping plus the woken senders and receivers of b. */
  ghost function Unrest(s: System, b: BoxId): nat
    requires b < |s.boxes|
  {
    Sum(s.threads, WaitsOn(b)) + Exclusives(s.boxes[b].box.queue)
  }

  /** A step of a waiter of b: it runs again after a wake-up, or a signal wakes it. */
  ghost predicate WaiterStep(s: System, e: Step, b: BoxId)
    requires Enabled(s, e)
  {
    match e
    case ResumeAdd(t, _) => s.threads[t].b == b
    case ResumeRemove(t, _) => s.threads[t].b == b
    case Interrupt(c, _) => c == b
    case _ => false
  }

  /** No sender or receiver is asleep in y that was not asleep in x. */
  predicate NoNewSleeper(x: Box, y: Box) {
    forall w :: w in y.queue && w.exclusive ==> w in x.queue
  }

  /** A stopped mailbox only calms down. */
  predicate Calmer(x: Box, y: Box) {
    NoNewSleeper(x, y) && y.waiting <= x.waiting && Exclusives(y.queue) <= Exclusives(x.queue)
  }

  lemma WakeCalms(x: Box, y: Box)
    requires y.queue == WakeOne(x.queue) && y.waiting <= x.waiting
    ensures Calmer(x, y)
  {
    WakeOneCounts(x.queue);
  }

  /** On a stopped mailbox an add never sleeps and never links a message. */
  lemma StoppedAdd(x: Box, t: Tid, m: MsgId, block: bool, head: bool, sig: bool)
    requires x.stopped != 0
    ensures AddEnter(x, t, m, block, head, sig) == (x, Done(MAILBOX_STOPPED))
    ensures AddWait(x, t, m, head, sig) == (StopWaiting(x), Done(MAILBOX_STOPPED))
    ensures Calmer(x, StopWaiting(x))
  {
    WakeCalms(x, StopWaiting(x));
  }

  /** On a stopped mailbox a remove never sleeps. */
  lemma StoppedRemove(x: Box, t: Tid, block: bool, sig: bool)
    requires x.stopped != 0
    ensures !RemoveEnter(x, t, block, sig).1.Slept? && Calmer(x, RemoveEnter(x, t, block, sig).0)
    ensures !RemoveWait(x, t, sig).1.Slept? && Calmer(x, RemoveWait(x, t, sig).0)
    ensures RemoveWait(x, t, sig).0.waiting == x.waiting - 1
  {
    WakeCalms(x, Unlink(x).0);
    var y := StopWaiting(x);
    WakeCalms(x, y);
    WakeCalms(y, Unlink(y).0);
  }

  /** One step on a stopped mailbox: it stays stopped, nobody newly sleeps, and a waiter's
      step brings the cascade forward. */
  lemma {:induction false} StoppedStep(s: System, e: Step, b: BoxId)
    requires Inv(s) && Enabled(s, e) && IsStopped(s, b)
    ensures IsStopped(Next(s, e), b) && Inv(Next(s, e))
    ensures Calmer(s.boxes[b].box, Next(s, e).boxes[b].box)
    ensures Unrest(Next(s, e), b) <= Unrest(s, b) - (if WaiterStep(s, e, b) then 1 else 0)
    ensures WaiterStep(s, e, b) && !e.Interrupt? ==> Next(s, e).boxes[b].box.waiting == s.boxes[b].box.waiting - 1
  {
    hide BoxOk;
    StepInv(s, e);
    StepFrame(s, e);
    var s' := Next(s, e);
    StoppedBox(s, e, b);
    WaitingExact(s, b);
    WaitingExact(s', b);
  }

  lemma WaitingExact(s: System, b: BoxId)
    requires Inv(s) && b < |s.boxes|
    ensures s.boxes[b].box.waiting == Sum(s.threads, WaitsOn(b))
  {
  }

  lemma {:induction false} StoppedBox(s: System, e: Step, b: BoxId)
    requires Enabled(s, e) && IsStopped(s, b)
    ensures b < |Next(s, e).boxes|
    ensures Calmer(s.boxes[b].box, Next(s, e).boxes[b].box)
    ensures WaiterStep(s, e, b) && !e.Interrupt? ==> Next(s, e).boxes[b].box.waiting == s.boxes[b].box.waiting - 1
    ensures WaiterStep(s, e, b) && e.Interrupt? ==>
              Exclusives(Next(s, e).boxes[b].box.queue) == Exclusives(s.boxes[b].box.queue) - 1
  {
    StepFrame(s, e);
    if Site(s, e) == b {
      if e.EnterAdd? || e.ResumeAdd? || e.EnterRemove? || e.ResumeRemove? {
        StoppedSection(s, e, b);
      } else {
        StoppedBoxOther(s, e, b);
      }
    }
  }

  lemma {:induction false} StoppedSection(s: System, e: Step, b: BoxId)
    requires Enabled(s, e) && IsStopped(s, b) && Site(s, e) == b
    requires e.EnterAdd? || e.ResumeAdd? || e.EnterRemove? || e.ResumeRemove?
    ensures b < |Next(s, e).boxes|
    ensures Calmer(s.boxes[b].box, Next(s, e).boxes[b].box)
    ensures e.ResumeAdd? || e.ResumeRemove? ==> Next(s, e).boxes[b].box.waiting == s.boxes[b].box.waiting - 1
  {
    hide Next;
    hide Calmer;
    var x, t, pc := s.boxes[b].box, e.t, s.threads[e.t].pc;
    CalmerSame(x);
    if e.EnterAdd? {
      AddSectionKeeps(s, e);
      StoppedAdd(x, t, pc.m, pc.block, pc.head, e.sig);
    } else if e.ResumeAdd? {
      AddSectionKeeps(s, e);
      StoppedAdd(x, t, pc.m, true, pc.head, e.sig);
    } else if e.EnterRemove? {
      RemoveSectionKeeps(s, e);
      StoppedRemove(x, t, pc.block, e.sig);
    } else {
      RemoveSectionKeeps(s, e);
      StoppedRemove(x, t, true, e.sig);
    }
  }

  lemma CalmerSame(x: Box)
    ensures Calmer(x, x)
  {
  }

  lemma {:induction false} StoppedBoxOther(s: System, e: Step, b: BoxId)
    requires Enabled(s, e) && IsStopped(s, b) && Site(s, e) == b
    requires !e.EnterAdd? && !e.ResumeAdd? && !e.EnterRemove? && !e.ResumeRemove?
    ensures b < |Next(s, e).boxes|
    ensures Calmer(s.boxes[b].box, Next(s, e).boxes[b].box)
    ensures e.Interrupt? ==> Exclusives(Next(s, e).boxes[b].box.queue) == Exclusives(s.boxes[b].box.queue) - 1
  {
    var x := s.boxes[b].box;
    match e
    case Interrupt(_, i) => DropCounts(x.queue, i);
    case HaltBox(_) => WakeCalms(x, Halt(x, STOPPED));
    case ExitHook(_, _) => WakeCalms(x, Halt(x, EXITING_AND_STOPPED));
    case DeleteStop(_) => WakeCalms(x, Halt(x, EXITING_AND_STOPPED));
    case DeleteFlush(t) => AppendCounts(x.queue, Waiter(t, false));
    case _ =>
  }

  // ---------------------------------------------------------------- whole runs

  ghost function WaiterSteps(s: System, run: seq<Step>, b: BoxId): nat
    requires Run(s, run)
    decreases |run|
  {
    if run == [] then 0
    else (if WaiterStep(s, run[0], b) then 1 else 0) + WaiterSteps(Next(s, run[0]), run[1..], b)
  }

  /** Stop is absorbing and the cascade is finite: however the tasks interleave after a stop,
      the mailbox stays stopped, nobody goes to sleep on it, and its waiters take at most
      2 * asleep + woken steps between them. */
  lemma {:induction false} CascadeBound(s: System, run: seq<Step>, b: BoxId)
    requires Inv(s) && IsStopped(s, b) && Run(s, run)
    ensures IsStopped(After(s, run), b)
    ensures NoNewSleeper(s.boxes[b].box, After(s, run).boxes[b].box)
    ensures WaiterSteps(s, run, b) + Unrest(After(s, run), b) <= Unrest(s, b)
    decreases |run|
  {
    if run != [] {
      StoppedStep(s, run[0], b);
      CascadeBound(Next(s, run[0]), run[1..], b);
    }
  }

  /** The cascade never breaks off: while anyone is inside a wait on a stopped mailbox, some
      waiter is awake, and its next step is enabled. */
  lemma CascadeGoesOn(s: System, b: BoxId) returns (e: Step)
    requires Inv(s) && IsStopped(s, b) && s.boxes[b].box.waiting > 0
    ensures Enabled(s, e) && WaiterStep(s, e, b) && !e.Interrupt?
  {
    assert BoxOk(s.threads, s.boxes[b], b, Linked(s, b));
    var t := SomeAwake(s.boxes[b].box.queue, s.threads, b);
    e := if s.threads[t].pc.WaitAdd? then ResumeAdd(t, false) else ResumeRemove(t, false);
  }

  /** So the waiters of a stopped mailbox can always leave, in as many steps as there are
      waiters. */
  lemma {:induction false} CascadeEmpties(s: System, b: BoxId) returns (run: seq<Step>)
    requires Inv(s) && IsStopped(s, b)
    ensures Run(s, run) && |run| == s.boxes[b].box.waiting
    ensures IsStopped(After(s, run), b) && After(s, run).boxes[b].box.waiting == 0
    decreases s.boxes[b].box.waiting
  {
    hide Inv;
    hide Enabled;
    hide Next;
    WaitingExact(s, b);
    if s.boxes[b].box.waiting == 0 {
      run := [];
    } else {
      var e := CascadeGoesOn(s, b);
      StoppedStep(s, e, b);
      var rest := CascadeEmpties(Next(s, e), b);
      RunCons(s, e, rest);
      run := [e] + rest;
    }
  }
}
