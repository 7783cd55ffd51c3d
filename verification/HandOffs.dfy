/**
 Who is woken, and what the woken task then finds. Every step's effect on the queue of every
 mailbox is given by the number of wake-ups it makes; a wake-up releases the first exclusive
 sleeper, whose next step is then enabled.
 */
module HandOffs {
  import opened Codes
  import opened WaitQueues
  import opened MailboxSpec
  import opened Sections
  import opened Protocol
  import opened Tallies
  import opened Invariant
  import opened InvariantSteps
  import opened StepFacts
  import opened Conservation
  import opened Refinement

  /** How often a step wakes up the queue of b: once for a message linked or taken, once for a
      waiter that leaves its wait, once for a stop. */
  ghost function WakeUps(s: System, e: Step, b: BoxId): nat
    requires Enabled(s, e)
  {
    if Site(s, e) != b then 0
    else if e.EnterAdd? || e.ResumeAdd? then AddWakeUps(AddSection(s, e).1, e.ResumeAdd?)
    else if e.EnterRemove? || e.ResumeRemove? then RemoveWakeUps(RemoveSection(s, e).1, e.ResumeRemove?)
    else if e.HaltBox? || e.ExitHook? || e.DeleteStop? then 1
    else 0
  }

  function AddWakeUps(v: Verdict, waited: bool): nat {
    (if v == Done(0) then 1 else 0) + (if !v.Slept? && (waited || v == Done(MAILBOX_ERROR)) then 1 else 0)
  }

  function RemoveWakeUps(v: Verdict, waited: bool): nat {
    (if v.Took? || v.Phantom? then 1 else 0) + (if !v.Slept? && (waited || v == Done(MAILBOX_ERROR)) then 1 else 0)
  }

  /** The step puts its task to sleep on the queue of b. */
  ghost predicate Joins(s: System, e: Step, b: BoxId)
    requires Enabled(s, e)
  {
    Site(s, e) == b && match e
                       case EnterAdd(_, _) => AddSection(s, e).1.Slept?
                       case ResumeAdd(_, _) => AddSection(s, e).1.Slept?
                       case EnterRemove(_, _) => RemoveSection(s, e).1.Slept?
                       case ResumeRemove(_, _) => RemoveSection(s, e).1.Slept?
                       case DeleteFlush(t) => BoxOf(s, t).waiting != 0
                       case _ => false
  }

  /** An add section of the protocol does what an add does. */
  lemma AddStepDoes(s: System, e: Step)
    requires Enabled(s, e) && (e.EnterAdd? || e.ResumeAdd?)
    ensures var (b, pc) := (s.threads[e.t].b, s.threads[e.t].pc);
            && b < |Next(s, e).boxes|
            && AddDoes(s.boxes[b].box, Next(s, e).boxes[b].box, AddSection(s, e).1, e.t, pc.m,
                       e.ResumeAdd? || pc.block, pc.head, e.sig, e.ResumeAdd?)
  {
    hide Next;
    hide AddDoes;
    var x, pc := BoxOf(s, e.t), s.threads[e.t].pc;
    AddSectionKeeps(s, e);
    if e.EnterAdd? {
      AddEnterDoes(x, e.t, pc.m, pc.block, pc.head, e.sig);
    } else {
      AddWaitDoes(x, e.t, pc.m, pc.head, e.sig);
    }
    hide AddEnter;
    hide AddWait;
  }

  lemma RemoveStepDoes(s: System, e: Step)
    requires Enabled(s, e) && (e.EnterRemove? || e.ResumeRemove?)
    ensures var (b, pc) := (s.threads[e.t].b, s.threads[e.t].pc);
            && b < |Next(s, e).boxes|
            && RemoveDoes(s.boxes[b].box, Next(s, e).boxes[b].box, RemoveSection(s, e).1, e.t,
                          e.ResumeRemove? || pc.block, e.sig, e.ResumeRemove?)
  {
    hide Next;
    hide RemoveDoes;
    var x, pc := BoxOf(s, e.t), s.threads[e.t].pc;
    RemoveSectionKeeps(s, e);
    if e.EnterRemove? {
      RemoveEnterDoes(x, e.t, pc.block, e.sig);
    } else {
      RemoveWaitDoes(x, e.t, e.sig);
    }
    hide RemoveEnter;
    hide RemoveWait;
  }

  /** r is q without the task at position i. */
  predicate WithoutAt(q: seq<Waiter>, r: seq<Waiter>, i: nat) {
    && i < |q| && |r| == |q| - 1
    && forall j :: 0 <= j < |r| ==> r[j] == if j < i then q[j] else q[j + 1]
  }

  /** The queue of every mailbox after every step: the task that sleeps joins at the end, a
      signal takes one task off, and everything else is the wake-ups. */
  lemma {:induction false} StepQueue(s: System, e: Step, b: BoxId)
    requires Enabled(s, e) && b < |s.boxes|
    ensures b < |Next(s, e).boxes|
    ensures var (q, r) := (s.boxes[b].box.queue, Next(s, e).boxes[b].box.queue);
            if Joins(s, e, b) then r == q + [Waiter(e.t, !e.DeleteFlush?)]
            else if e.Interrupt? && e.b == b then WithoutAt(q, r, e.i)
            else Woken(q, r, WakeUps(s, e, b))
  {
    hide Next;
    hide Woken;
    StepFrame(s, e);
    var q := s.boxes[b].box.queue;
    WokenNone(q);
    if Site(s, e) != b {
      assert Next(s, e).boxes[b] == s.boxes[b];
    } else if e.EnterAdd? || e.ResumeAdd? {
      AddStepDoes(s, e);
      hide AddSection;
    } else if e.EnterRemove? || e.ResumeRemove? {
      RemoveStepDoes(s, e);
      hide RemoveSection;
    } else {
      PlainQueue(s, e, b);
    }
  }

  lemma {:induction false} PlainQueue(s: System, e: Step, b: BoxId)
    requires Enabled(s, e) && b < |s.boxes| && Site(s, e) == b
    requires !e.EnterAdd? && !e.ResumeAdd? && !e.EnterRemove? && !e.ResumeRemove?
    ensures b < |Next(s, e).boxes|
    ensures var (q, r) := (s.boxes[b].box.queue, Next(s, e).boxes[b].box.queue);
            if Joins(s, e, b) then r == q + [Waiter(e.t, !e.DeleteFlush?)]
            else if e.Interrupt? && e.b == b then WithoutAt(q, r, e.i)
            else Woken(q, r, WakeUps(s, e, b))
  {
    WokenNone(s.boxes[b].box.queue);
    WokenOnce(s.boxes[b].box.queue);
    hide Woken;
    hide WakeOne;
  }

  // ---------------------------------------------------------------- the released task

  /** The step a woken sender or receiver takes. */
  function ResumeOf(s: System, u: Tid, sig: bool): Step
    requires UserAt(s, u)
  {
    if s.threads[u].pc.WaitAdd? then ResumeAdd(u, sig) else ResumeRemove(u, sig)
  }

  /** A sleeping sender or receiver takes no step itself. */
  lemma SleeperRests(s: System, e: Step, b: BoxId, i: nat)
    requires Inv(s) && Enabled(s, e) && b < |s.boxes| && i < |s.boxes[b].box.queue| && s.boxes[b].box.queue[i].exclusive
    ensures var u := s.boxes[b].box.queue[i].tid; u < |s.threads| && Waits(s.threads[u], b) && u != Actor(e)
    ensures Distinct(s.boxes[b].box.queue)
  {
    InvAt(s, b);
    hide Inv;
    var u := s.boxes[b].box.queue[i].tid;
    assert Queued(s.boxes[b].box.queue, u);
  }

  /** Hand-off: a step that wakes up the queue of b releases the first sender or receiver asleep
      there, and one per wake-up; that task's next step is enabled. */
  lemma {:induction false} HandOff(s: System, e: Step, b: BoxId, i: nat)
    requires Reachable(s) && Enabled(s, e) && b < |s.boxes| && WakeUps(s, e, b) > 0
    requires FirstExclusive(s.boxes[b].box.queue, i)
    ensures b < |Next(s, e).boxes|
    ensures var (q, r, n) := (s.boxes[b].box.queue, Next(s, e).boxes[b].box.queue, WakeUps(s, e, b));
            Exclusives(r) == if Exclusives(q) < n then 0 else Exclusives(q) - n
    ensures var (u, s') := (s.boxes[b].box.queue[i].tid, Next(s, e));
            && u < |s.threads| && UserAt(s', u) && s'.threads[u] == s.threads[u] && Waits(s'.threads[u], b)
            && Awake(s', u) && forall sig :: Enabled(s', ResumeOf(s', u, sig))
  {
    hide Next;
    hide Woken;
    hide AddSection;
    hide RemoveSection;
    ReachableInv(s);
    StepQueue(s, e, b);
    WokenIsNoJoin(s, e, b);
    SleeperRests(s, e, b, i);
    StepFrame(s, e);
    var q, r, u := s.boxes[b].box.queue, Next(s, e).boxes[b].box.queue, s.boxes[b].box.queue[i].tid;
    WokenFirst(q, r, WakeUps(s, e, b), i);
    WokenOff(q, r, WakeUps(s, e, b), i);
  }

  lemma WokenIsNoJoin(s: System, e: Step, b: BoxId)
    requires Enabled(s, e) && WakeUps(s, e, b) > 0
    ensures !Joins(s, e, b) && !e.Interrupt?
  {
    hide AddSection;
    hide RemoveSection;
  }

  lemma WokenOff(q: seq<Waiter>, r: seq<Waiter>, n: nat, i: nat)
    requires Woken(q, r, n) && Distinct(q) && i < |q| && |r| < |q| - i
    ensures !Queued(r, q[i].tid)
  {
    forall j | 0 <= j < |r| ensures r[j].tid != q[i].tid { assert r[j] == q[|q| - |r| + j]; }
  }

  /** A message linked while a receiver is first in the queue reaches it: the receiver's next
      step takes the head of the list. */
  lemma {:induction false} ReceiverGetsMessage(s: System, e: Step, i: nat, sig: bool)
    requires Reachable(s) && Enabled(s, e) && (e.EnterAdd? || e.ResumeAdd?) && AddSection(s, e).1 == Done(0)
    requires FirstExclusive(BoxOf(s, e.t).queue, i)
    requires var u := BoxOf(s, e.t).queue[i].tid; u < |s.threads| && s.threads[u] == User(s.threads[e.t].b, WaitRemove)
    ensures var (b, u, s') := (s.threads[e.t].b, BoxOf(s, e.t).queue[i].tid, Next(s, e));
            && Enabled(s', ResumeRemove(u, sig)) && b < |s'.boxes| && s'.boxes[b].box.messages != []
            && u < |Next(s', ResumeRemove(u, sig)).threads|
            && Next(s', ResumeRemove(u, sig)).threads[u] == User(b, Holding(s'.boxes[b].box.messages[0]))
  {
    hide Next;
    hide AddSection;
    hide Woken;
    var b, u, s' := s.threads[e.t].b, BoxOf(s, e.t).queue[i].tid, Next(s, e);
    AddStepDoes(s, e);
    HandOff(s, e, b, i);
    assert ResumeOf(s', u, sig) == ResumeRemove(u, sig);
    ReachableStep(s, e);
    CapacityAndCount(s', b);
    TakesHead(s', ResumeRemove(u, sig));
  }

  /** A remove that finds a count and a list takes the head. */
  lemma TakesHead(s: System, e: Step)
    requires Enabled(s, e) && (e.EnterRemove? || e.ResumeRemove?) && BoxOf(s, e.t).count != 0 && BoxOf(s, e.t).messages != []
    ensures e.t < |Next(s, e).threads|
    ensures Next(s, e).threads[e.t] == User(s.threads[e.t].b, Holding(BoxOf(s, e.t).messages[0]))
  {
    hide Next;
    hide Woken;
    RemoveStepDoes(s, e);
    RemoveSectionKeeps(s, e);
    hide RemoveSection;
  }

  /** A message taken from an open mailbox while a sender is first in the queue makes room for
      it: the sender's next step links its message and ends its add with 0. */
  lemma {:induction false} SenderGetsRoom(s: System, e: Step, i: nat, sig: bool)
    requires Reachable(s) && Enabled(s, e) && (e.EnterRemove? || e.ResumeRemove?) && RemoveSection(s, e).1.Took?
    requires FirstExclusive(BoxOf(s, e.t).queue, i) && BoxOf(s, e.t).stopped == 0
    requires var u := BoxOf(s, e.t).queue[i].tid;
             u < |s.threads| && s.threads[u].User? && s.threads[u].b == s.threads[e.t].b && s.threads[u].pc.WaitAdd?
    ensures var (b, u, s') := (s.threads[e.t].b, BoxOf(s, e.t).queue[i].tid, Next(s, e));
            && Enabled(s', ResumeAdd(u, sig)) && AddSection(s', ResumeAdd(u, sig)).1 == Done(0)
            && b < |s'.boxes| && b < |Next(s', ResumeAdd(u, sig)).boxes|
            && s.threads[u].pc.m in Next(s', ResumeAdd(u, sig)).boxes[b].box.messages
  {
    hide Next;
    hide AddSection;
    hide RemoveSection;
    hide Woken;
    var b, u, s' := s.threads[e.t].b, BoxOf(s, e.t).queue[i].tid, Next(s, e);
    RemoveStepDoes(s, e);
    HandOff(s, e, b, i);
    assert ResumeOf(s', u, sig) == ResumeAdd(u, sig);
    CapacityAndCount(s, b);
    AddStepDoes(s', ResumeAdd(u, sig));
  }

  // ---------------------------------------------------------------- signals

  /** A signal reaches every sleeping sender and receiver, wherever it stands in the queue: it
      takes that task off and no other, and the task's next step is enabled. */
  lemma {:induction false} SignalReaches(s: System, b: BoxId, i: nat)
    requires Reachable(s) && b < |s.boxes| && i < |s.boxes[b].box.queue| && s.boxes[b].box.queue[i].exclusive
    ensures Enabled(s, Interrupt(b, i))
    ensures var (u, s') := (s.boxes[b].box.queue[i].tid, Next(s, Interrupt(b, i)));
            && UserAt(s', u) && Waits(s'.threads[u], b) && Awake(s', u) && Enabled(s', ResumeOf(s', u, true))
            && s'.threads == s.threads && b < |s'.boxes|
            && s'.boxes[b] == s.boxes[b].(box := s.boxes[b].box.(queue := s'.boxes[b].box.queue))
            && WithoutAt(s.boxes[b].box.queue, s'.boxes[b].box.queue, i)
  {
    ReachableInv(s);
    var e, q := Interrupt(b, i), s.boxes[b].box.queue;
    SleeperRests(s, e, b, i);
    StepQueue(s, e, b);
    hide Inv;
    hide Reachable;
    var r := Next(s, e).boxes[b].box.queue;
    forall j | 0 <= j < |r| ensures r[j].tid != q[i].tid { assert r[j] == if j < i then q[j] else q[j + 1]; }
  }

  /** ... and it gets the task out of its call, if it still could not go on: a blocked sender or
      receiver that was signalled ends with MAILBOX_ERROR, and passes one wake-up on. */
  lemma {:induction false} SignalEnds(s: System, u: Tid)
    requires UserAt(s, u) && (s.threads[u].pc.WaitAdd? || s.threads[u].pc.WaitRemove?) && Awake(s, u)
    requires BoxOf(s, u).stopped == 0
    requires if s.threads[u].pc.WaitAdd? then BoxOf(s, u).count >= CAPACITY else BoxOf(s, u).count == 0
    ensures var (e, b) := (ResumeOf(s, u, true), s.threads[u].b);
            && Enabled(s, e) && u < |Next(s, e).threads| && b < |Next(s, e).boxes|
            && Next(s, e).threads[u]
               == User(b, Leaving(if s.threads[u].pc.WaitAdd? && s.threads[u].pc.head then MSG_ARG_ERROR else MAILBOX_ERROR))
            && Next(s, e).boxes[b].box.waiting == s.boxes[b].box.waiting - 1
            && Woken(s.boxes[b].box.queue, Next(s, e).boxes[b].box.queue, 1)
  {
    hide Next;
    hide Woken;
    var e := ResumeOf(s, u, true);
    if s.threads[u].pc.WaitAdd? {
      AddStepDoes(s, e);
      AddThread(s, e);
      hide AddSection;
    } else {
      RemoveStepDoes(s, e);
      RemoveSectionKeeps(s, e);
      hide RemoveSection;
    }
  }
}
