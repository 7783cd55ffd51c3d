/**
 The order of a mailbox over whole runs.
 */
module FifoRuns {
  import opened Codes
  import opened WaitQueues
  import opened MailboxSpec
  import opened BoxInvariant
  import opened Protocol
  import opened Tallies
  import opened Invariant
  import opened InvariantSteps
  import opened StepFacts
  import opened StopCascade
  import opened Conservation
  import opened Ordering

  /** An accepted put-back on b of a message that is not the last one taken. */
  ghost predicate OutOfTurn(s: System, e: Step, b: BoxId)
    requires Enabled(s, e) && b < |s.boxes|
  {
    && (e.EnterAdd? || e.ResumeAdd?) && PutsBack(s, e, b, s.threads[e.t].pc.m)
    && var taken := s.boxes[b].log.taken; taken != [] && taken[|taken| - 1] != s.threads[e.t].pc.m
  }

  /** Everything proved so far about one state. */
  ghost predicate Known(s: System) { Inv(s) && Tracked(s) && Books(s) }

  lemma {:induction false} StepKnown(s: System, e: Step)
    requires Known(s) && Enabled(s, e)
    ensures Known(Next(s, e))
  {
    hide Inv;
    hide Tracked;
    hide Books;
    StepInv(s, e);
    StepTracked(s, e);
    StepBooks(s, e);
  }

  /** From an ordered mailbox, a step leads to an ordered mailbox exactly if it is not a
      put-back out of turn. */
  lemma {:induction false} StepOrder(s: System, e: Step, b: BoxId)
    requires Known(s) && Enabled(s, e) && b < |s.boxes| && InOrder(s.boxes[b])
    ensures b < |Next(s, e).boxes|
    ensures InOrder(Next(s, e).boxes[b]) <==> !OutOfTurn(s, e, b)
  {
    hide Inv;
    hide Next;
    StepFrame(s, e);
    if Site(s, e) == b {
      if e.EnterAdd? || e.ResumeAdd? {
        AddStepOrder(s, e, b);
      } else if e.EnterRemove? || e.ResumeRemove? {
        RemoveOrder(s, e, b);
      } else if e.DeleteFlush? {
        FlushFacts(s, b);
        assert TakenOk(s, b);
        FlushOrder(s, e, b);
      } else {
        LogsKept(s, e);
        assert SameOrder(s.boxes[b], Next(s, e).boxes[b]);
      }
    } else {
      assert Next(s, e).boxes[b] == s.boxes[b];
    }
  }

  lemma FlushFacts(s: System, b: BoxId)
    requires Inv(s) && b < |s.boxes|
    ensures s.boxes[b].log.flushed ==> s.boxes[b].box.messages == [] && s.boxes[b].box.stopped != 0
  {
  }

  lemma {:induction false} AddStepOrder(s: System, e: Step, b: BoxId)
    requires Known(s) && Enabled(s, e) && (e.EnterAdd? || e.ResumeAdd?) && s.threads[e.t].b == b
    requires b < |s.boxes| && InOrder(s.boxes[b])
    ensures b < |Next(s, e).boxes|
    ensures InOrder(Next(s, e).boxes[b]) <==> !OutOfTurn(s, e, b)
  {
    hide Inv;
    hide Next;
    AddThread(s, e);
    assert TakenOk(s, b);
    FlushFacts(s, b);
    var pc, v := s.threads[e.t].pc, AddSection(s, e).1;
    if pc.head && v == Done(0) {
      PutBackOrder(s, e, b, pc.m);
    } else if pc.head && v.Done? {
      RefusalOrder(s, e, b);
    } else if s.boxes[b].log.flushed {
      StoppedAdd(s.boxes[b].box, e.t, pc.m, if e.EnterAdd? then pc.block else true, pc.head, e.sig);
      StoppedAddOrder(s, e, b);
    } else {
      AddOrder(s, e, b);
    }
  }

  lemma StoppedAddOrder(s: System, e: Step, b: BoxId)
    requires Enabled(s, e) && (e.EnterAdd? || e.ResumeAdd?) && s.threads[e.t].b == b
    requires !s.threads[e.t].pc.head && AddSection(s, e).1 == Done(MAILBOX_STOPPED) && InOrder(s.boxes[b])
    ensures b < |Next(s, e).boxes| && InOrder(Next(s, e).boxes[b])
  {
  }

  // ---------------------------------------------------------------- runs

  ghost predicate OrderedAt(s: System, b: BoxId) { b < |s.boxes| ==> InOrder(s.boxes[b]) }

  /** No step of the run is a put-back on b out of turn. */
  ghost predicate InTurn(s: System, run: seq<Step>, b: BoxId)
    requires Run(s, run)
    decreases |run|
  {
    run == [] || ((b < |s.boxes| ==> !OutOfTurn(s, run[0], b)) && InTurn(Next(s, run[0]), run[1..], b))
  }

  lemma FreshOrdered(s: System, e: Step, b: BoxId)
    requires Enabled(s, e) && b >= |s.boxes|
    ensures OrderedAt(Next(s, e), b)
  {
    hide Next;
    StepFrame(s, e);
    if |Next(s, e).boxes| > |s.boxes| { GrowsByLookup(s, e); }
  }

  lemma {:induction false} GrowsByLookup(s: System, e: Step)
    requires Enabled(s, e) && |Next(s, e).boxes| > |s.boxes|
    ensures e.Lookup? && Next(s, e).boxes[|s.boxes|] == Slot(MailboxSpec.Claim(Created(e.pid)), EMPTY_LOG)
  {
    hide WakeOne;
    if e.EnterAdd? || e.ResumeAdd? {
      AddSectionKeeps(s, e);
    } else if e.EnterRemove? || e.ResumeRemove? {
      RemoveSectionKeeps(s, e);
    }
  }

  /** FIFO over runs: in turn, every mailbox stays in order, with any number of concurrent
      senders and receivers. */
  lemma {:induction false} RunOrder(s: System, run: seq<Step>, b: BoxId)
    requires Known(s) && OrderedAt(s, b) && Run(s, run) && InTurn(s, run, b)
    ensures OrderedAt(After(s, run), b)
    decreases |run|
  {
    hide Known;
    hide Next;
    if run != [] {
      StepKnown(s, run[0]);
      if b < |s.boxes| { StepOrder(s, run[0], b); } else { FreshOrdered(s, run[0], b); }
      RunOrder(Next(s, run[0]), run[1..], b);
    }
  }

  // ---------------------------------------------------------------- receives that do not overlap

  /** th took a message off b and has neither delivered it nor finished putting it back. */
  predicate InHand(th: Thread, b: BoxId) {
    ReceiverHolds(th) && th.b == b && !th.pc.Delivered?
  }

  ghost predicate Alone(s: System, b: BoxId) {
    forall t, u :: 0 <= t < |s.threads| && 0 <= u < |s.threads| && InHand(s.threads[t], b) && InHand(s.threads[u], b)
      ==> t == u
  }

  ghost predicate NobodyInHand(s: System, b: BoxId) {
    forall t :: 0 <= t < |s.threads| ==> !InHand(s.threads[t], b)
  }

  /** Taken off is delivered plus the message in hand. */
  ghost predicate HandOk(s: System, b: BoxId) {
    b < |s.boxes| ==>
      var log := s.boxes[b].log;
      && (forall t :: 0 <= t < |s.threads| && InHand(s.threads[t], b) ==> log.taken == log.delivered + [s.threads[t].pc.m])
      && (NobodyInHand(s, b) ==> log.taken == log.delivered)
  }

  /** At every point of the run at most one receive of b is between taking and finishing. */
  ghost predicate AloneThroughout(s: System, run: seq<Step>, b: BoxId)
    requires Run(s, run)
    decreases |run|
  {
    Alone(s, b) && (run == [] || AloneThroughout(Next(s, run[0]), run[1..], b))
  }

  lemma {:induction false} HandStep(s: System, e: Step, b: BoxId)
    requires Known(s) && Enabled(s, e) && HandOk(s, b) && Alone(s, b) && Alone(Next(s, e), b)
    ensures HandOk(Next(s, e), b)
    ensures b < |s.boxes| ==> !OutOfTurn(s, e, b)
  {
    hide Inv;
    hide Books;
    hide Next;
    StepFrame(s, e);
    if b >= |s.boxes| {
      if |Next(s, e).boxes| > |s.boxes| { FreshHand(s, e); }
    } else if (e.EnterAdd? || e.ResumeAdd?) && s.threads[e.t].b == b && s.threads[e.t].pc.head {
      PutBackHand(s, e, b);
    } else if (e.EnterRemove? || e.ResumeRemove?) && s.threads[e.t].b == b {
      TakeHand(s, e, b);
    } else if e.CopyOut? && s.threads[e.t].b == b {
      CopyHand(s, e, b);
    } else {
      OtherHand(s, e, b);
    }
  }

  lemma FreshHand(s: System, e: Step)
    requires Known(s) && Enabled(s, e) && |Next(s, e).boxes| > |s.boxes|
    ensures HandOk(Next(s, e), |s.boxes|)
  {
    hide Inv;
    hide Books;
    GrowsByLookup(s, e);
    forall t | 0 <= t < |s.threads| && ReceiverHolds(s.threads[t]) ensures s.threads[t].b < |s.boxes| {}
  }

  lemma PutBackHand(s: System, e: Step, b: BoxId)
    requires Tracked(s) && Enabled(s, e) && b < |s.boxes| && HandOk(s, b) && Alone(s, b)
    requires (e.EnterAdd? || e.ResumeAdd?) && s.threads[e.t].b == b && s.threads[e.t].pc.head
    ensures HandOk(Next(s, e), b) && !OutOfTurn(s, e, b)
  {
    assert TakenOk(s, b);
    hide Tracked;
    hide TakenOk;
    hide Next;
    hide AddSection;
    PutBackInTurn(s, e, b);
    AddThread(s, e);
    AddLog(s, e);
    HandMove(s, Next(s, e), e.t, b, s.threads[e.t].pc.m, AddSection(s, e).1.Done?);
  }

  lemma PutBackInTurn(s: System, e: Step, b: BoxId)
    requires Enabled(s, e) && b < |s.boxes| && HandOk(s, b) && NoDup(s.boxes[b].log.taken)
    requires (e.EnterAdd? || e.ResumeAdd?) && s.threads[e.t].b == b && s.threads[e.t].pc.head
    ensures InHand(s.threads[e.t], b) && !OutOfTurn(s, e, b)
  {
  }

  /** The one task with a message of b in hand ends its put-back, or sleeps in it. */
  lemma HandMove(s: System, s': System, t: Tid, b: BoxId, m: MsgId, done: bool)
    requires b < |s.boxes| && b < |s'.boxes| && t < |s.threads| && |s'.threads| == |s.threads|
    requires s'.threads == s.threads[t := s'.threads[t]]
    requires Alone(s, b) && HandOk(s, b) && NoDup(s.boxes[b].log.taken)
    requires InHand(s.threads[t], b) && s.threads[t].pc.m == m
    requires s'.boxes[b].log.delivered == s.boxes[b].log.delivered
    requires done ==> !InHand(s'.threads[t], b) && s'.boxes[b].log.taken == Without(s.boxes[b].log.taken, m)
    requires !done ==> InHand(s'.threads[t], b) && s'.threads[t].pc.m == m && s'.boxes[b].log.taken == s.boxes[b].log.taken
    ensures HandOk(s', b)
  {
    HandTop(s.boxes[b].log.taken, s.boxes[b].log.delivered, m);
    forall u | 0 <= u < |s'.threads| && u != t ensures !InHand(s'.threads[u], b) {
      assert s'.threads[u] == s.threads[u];
    }
  }

  lemma HandTop(taken: seq<MsgId>, delivered: seq<MsgId>, m: MsgId)
    requires NoDup(taken) && taken == delivered + [m]
    ensures taken[|taken| - 1] == m && Without(taken, m) == delivered
  {
    WithoutLast(taken, m);
    assert (Without(taken, m) + [m])[..|taken| - 1] == delivered;
  }

  lemma TakeHand(s: System, e: Step, b: BoxId)
    requires Enabled(s, e) && b < |s.boxes| && HandOk(s, b) && Alone(Next(s, e), b)
    requires (e.EnterRemove? || e.ResumeRemove?) && s.threads[e.t].b == b
    ensures HandOk(Next(s, e), b) && !OutOfTurn(s, e, b)
  {
    hide Next;
    hide RemoveSection;
    RemoveTrace(s, e);
    HandTake(s, Next(s, e), e.t, b);
  }

  lemma RemoveTrace(s: System, e: Step)
    requires Enabled(s, e) && (e.EnterRemove? || e.ResumeRemove?)
    ensures var (b, s') := (s.threads[e.t].b, Next(s, e));
            && b < |s'.boxes| && |s'.threads| == |s.threads| && s'.threads == s.threads[e.t := s'.threads[e.t]]
            && s'.threads[e.t].User? && s'.threads[e.t].b == b
            && s'.boxes[b].log.delivered == s.boxes[b].log.delivered
            && (if s'.threads[e.t].pc.Holding? then s'.boxes[b].log.taken == s.boxes[b].log.taken + [s'.threads[e.t].pc.m]
                else !InHand(s'.threads[e.t], b) && s'.boxes[b].log.taken == s.boxes[b].log.taken)
  {
    hide Next;
    hide WakeOne;
    RemoveSectionKeeps(s, e);
    hide RemoveSection;
  }

  lemma HandTake(s: System, s': System, t: Tid, b: BoxId)
    requires b < |s.boxes| && b < |s'.boxes| && t < |s.threads| && |s'.threads| == |s.threads|
    requires s'.threads == s.threads[t := s'.threads[t]]
    requires HandOk(s, b) && Alone(s', b) && !InHand(s.threads[t], b)
    requires s'.threads[t].User? && s'.threads[t].b == b
    requires s'.boxes[b].log.delivered == s.boxes[b].log.delivered
    requires if s'.threads[t].pc.Holding? then s'.boxes[b].log.taken == s.boxes[b].log.taken + [s'.threads[t].pc.m]
             else !InHand(s'.threads[t], b) && s'.boxes[b].log.taken == s.boxes[b].log.taken
    ensures HandOk(s', b)
  {
    forall u | 0 <= u < |s.threads| && u != t ensures s'.threads[u] == s.threads[u] {}
    if s'.threads[t].pc.Holding? {
      assert InHand(s'.threads[t], b);
      assert NobodyInHand(s, b);
    } else {
      assert NobodyInHand(s', b) ==> NobodyInHand(s, b);
    }
  }

  lemma CopyHand(s: System, e: Step, b: BoxId)
    requires Enabled(s, e) && b < |s.boxes| && HandOk(s, b) && Alone(s, b)
    requires e.CopyOut? && s.threads[e.t].b == b
    ensures HandOk(Next(s, e), b) && !OutOfTurn(s, e, b)
  {
    var s' := Next(s, e);
    assert InHand(s.threads[e.t], b);
    forall t | 0 <= t < |s.threads| && t != e.t ensures s'.threads[t] == s.threads[t] {}
    if !e.copied {
      assert InHand(s'.threads[e.t], b);
    }
  }

  /** The remaining steps move nothing between the list of b and a hand. */
  lemma OtherHand(s: System, e: Step, b: BoxId)
    requires Enabled(s, e) && b < |s.boxes| && HandOk(s, b)
    requires (e.EnterAdd? || e.ResumeAdd?) ==> s.threads[e.t].b != b || !s.threads[e.t].pc.head
    requires (e.EnterRemove? || e.ResumeRemove? || e.CopyOut?) ==> s.threads[e.t].b != b
    ensures HandOk(Next(s, e), b) && !OutOfTurn(s, e, b)
  {
    hide Next;
    StepFrame(s, e);
    LogStays(s, e, b);
    var s' := Next(s, e);
    forall t | 0 <= t < |s.threads| ensures InHand(s'.threads[t], b) == InHand(s.threads[t], b)
                                    && (InHand(s.threads[t], b) ==> s'.threads[t] == s.threads[t])
    {
      if t == Actor(e) { ActorHand(s, e, b); }
    }
    forall t | |s.threads| <= t < |s'.threads| ensures !InHand(s'.threads[t], b) {}
    assert NobodyInHand(s', b) ==> NobodyInHand(s, b);
  }

  lemma ActorHand(s: System, e: Step, b: BoxId)
    requires Enabled(s, e) && 0 <= Actor(e) < |s.threads|
    requires (e.EnterAdd? || e.ResumeAdd?) ==> s.threads[e.t].b != b || !s.threads[e.t].pc.head
    requires (e.EnterRemove? || e.ResumeRemove? || e.CopyOut?) ==> s.threads[e.t].b != b
    ensures Actor(e) < |Next(s, e).threads|
    ensures !InHand(s.threads[Actor(e)], b) && !InHand(Next(s, e).threads[Actor(e)], b)
  {
    StepFrame(s, e);
    if e.EnterRemove? || e.ResumeRemove? {
      RemoveSectionKeeps(s, e);
    } else {
      hide Next;
      StepHolds(s, e);
    }
  }

  lemma {:induction false} LogStays(s: System, e: Step, b: BoxId)
    requires Enabled(s, e) && b < |s.boxes|
    requires (e.EnterAdd? || e.ResumeAdd?) ==> s.threads[e.t].b != b || !s.threads[e.t].pc.head
    requires (e.EnterRemove? || e.ResumeRemove? || e.CopyOut?) ==> s.threads[e.t].b != b
    ensures b < |Next(s, e).boxes|
    ensures Next(s, e).boxes[b].log.taken == s.boxes[b].log.taken
    ensures Next(s, e).boxes[b].log.delivered == s.boxes[b].log.delivered
  {
    hide WakeOne;
    StepFrame(s, e);
    if Site(s, e) == b && (e.EnterAdd? || e.ResumeAdd?) {
      hide Next;
      AddSectionKeeps(s, e);
      hide AddSection;
    }
  }

  /** In a run whose receives on b do not overlap, no put-back is out of turn. */
  lemma {:induction false} AloneInTurn(s: System, run: seq<Step>, b: BoxId)
    requires Known(s) && HandOk(s, b) && Run(s, run) && AloneThroughout(s, run, b)
    ensures InTurn(s, run, b) && HandOk(After(s, run), b)
    decreases |run|
  {
    hide Known;
    hide Next;
    hide HandOk;
    hide Alone;
    if run != [] {
      assert Alone(Next(s, run[0]), b);
      StepKnown(s, run[0]);
      HandStep(s, run[0], b);
      AloneInTurn(Next(s, run[0]), run[1..], b);
    }
  }

  lemma InitialKnown(s: System)
    requires Initial(s)
    ensures Known(s)
  {
    InitialTracked(s);
  }

  /** FIFO across failed copies: if receives on b never overlapped, then the sends b accepted,
      in order and less the refused put-backs, are the messages delivered, then the one in
      hand, then the list, then what a flush threw away. */
  lemma FifoWhenAlone(init: System, run: seq<Step>, b: BoxId)
    requires Initial(init) && Run(init, run) && AloneThroughout(init, run, b)
    requires b < |After(init, run).boxes|
    ensures var s := After(init, run);
            var (log, list) := (s.boxes[b].log, s.boxes[b].box.messages);
            && (forall t :: 0 <= t < |s.threads| && InHand(s.threads[t], b) ==>
                  log.sent == log.delivered + [s.threads[t].pc.m] + list + log.drained)
            && (NobodyInHand(s, b) ==> log.sent == log.delivered + list + log.drained)
  {
    hide Known;
    hide Next;
    InitialKnown(init);
    AloneInTurn(init, run, b);
    RunOrder(init, run, b);
  }
}
