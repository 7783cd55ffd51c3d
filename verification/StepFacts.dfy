/**
 What a step leaves alone: other tasks, other mailboxes, and the things no step ever undoes.
 */
module StepFacts {
  import opened Codes
  import opened WaitQueues
  import opened MailboxSpec
  import opened BoxInvariant
  import opened Protocol
  import opened Tallies
  import opened Invariant

  /** The task that takes a step; a fork or a signal has none. */
  function Actor(e: Step): int {
    match e
    case Fork => -1
    case Interrupt(_, _) => -1
    case _ => e.t
  }

  /** The section an add runs. */
  function AddSection(s: System, e: Step): (Box, Verdict)
    requires (e.EnterAdd? && UserAt(s, e.t) && s.threads[e.t].pc.Adding?)
          || (e.ResumeAdd? && UserAt(s, e.t) && s.threads[e.t].pc.WaitAdd?)
  {
    var t, pc, x := e.t, s.threads[e.t].pc, BoxOf(s, e.t);
    if e.EnterAdd? then AddEnter(x, t, pc.m, pc.block, pc.head, e.sig) else AddWait(x, t, pc.m, pc.head, e.sig)
  }

  /** The section a remove runs. */
  function RemoveSection(s: System, e: Step): (Box, Verdict)
    requires (e.EnterRemove? && UserAt(s, e.t) && s.threads[e.t].pc.Receiving?)
          || (e.ResumeRemove? && UserAt(s, e.t) && s.threads[e.t].pc.WaitRemove?)
  {
    var t, pc, x := e.t, s.threads[e.t].pc, BoxOf(s, e.t);
    if e.EnterRemove? then RemoveEnter(x, t, pc.block, e.sig) else RemoveWait(x, t, e.sig)
  }

  lemma AddSectionKeeps(s: System, e: Step)
    requires (e.EnterAdd? || e.ResumeAdd?) && Enabled(s, e)
    ensures SameClaims(BoxOf(s, e.t), AddSection(s, e).0)
    ensures AddSection(s, e).0.stopped == BoxOf(s, e.t).stopped
    ensures AddSection(s, e).1.Done? || AddSection(s, e).1.Slept?
    ensures Next(s, e) == AfterAdd(s, e.t, s.threads[e.t].pc.m, s.threads[e.t].pc.head, AddSection(s, e))
    ensures s.threads[e.t].b < |Next(s, e).boxes| && Next(s, e).boxes[s.threads[e.t].b].box == AddSection(s, e).0
  {
    hide WakeOne;
  }

  /** Where an add leaves its task. */
  lemma AddThread(s: System, e: Step)
    requires (e.EnterAdd? || e.ResumeAdd?) && Enabled(s, e)
    ensures AddSection(s, e).1.Done? || AddSection(s, e).1.Slept?
    ensures var (pc, v) := (s.threads[e.t].pc, AddSection(s, e).1);
            Next(s, e).threads == s.threads[e.t := User(s.threads[e.t].b,
              if v.Slept? then WaitAdd(pc.m, pc.head) else Leaving(if pc.head then MSG_ARG_ERROR else v.code))]
  {
  }

  /** What an add does to the messages taken off and delivered. */
  lemma AddLog(s: System, e: Step)
    requires (e.EnterAdd? || e.ResumeAdd?) && Enabled(s, e)
    ensures s.threads[e.t].b < |Next(s, e).boxes|
    ensures var (log, log', pc) := (s.boxes[s.threads[e.t].b].log, Next(s, e).boxes[s.threads[e.t].b].log, s.threads[e.t].pc);
            && log'.taken == (if pc.head && AddSection(s, e).1.Done? then Without(log.taken, pc.m) else log.taken)
            && log'.delivered == log.delivered
  {
    hide Next;
    hide WakeOne;
    AddSectionKeeps(s, e);
    hide AddSection;
  }

  lemma RemoveSectionKeeps(s: System, e: Step)
    requires (e.EnterRemove? || e.ResumeRemove?) && Enabled(s, e)
    ensures SameClaims(BoxOf(s, e.t), RemoveSection(s, e).0)
    ensures RemoveSection(s, e).0.stopped == BoxOf(s, e.t).stopped
    ensures Next(s, e) == AfterRemove(s, e.t, RemoveSection(s, e))
    ensures s.threads[e.t].b < |Next(s, e).boxes| && Next(s, e).boxes[s.threads[e.t].b].box == RemoveSection(s, e).0
  {
    hide WakeOne;
  }

  /** Where a step happens: the mailbox it may change, or -1. */
  function Site(s: System, e: Step): int {
    match e
    case Fork => -1
    case Release(_) => -1
    case DeleteUnlink(_) => -1
    case Interrupt(b, _) => b
    case Lookup(_, pid, _, valid, granted) =>
      if !valid then -1 else if pid in s.table then s.table[pid] else if granted then |s.boxes| else -1
    case ExitHook(_, pid) => if pid in s.table then s.table[pid] else -1
    case _ => if e.t < |s.threads| && (s.threads[e.t].User? || s.threads[e.t].Deleter?) then s.threads[e.t].b else -1
  }

  /** A mailbox only ever moves on: nothing undoes a stop, a flush or a free. */
  predicate MovesOn(a: Slot, z: Slot) {
    && z.box.owner == a.box.owner
    && (a.box.stopped != 0 ==> z.box.stopped != 0)
    && (a.log.flushed ==> z.log.flushed)
    && (a.log.freed ==> z.log.freed)
  }

  /** A task stays with its mailbox until it gives its claim up; a deletion thread for good. */
  predicate StaysWith(th: Thread, th': Thread) {
    match th
    case User(b, _) => (th'.User? && th'.b == b) || th'.Idle? || th'.Freeing?
    case Deleter(b, d) => th'.Deleter? && th'.b == b && !d.Gone? && !th'.d.Start? && (PastUnlink(d) ==> PastUnlink(th'.d))
    case Freeing(_) => th'.Idle?
    case Idle(_) => th'.Idle? || th'.User?
  }

  /** The frame of a step. */
  ghost predicate Frame(s: System, e: Step, s': System) {
    && |s.boxes| <= |s'.boxes| <= |s.boxes| + 1
    && |s.threads| <= |s'.threads| <= |s.threads| + 1
    && (forall u :: 0 <= u < |s.threads| && u != Actor(e) ==> s'.threads[u] == s.threads[u])
    && (0 <= Actor(e) < |s.threads| ==> StaysWith(s.threads[Actor(e)], s'.threads[Actor(e)]))
    && (forall c :: 0 <= c < |s.boxes| && c != Site(s, e) ==> s'.boxes[c] == s.boxes[c])
    && (forall c :: 0 <= c < |s.boxes| ==> MovesOn(s.boxes[c], s'.boxes[c]))
    && (|s'.threads| > |s.threads| ==>
          var th := s'.threads[|s.threads|];
          if e.ExitHook? then th.Deleter? && th.b == Site(s, e) && th.d.Start? else th == Idle(0))
  }

  lemma MoveFrame(s: System, e: Step, s': System, t: Tid, th: Thread, x: Box, log: Log)
    requires UserAt(s, t) || DeleterAt(s, t)
    requires t == Actor(e) && s.threads[t].b == Site(s, e)
    requires s' == Move(s, t, th, x, log).(ledger := s'.ledger)
    requires StaysWith(s.threads[t], th)
    requires MovesOn(s.boxes[s.threads[t].b], Slot(x, log))
    ensures Frame(s, e, s')
  {
  }

  lemma {:induction false} StepFrame(s: System, e: Step)
    requires Enabled(s, e)
    ensures Frame(s, e, Next(s, e))
  {
    hide WakeOne;
    var s' := Next(s, e);
    match e
    case EnterAdd(t, _) =>
      AddSectionKeeps(s, e);
      AddFrame(s, e, AddSection(s, e));
    case ResumeAdd(t, _) =>
      AddSectionKeeps(s, e);
      AddFrame(s, e, AddSection(s, e));
    case EnterRemove(t, _) =>
      RemoveSectionKeeps(s, e);
      RemoveFrame(s, e, RemoveSection(s, e));
    case ResumeRemove(t, _) =>
      RemoveSectionKeeps(s, e);
      RemoveFrame(s, e, RemoveSection(s, e));
    case Lookup(_, _, _, _, _) => TableFrame(s, e);
    case ExitHook(_, _) => TableFrame(s, e);
    case DeleteUnlink(_) => TableFrame(s, e);
    case DeleteStart(_) => DeleteFrame(s, e);
    case DeleteStop(_) => DeleteFrame(s, e);
    case DeleteFlush(_) => DeleteFrame(s, e);
    case DeleteAwait(_) => DeleteFrame(s, e);
    case DeleteFree(_) => DeleteFrame(s, e);
    case CopyOut(_, _) => UserFrame(s, e);
    case HaltBox(_) => UserFrame(s, e);
    case GiveUp(_) => UserFrame(s, e);
    case _ => StillFrame(s, e);
  }

  lemma {:induction false} UserFrame(s: System, e: Step)
    requires Enabled(s, e) && (e.CopyOut? || e.HaltBox? || e.GiveUp?)
    ensures Frame(s, e, Next(s, e))
  {
    hide WakeOne;
    hide Frame;
    var s', t := Next(s, e), e.t;
    MoveFrame(s, e, s', t, s'.threads[t], s'.boxes[s.threads[t].b].box, s'.boxes[s.threads[t].b].log);
  }

  /** Steps that leave the mailboxes alone, and a signal, which changes one queue. */
  lemma {:induction false} StillFrame(s: System, e: Step)
    requires Enabled(s, e) && (e.Fork? || e.Interrupt? || e.Release? || e.Create? || e.ReadCount?)
    ensures Frame(s, e, Next(s, e))
  {
    hide WakeOne;
  }

  lemma {:induction false} TableFrame(s: System, e: Step)
    requires Enabled(s, e) && (e.Lookup? || e.ExitHook? || e.DeleteUnlink?)
    ensures Frame(s, e, Next(s, e))
  {
    hide WakeOne;
  }

  lemma {:induction false} DeleteFrame(s: System, e: Step)
    requires Enabled(s, e)
    requires e.DeleteStart? || e.DeleteStop? || e.DeleteFlush? || e.DeleteAwait? || e.DeleteFree?
    ensures Frame(s, e, Next(s, e))
  {
    hide WakeOne;
    hide Frame;
    var s', t := Next(s, e), e.t;
    MoveFrame(s, e, s', t, s'.threads[t], s'.boxes[s.threads[t].b].box, s'.boxes[s.threads[t].b].log);
  }

  lemma AddFrame(s: System, e: Step, r: (Box, Verdict))
    requires (e.EnterAdd? || e.ResumeAdd?) && UserAt(s, e.t)
    requires r.0.owner == BoxOf(s, e.t).owner && r.0.stopped == BoxOf(s, e.t).stopped && (r.1.Done? || r.1.Slept?)
    ensures forall m, head :: Frame(s, e, AfterAdd(s, e.t, m, head, r))
  {
    forall m, head ensures Frame(s, e, AfterAdd(s, e.t, m, head, r)) {
      var s' := AfterAdd(s, e.t, m, head, r);
      var b := s.threads[e.t].b;
      MoveFrame(s, e, s', e.t, s'.threads[e.t], r.0, s'.boxes[b].log);
    }
  }

  lemma RemoveFrame(s: System, e: Step, r: (Box, Verdict))
    requires (e.EnterRemove? || e.ResumeRemove?) && UserAt(s, e.t)
    requires r.0.owner == BoxOf(s, e.t).owner && r.0.stopped == BoxOf(s, e.t).stopped
    ensures Frame(s, e, AfterRemove(s, e.t, r))
  {
    var s' := AfterRemove(s, e.t, r);
    var b := s.threads[e.t].b;
    MoveFrame(s, e, s', e.t, s'.threads[e.t], r.0, s'.boxes[b].log);
  }

  /** The table changes only by a fresh entry for an absent pid or by a deletion thread. */
  lemma {:induction false} StepTable(s: System, e: Step)
    requires Enabled(s, e)
    ensures var s' := Next(s, e);
            || s'.table == s.table
            || (e.Lookup? && e.pid !in s.table && |s'.boxes| == |s.boxes| + 1 && s'.table == s.table[e.pid := |s.boxes|])
            || (e.DeleteUnlink? && s'.table == s.table - {s.threads[e.t].d.pid})
  {
    hide WakeOne;
    if e.EnterAdd? || e.ResumeAdd? {
      AddSectionKeeps(s, e);
    } else if e.EnterRemove? || e.ResumeRemove? {
      RemoveSectionKeeps(s, e);
    }
  }

  /** A mailbox never returns to the table. */
  lemma StepUnlinked(s: System, e: Step, b: BoxId)
    requires Enabled(s, e) && b < |s.boxes| && !Linked(s, b)
    ensures b < |Next(s, e).boxes| && !Linked(Next(s, e), b)
  {
    StepFrame(s, e);
    StepTable(s, e);
  }

  /** Deletion threads accumulate. */
  lemma {:induction false} StepDeletes(s: System, e: Step, b: BoxId)
    requires Enabled(s, e)
    ensures Sum(s.threads, DeletesOf(b)) <= Sum(Next(s, e).threads, DeletesOf(b))
  {
    hide Next;
    hide Enabled;
    StepFrame(s, e);
    var ts, us := s.threads, Next(s, e).threads;
    SumPointwise(ts, us[..|ts|], DeletesOf(b));
    if |us| > |ts| {
      assert us == us[..|ts|] + [us[|ts|]];
      SumAppend(us[..|ts|], us[|ts|], DeletesOf(b));
    } else {
      assert us == us[..|ts|];
    }
  }

  lemma {:induction false} SumPointwise(ts: seq<Thread>, us: seq<Thread>, k: Tally)
    requires |ts| == |us| && forall t :: 0 <= t < |ts| ==> Weight(k, ts[t]) <= Weight(k, us[t])
    ensures Sum(ts, k) <= Sum(us, k)
  {
    if ts != [] { SumPointwise(ts[1..], us[1..], k); }
  }
}
