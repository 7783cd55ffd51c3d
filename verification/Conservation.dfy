/**
 Every message ever allocated is in exactly one place: in one list, in the hands of one
 task, freed for one reason, or leaked by an add that returned an error.
 */
module Conservation {
  import opened Codes
  import opened WaitQueues
  import opened MailboxSpec
  import opened BoxInvariant
  import opened Protocol
  import opened Tallies
  import opened Invariant
  import opened InvariantSteps
  import opened StepFacts

  /** How often m is linked, over all mailboxes. */
  ghost function InLists(boxes: seq<Slot>, m: MsgId): nat {
    if boxes == [] then 0 else multiset(boxes[0].box.messages)[m] + InLists(boxes[1..], m)
  }

  function Flag(p: bool): nat { if p then 1 else 0 }

  /** In how many places m is: lists, tasks, the three ways of having been freed, and the
      messages whose add returned an error. */
  ghost function Census(s: System, m: MsgId): nat {
    InLists(s.boxes, m) + Sum(s.threads, HoldersOf(m))
    + Flag(m in s.ledger.copyFailed) + Flag(m in s.ledger.delivered)
    + Flag(m in s.ledger.flushed) + Flag(m in s.ledger.refused)
  }

  ghost predicate LiveExact(l: Ledger) {
    forall m: MsgId :: m in l.live <==> m < l.next && m !in l.copyFailed && m !in l.delivered && m !in l.flushed
  }

  ghost predicate Books(s: System) {
    && (forall m: MsgId :: Census(s, m) == Flag(m < s.ledger.next))
    && LiveExact(s.ledger)
  }

  // ---------------------------------------------------------------- lists

  lemma {:induction false} ListsUpdate(boxes: seq<Slot>, b: BoxId, slot: Slot, m: MsgId)
    requires b < |boxes|
    ensures InLists(boxes[b := slot], m)
         == InLists(boxes, m) - multiset(boxes[b].box.messages)[m] + multiset(slot.box.messages)[m]
    ensures multiset(boxes[b].box.messages)[m] <= InLists(boxes, m)
  {
    if b == 0 {
      assert boxes[0 := slot][1..] == boxes[1..];
    } else {
      ListsUpdate(boxes[1..], b - 1, slot, m);
      assert boxes[b := slot][1..] == boxes[1..][b - 1 := slot];
    }
  }

  lemma {:induction false} ListsAppend(boxes: seq<Slot>, slot: Slot, m: MsgId)
    ensures InLists(boxes + [slot], m) == InLists(boxes, m) + multiset(slot.box.messages)[m]
  {
    if boxes == [] {
      assert boxes + [slot] == [slot];
      assert InLists([slot], m) == multiset(slot.box.messages)[m] + InLists([], m);
    } else {
      ListsAppend(boxes[1..], slot, m);
      assert (boxes + [slot])[1..] == boxes[1..] + [slot];
    }
  }

  /** One task and one mailbox change. */
  lemma CensusMove(s: System, s': System, t: Tid, b: BoxId, m: MsgId)
    requires t < |s.threads| && b < |s.boxes| && |s'.threads| == |s.threads| && |s'.boxes| == |s.boxes|
    requires s'.threads == s.threads[t := s'.threads[t]] && s'.boxes == s.boxes[b := s'.boxes[b]]
    ensures Sum(s'.threads, HoldersOf(m))
         == Sum(s.threads, HoldersOf(m)) - Weight(HoldersOf(m), s.threads[t]) + Weight(HoldersOf(m), s'.threads[t])
    ensures InLists(s'.boxes, m)
         == InLists(s.boxes, m) - multiset(s.boxes[b].box.messages)[m] + multiset(s'.boxes[b].box.messages)[m]
  {
    SumUpdate(s.threads, t, s'.threads[t], HoldersOf(m));
    ListsUpdate(s.boxes, b, s'.boxes[b], m);
  }

  /** A step of task t on its mailbox that moves no message. */
  lemma QuietMove(s: System, s': System, t: Tid, b: BoxId)
    requires Books(s) && Moves(s, s', t, b)
    requires s'.boxes[b].box.messages == s.boxes[b].box.messages && s'.ledger == s.ledger
    requires forall m: MsgId :: HoldsMessage(s'.threads[t], m) == HoldsMessage(s.threads[t], m)
    ensures Books(s')
  {
    forall m: MsgId ensures Census(s', m) == Census(s, m) {
      CensusMove(s, s', t, b, m);
      assert HoldsMessage(s'.threads[t], m) == HoldsMessage(s.threads[t], m);
    }
  }

  // ---------------------------------------------------------------- sections and messages

  /** An add links its message exactly if it returns 0. */
  lemma AddMessages(s: System, e: Step)
    requires (e.EnterAdd? || e.ResumeAdd?) && Enabled(s, e)
    ensures var (x, (y, v), pc) := (BoxOf(s, e.t), AddSection(s, e), s.threads[e.t].pc);
            y.messages == if v != Done(0) then x.messages
                          else if pc.head then [pc.m] + x.messages else x.messages + [pc.m]
  {
  }

  /** A remove unlinks the first message, or leaves the list alone. */
  lemma RemoveMessages(s: System, e: Step)
    requires (e.EnterRemove? || e.ResumeRemove?) && Enabled(s, e)
    ensures var (x, (y, v)) := (BoxOf(s, e.t), RemoveSection(s, e));
            if v.Took? then x.messages == [v.m] + y.messages else y.messages == x.messages
  {
  }

  // ---------------------------------------------------------------- steps

  /** The task and the mailbox of a step that may move the message n. */
  ghost predicate Moves(s: System, s': System, t: Tid, b: BoxId) {
    && t < |s.threads| && b < |s.boxes| && |s'.threads| == |s.threads| && |s'.boxes| == |s.boxes|
    && s'.threads == s.threads[t := s'.threads[t]] && s'.boxes == s.boxes[b := s'.boxes[b]]
  }

  /** Task t holds n and nothing else; or it holds nothing. */
  ghost predicate HoldsOnly(th: Thread, n: MsgId, holds: bool) {
    forall m: MsgId :: HoldsMessage(th, m) == (holds && m == n)
  }

  /** n goes from task t into the list of b, or the other way. */
  lemma LinkBooks(s: System, s': System, t: Tid, b: BoxId, n: MsgId, linking: bool)
    requires Books(s) && Moves(s, s', t, b) && s'.ledger == s.ledger
    requires HoldsOnly(s.threads[t], n, linking) && HoldsOnly(s'.threads[t], n, !linking)
    requires var (p, q) := (multiset(s.boxes[b].box.messages), multiset(s'.boxes[b].box.messages));
             if linking then q == p + multiset{n} else p == q + multiset{n}
    ensures Books(s')
  {
    forall m: MsgId ensures Census(s', m) == Census(s, m) {
      CensusMove(s, s', t, b, m);
      assert HoldsMessage(s.threads[t], m) == (linking && m == n);
      assert HoldsMessage(s'.threads[t], m) == (!linking && m == n);
    }
  }

  /** n goes from task t into one of the sets of the ledger. */
  lemma DisposeBooks(s: System, s': System, t: Tid, b: BoxId, n: MsgId)
    requires Books(s) && Moves(s, s', t, b) && s'.boxes[b].box.messages == s.boxes[b].box.messages
    requires HoldsOnly(s.threads[t], n, true) && HoldsOnly(s'.threads[t], n, false)
    requires var l := s.ledger;
             || s'.ledger == l.(refused := l.refused + {n})
             || s'.ledger == l.(delivered := l.delivered + {n}, live := l.live - {n})
    ensures Books(s')
  {
    assert HoldsMessage(s.threads[t], n);
    SumUpdate(s.threads, t, Idle(0), HoldersOf(n));
    assert Census(s, n) == Flag(n < s.ledger.next);
    forall m: MsgId ensures Census(s', m) == Census(s, m) {
      CensusMove(s, s', t, b, m);
      assert HoldsMessage(s.threads[t], m) == (m == n);
      assert HoldsMessage(s'.threads[t], m) == false;
    }
  }

  lemma {:induction false} CreateBooks(s: System, e: Step)
    requires Books(s) && Enabled(s, e) && e.Create?
    ensures Books(Next(s, e))
  {
    hide InLists;
    var s', l, t := Next(s, e), s.ledger, e.t;
    assert Census(s, l.next) == 0;
    assert s.threads[t].pc.Sending?;
    forall m: MsgId ensures Census(s', m) == Flag(m < s'.ledger.next) {
      assert Census(s, m) == Flag(m < l.next);
      SumUpdate(s.threads, t, s'.threads[t], HoldersOf(m));
    }
    assert LiveExact(s'.ledger);
  }

  lemma {:induction false} AddBooks(s: System, e: Step)
    requires Books(s) && Enabled(s, e) && (e.EnterAdd? || e.ResumeAdd?)
    ensures Books(Next(s, e))
  {
    hide Next;
    hide Books;
    AddSectionKeeps(s, e);
    AddMessages(s, e);
    var r := AddSection(s, e);
    hide AddSection;
    hide WakeOne;
    var s', t, b, n := Next(s, e), e.t, s.threads[e.t].b, s.threads[e.t].pc.m;
    if r.1.Slept? {
      QuietMove(s, s', t, b);
    } else if r.1.code != 0 {
      DisposeBooks(s, s', t, b, n);
    } else {
      LinkBooks(s, s', t, b, n, true);
    }
  }

  /** Where a remove leaves its task and its mailbox. */
  lemma RemoveMoves(s: System, e: Step)
    requires (e.EnterRemove? || e.ResumeRemove?) && Enabled(s, e)
    ensures var (s', b, v) := (Next(s, e), s.threads[e.t].b, RemoveSection(s, e).1);
            && Moves(s, s', e.t, b) && s'.ledger == s.ledger && s'.boxes[b].box == RemoveSection(s, e).0
            && (forall m: MsgId :: !HoldsMessage(s.threads[e.t], m))
            && (v.Took? ==> s'.threads[e.t] == User(b, Holding(v.m)))
            && (!v.Took? ==> forall m: MsgId :: !HoldsMessage(s'.threads[e.t], m))
  {
    hide Next;
    RemoveSectionKeeps(s, e);
    hide RemoveSection;
  }

  lemma {:induction false} RemoveBooks(s: System, e: Step)
    requires Books(s) && Enabled(s, e) && (e.EnterRemove? || e.ResumeRemove?)
    ensures Books(Next(s, e))
  {
    hide Next;
    hide Books;
    hide RemoveSection;
    RemoveMoves(s, e);
    RemoveMessages(s, e);
    var r := RemoveSection(s, e);
    var s', t, b := Next(s, e), e.t, s.threads[e.t].b;
    if r.1.Took? {
      LinkBooks(s, s', t, b, r.1.m, false);
    } else {
      QuietMove(s, s', t, b);
    }
  }

  lemma {:induction false} ReleaseBooks(s: System, e: Step)
    requires Books(s) && Enabled(s, e) && e.Release?
    ensures Books(Next(s, e))
  {
    hide InLists;
    var s', t, n := Next(s, e), e.t, s.threads[e.t].m;
    SumUpdate(s.threads, t, Idle(0), HoldersOf(n));
    assert Census(s, n) == Flag(n < s.ledger.next);
    forall m: MsgId ensures Census(s', m) == Census(s, m) {
      SumUpdate(s.threads, t, s'.threads[t], HoldersOf(m));
    }
  }

  lemma FlushCensus(s: System, s': System, t: Tid, b: BoxId, m: MsgId)
    requires Books(s) && Moves(s, s', t, b)
    requires s.threads[t].Deleter? && s'.threads[t].Deleter? && s'.boxes[b].box.messages == []
    requires var (l, all) := (s.ledger, set k | k in s.boxes[b].box.messages);
             s'.ledger == l.(live := l.live - all, flushed := l.flushed + all)
    ensures Census(s', m) == Census(s, m) && (m in s.boxes[b].box.messages ==> m < s.ledger.next)
  {
    CensusMove(s, s', t, b, m);
    ListsUpdate(s.boxes, b, s.boxes[b], m);
    assert Census(s, m) == Flag(m < s.ledger.next);
    assert m in s.boxes[b].box.messages <==> multiset(s.boxes[b].box.messages)[m] > 0;
  }

  lemma {:induction false} FlushBooks(s: System, e: Step)
    requires Books(s) && Enabled(s, e) && e.DeleteFlush?
    ensures Books(Next(s, e))
  {
    var s', t, b := Next(s, e), e.t, s.threads[e.t].b;
    if BoxOf(s, t).waiting == 0 {
      forall m: MsgId
        ensures Census(s', m) == Census(s, m) && (m in s.boxes[b].box.messages ==> m < s.ledger.next)
      {
        FlushCensus(s, s', t, b, m);
      }
    } else {
      QuietMove(s, s', t, b);
    }
  }

  lemma {:induction false} TableBooks(s: System, e: Step)
    requires Books(s) && Enabled(s, e) && (e.Lookup? || e.ExitHook? || e.DeleteUnlink? || e.Fork? || e.Interrupt?)
    ensures Books(Next(s, e))
  {
    hide Next;
    LedgerSame(s, e);
    forall m: MsgId ensures Census(Next(s, e), m) == Census(s, m) {
      TableLists(s, e, m);
      TableHolders(s, e, m);
    }
  }

  lemma LedgerSame(s: System, e: Step)
    requires Enabled(s, e) && (e.Lookup? || e.ExitHook? || e.DeleteUnlink? || e.Fork? || e.Interrupt?)
    ensures Next(s, e).ledger == s.ledger
  {
  }

  lemma TableLists(s: System, e: Step, m: MsgId)
    requires Enabled(s, e) && (e.Lookup? || e.ExitHook? || e.DeleteUnlink? || e.Fork? || e.Interrupt?)
    ensures InLists(Next(s, e).boxes, m) == InLists(s.boxes, m)
  {
    hide WakeOne;
    hide InLists;
    var s', b := Next(s, e), Site(s, e);
    if 0 <= b < |s.boxes| {
      ListsUpdate(s.boxes, b, s'.boxes[b], m);
      assert s'.boxes == s.boxes[b := s'.boxes[b]];
    } else if b == |s.boxes| {
      ListsAppend(s.boxes, s'.boxes[b], m);
    }
  }

  lemma TableHolders(s: System, e: Step, m: MsgId)
    requires Enabled(s, e) && (e.Lookup? || e.ExitHook? || e.DeleteUnlink? || e.Fork? || e.Interrupt?)
    ensures Sum(Next(s, e).threads, HoldersOf(m)) == Sum(s.threads, HoldersOf(m))
  {
    hide WakeOne;
    hide Sum;
    var s', t := Next(s, e), Actor(e);
    if t >= 0 {
      SumUpdate(s.threads, t, s'.threads[t], HoldersOf(m));
      if e.ExitHook? && |s'.threads| > |s.threads| {
        SumAppend(s.threads[t := s'.threads[t]], s'.threads[|s.threads|], HoldersOf(m));
      }
    } else if e.Fork? {
      SumAppend(s.threads, Idle(0), HoldersOf(m));
    }
  }

  lemma {:induction false} StepBooks(s: System, e: Step)
    requires Books(s) && Enabled(s, e)
    ensures Books(Next(s, e))
  {
    hide Books;
    match e
    case Create(_, _, _, _) => CreateBooks(s, e);
    case EnterAdd(_, _) => AddBooks(s, e);
    case ResumeAdd(_, _) => AddBooks(s, e);
    case EnterRemove(_, _) => RemoveBooks(s, e);
    case ResumeRemove(_, _) => RemoveBooks(s, e);
    case Release(_) => ReleaseBooks(s, e);
    case DeleteFlush(_) => FlushBooks(s, e);
    case Fork => TableBooks(s, e);
    case Lookup(_, _, _, _, _) => TableBooks(s, e);
    case Interrupt(_, _) => TableBooks(s, e);
    case ExitHook(_, _) => TableBooks(s, e);
    case DeleteUnlink(_) => TableBooks(s, e);
    case _ => PlainBooks(s, e);
  }

  lemma {:induction false} PlainBooks(s: System, e: Step)
    requires Books(s) && Enabled(s, e)
    requires e.CopyOut? || e.ReadCount? || e.HaltBox? || e.GiveUp?
          || e.DeleteStart? || e.DeleteStop? || e.DeleteAwait? || e.DeleteFree?
    ensures Books(Next(s, e))
  {
    hide WakeOne;
    hide Books;
    QuietMove(s, Next(s, e), e.t, s.threads[e.t].b);
  }

  lemma {:induction false} RunBooks(s: System, run: seq<Step>)
    requires Books(s) && Run(s, run)
    ensures Books(After(s, run))
    decreases |run|
  {
    hide Books;
    if run != [] {
      StepBooks(s, run[0]);
      RunBooks(Next(s, run[0]), run[1..]);
    }
  }

  // ---------------------------------------------------------------- the results

  /** In every reachable state every allocated message is in exactly one place, every other
      id in none, and a message is allocated exactly until it is freed. */
  lemma MessagesConserved(s: System)
    requires Reachable(s)
    ensures Books(s)
  {
    var init, run :| Initial(init) && Run(init, run) && After(init, run) == s;
    forall m: MsgId ensures Census(init, m) == 0 { SumZero(init.threads, HoldersOf(m)); }
    RunBooks(init, run);
  }

  /** The messages a step frees. */
  ghost predicate Frees(s: System, e: Step, m: MsgId)
    requires Enabled(s, e)
  {
    match e
    case Release(t) => s.threads[t].m == m
    case DeleteFlush(t) => BoxOf(s, t).waiting == 0 && m in BoxOf(s, t).messages
    case _ => false
  }

  /** No message is freed twice or while it is linked or held: it was allocated, and after
      the step it is in no list and no task's hands. */
  lemma FreedOnce(s: System, e: Step, m: MsgId)
    requires Reachable(s) && Enabled(s, e) && Frees(s, e, m)
    ensures m in s.ledger.live && m !in Next(s, e).ledger.live
    ensures InLists(Next(s, e).boxes, m) == 0 && Sum(Next(s, e).threads, HoldersOf(m)) == 0
  {
    MessagesConserved(s);
    StepBooks(s, e);
    assert Census(s, m) == Flag(m < s.ledger.next);
    assert Census(Next(s, e), m) == Flag(m < Next(s, e).ledger.next);
    match e
    case Release(t) => SumUpdate(s.threads, t, Idle(0), HoldersOf(m));
    case DeleteFlush(t) =>
      var b := s.threads[t].b;
      ListsUpdate(s.boxes, b, s.boxes[b], m);
      assert multiset(BoxOf(s, t).messages)[m] > 0;
  }

  /** m is allocated, in no list and in nobody's hands. */
  ghost predicate Leaked(s: System, m: MsgId) {
    m in s.ledger.live && InLists(s.boxes, m) == 0 && Sum(s.threads, HoldersOf(m)) == 0
  }

  /** A message is leaked exactly if it is among those whose add was refused. */
  lemma LeakedExactly(s: System, m: MsgId)
    requires Reachable(s)
    ensures m in s.ledger.refused <==> Leaked(s, m)
  {
    MessagesConserved(s);
    assert Census(s, m) == Flag(m < s.ledger.next);
  }

  /** A step refuses exactly the message whose add it ends with an error code. */
  lemma RefusedExactly(s: System, e: Step, m: MsgId)
    requires Enabled(s, e)
    ensures m in Next(s, e).ledger.refused
       <==> (m in s.ledger.refused
             || ((e.EnterAdd? || e.ResumeAdd?) && s.threads[e.t].pc.m == m
                 && AddSection(s, e).1.Done? && AddSection(s, e).1.code != 0))
  {
    hide WakeOne;
    if e.EnterAdd? || e.ResumeAdd? {
      AddSectionKeeps(s, e);
    } else if e.EnterRemove? || e.ResumeRemove? {
      RemoveSectionKeeps(s, e);
    }
  }
}
