/**
 First in, first out, across failed copies. A receive that cannot copy its message out puts
 it back at the head of the list; the order of the mailbox survives a put-back exactly if
 the message put back is the one that was taken off last.
 */
module Ordering {
  import opened Codes
  import opened WaitQueues
  import opened MailboxSpec
  import opened BoxInvariant
  import opened Protocol
  import opened Tallies
  import opened Invariant
  import opened InvariantSteps
  import opened StepFacts
  import opened Conservation

  // ---------------------------------------------------------------- sequences

  ghost predicate NoDup(q: seq<MsgId>) {
    forall i, j :: 0 <= i < j < |q| ==> q[i] != q[j]
  }

  lemma {:induction false} WithoutAbsent(q: seq<MsgId>, m: MsgId)
    requires m !in q
    ensures Without(q, m) == q
  {
    if q != [] { WithoutAbsent(q[1..], m); }
  }

  lemma {:induction false} WithoutConcat(p: seq<MsgId>, q: seq<MsgId>, m: MsgId)
    ensures Without(p + q, m) == Without(p, m) + Without(q, m)
  {
    if p == [] {
      assert p + q == q;
    } else {
      WithoutConcat(p[1..], q, m);
      assert (p + q)[0] == p[0] && (p + q)[1..] == p[1..] + q;
      var a, c := Without(p[1..], m), Without(q, m);
      assert [p[0]] + (a + c) == ([p[0]] + a) + c;
    }
  }

  lemma {:induction false} WithoutIn(q: seq<MsgId>, m: MsgId)
    ensures forall k :: k in Without(q, m) <==> k in q && k != m
  {
    if q != [] {
      WithoutIn(q[1..], m);
      assert forall k :: k in q <==> k == q[0] || k in q[1..];
    }
  }

  lemma {:induction false} WithoutNoDup(q: seq<MsgId>, m: MsgId)
    requires NoDup(q)
    ensures NoDup(Without(q, m))
  {
    if q != [] {
      WithoutNoDup(q[1..], m);
      WithoutIn(q[1..], m);
      if q[0] != m {
        var r := Without(q[1..], m);
        forall i, j | 0 <= i < j < |[q[0]] + r| ensures ([q[0]] + r)[i] != ([q[0]] + r)[j] {
          if i == 0 { assert r[j - 1] in q[1..]; }
        }
      }
    }
  }

  /** Taking m out of p and putting it at the end gives p back exactly if m ends p. */
  lemma WithoutLast(p: seq<MsgId>, m: MsgId)
    requires NoDup(p) && m in p
    ensures Without(p, m) + [m] == p <==> p[|p| - 1] == m
  {
  }

  // ---------------------------------------------------------------- the order

  /** The messages accepted (less refused put-backs), in order, are those taken off, then
      those in the list, then those the flush threw away. */
  ghost predicate InOrder(slot: Slot) {
    slot.log.sent == slot.log.taken + slot.box.messages + slot.log.drained
  }

  /** A receive puts m back at the head of b, and the list accepts it. */
  ghost predicate PutsBack(s: System, e: Step, b: BoxId, m: MsgId)
    requires Enabled(s, e)
  {
    && (e.EnterAdd? || e.ResumeAdd?) && s.threads[e.t].b == b
    && s.threads[e.t].pc.m == m && s.threads[e.t].pc.head && AddSection(s, e).1 == Done(0)
  }

  /** Task th holds, for b, a message it took off the list of b. */
  predicate ReceiverHolds(th: Thread) {
    th.User? && match th.pc
                case Holding(_) => true
                case Delivered(_) => true
                case Adding(_, _, head) => head
                case WaitAdd(_, head) => head
                case _ => false
  }

  predicate SenderHolds(th: Thread) {
    th.User? && match th.pc
                case Adding(_, _, head) => !head
                case WaitAdd(_, head) => !head
                case _ => false
  }

  /** What the books say about the messages taken off the lists. */
  ghost predicate TakenOk(s: System, b: BoxId)
    requires b < |s.boxes|
  {
    var log := s.boxes[b].log;
    && NoDup(log.taken)
    && (forall m :: m in log.taken ==> m < s.ledger.next && InLists(s.boxes, m) == 0)
    && DrainOk(log, s.ledger)
  }

  /** What a flush threw away is booked as flushed, and nothing was before the flush. */
  ghost predicate DrainOk(log: Log, l: Ledger) {
    && (forall m :: m in log.drained ==> m in l.flushed)
    && (!log.flushed ==> log.drained == [])
  }

  ghost predicate HoldersOk(s: System) {
    forall t :: 0 <= t < |s.threads| ==>
      && (ReceiverHolds(s.threads[t]) ==>
            s.threads[t].b < |s.boxes| && s.threads[t].pc.m in s.boxes[s.threads[t].b].log.taken)
      && (SenderHolds(s.threads[t]) ==> NeverTaken(s, s.threads[t].pc.m))
  }

  ghost predicate NeverTaken(s: System, m: MsgId) {
    forall b :: 0 <= b < |s.boxes| ==> m !in s.boxes[b].log.taken
  }

  ghost predicate OneTaker(s: System) {
    forall b, c, m :: (0 <= b < |s.boxes| && 0 <= c < |s.boxes|
                       && m in s.boxes[b].log.taken && m in s.boxes[c].log.taken) ==> b == c
  }

  ghost predicate Tracked(s: System) {
    && (forall b :: 0 <= b < |s.boxes| ==> TakenOk(s, b))
    && HoldersOk(s)
    && OneTaker(s)
  }

  // ---------------------------------------------------------------- tracking

  /** The logs of a step that takes nothing off and puts nothing back. */
  ghost predicate SameTaken(s: System, s': System) {
    && |s.boxes| <= |s'.boxes|
    && (forall b :: 0 <= b < |s.boxes| ==> s'.boxes[b].log.taken == s.boxes[b].log.taken)
    && (forall b :: |s.boxes| <= b < |s'.boxes| ==> s'.boxes[b].log.taken == [] && s'.boxes[b].log.drained == [])
  }

  predicate SameOrder(a: Slot, z: Slot) {
    && z.log.sent == a.log.sent && z.log.taken == a.log.taken && z.log.drained == a.log.drained
    && z.log.flushed == a.log.flushed
    && z.box.messages == a.box.messages
  }

  ghost predicate DrainedFlushed(s: System) {
    forall b :: 0 <= b < |s.boxes| ==> DrainOk(s.boxes[b].log, s.ledger)
  }

  /** Every task of s' holds what it held in s, or less, or a message nobody ever took. */
  ghost predicate HoldsLess(s: System, s': System) {
    forall t :: 0 <= t < |s'.threads| ==>
      && (ReceiverHolds(s'.threads[t]) ==>
            t < |s.threads| && ReceiverHolds(s.threads[t]) && s'.threads[t].b == s.threads[t].b
            && s'.threads[t].pc.m == s.threads[t].pc.m)
      && (SenderHolds(s'.threads[t]) ==>
            (t < |s.threads| && SenderHolds(s.threads[t]) && s'.threads[t].pc.m == s.threads[t].pc.m)
            || s'.threads[t].pc.m >= s.ledger.next)
  }

  lemma TrackedQuiet(s: System, s': System)
    requires Tracked(s) && SameTaken(s, s') && DrainedFlushed(s') && HoldsLess(s, s')
    requires s'.ledger.next >= s.ledger.next
    requires forall m: MsgId :: InLists(s'.boxes, m) <= InLists(s.boxes, m)
    ensures Tracked(s')
  {
    forall b | 0 <= b < |s'.boxes| ensures TakenOk(s', b) {
      if b < |s.boxes| {
        assert TakenOk(s, b);
        forall m | m in s'.boxes[b].log.taken ensures InLists(s'.boxes, m) == 0 {
          assert InLists(s'.boxes, m) <= InLists(s.boxes, m);
        }
      }
    }
    forall t | 0 <= t < |s'.threads| && SenderHolds(s'.threads[t]) ensures NeverTaken(s', s'.threads[t].pc.m) {
      var m := s'.threads[t].pc.m;
      forall b | 0 <= b < |s'.boxes| ensures m !in s'.boxes[b].log.taken {
        if b < |s.boxes| { assert TakenOk(s, b); }
      }
    }
  }

  /** Tasks after a step that is neither a create nor a remove. */
  lemma {:induction false} StepHolds(s: System, e: Step)
    requires Enabled(s, e) && !e.EnterRemove? && !e.ResumeRemove?
    ensures HoldsLess(s, Next(s, e))
  {
    hide WakeOne;
    StepFrame(s, e);
    if e.EnterAdd? || e.ResumeAdd? {
      AddHolds(s, e);
    } else {
      ActorHolds(s, e);
    }
  }

  lemma AddHolds(s: System, e: Step)
    requires Enabled(s, e) && (e.EnterAdd? || e.ResumeAdd?)
    ensures HoldsLess(s, Next(s, e))
    ensures Next(s, e).threads[e.t].User? && (AddSection(s, e).1.Done? ==> Next(s, e).threads[e.t].pc.Leaving?)
  {
    hide Next;
    hide AddSection;
    AddThread(s, e);
  }

  lemma ActorHolds(s: System, e: Step)
    requires Enabled(s, e) && !e.EnterRemove? && !e.ResumeRemove? && !e.EnterAdd? && !e.ResumeAdd?
    requires Frame(s, e, Next(s, e))
    ensures HoldsLess(s, Next(s, e))
  {
    hide WakeOne;
    if 0 <= Actor(e) { ActorHoldsLess(s, e); }
    hide Next;
  }

  /** The task that takes such a step holds what it held, or less, or a new message. */
  lemma ActorHoldsLess(s: System, e: Step)
    requires Enabled(s, e) && !e.EnterRemove? && !e.ResumeRemove? && !e.EnterAdd? && !e.ResumeAdd? && 0 <= Actor(e)
    ensures Actor(e) < |s.threads| <= |Next(s, e).threads|
    ensures var (th, th') := (s.threads[Actor(e)], Next(s, e).threads[Actor(e)]);
            && (ReceiverHolds(th') ==> ReceiverHolds(th) && th'.b == th.b && th'.pc.m == th.pc.m)
            && (SenderHolds(th') ==> (SenderHolds(th) && th'.pc.m == th.pc.m) || th'.pc.m >= s.ledger.next)
  {
    hide WakeOne;
  }

  /** Logs after a step that is no add, no remove and no flush. */
  lemma {:induction false} StepLogs(s: System, e: Step)
    requires Enabled(s, e) && !e.EnterAdd? && !e.ResumeAdd? && !e.EnterRemove? && !e.ResumeRemove? && !e.DeleteFlush?
    ensures SameTaken(s, Next(s, e))
    ensures |s.boxes| <= |Next(s, e).boxes|
    ensures forall b :: 0 <= b < |s.boxes| ==> SameOrder(s.boxes[b], Next(s, e).boxes[b])
    ensures s.ledger.next <= Next(s, e).ledger.next && Next(s, e).ledger.flushed == s.ledger.flushed
    ensures forall m: MsgId :: InLists(Next(s, e).boxes, m) == InLists(s.boxes, m)
  {
    hide Next;
    hide InLists;
    LogsKept(s, e);
    forall m: MsgId ensures InLists(Next(s, e).boxes, m) == InLists(s.boxes, m) {
      if e.Lookup? || e.ExitHook? || e.DeleteUnlink? || e.Fork? || e.Interrupt? {
        TableLists(s, e, m);
      } else {
        PlainLists(s, e, m);
      }
    }
  }

  lemma {:induction false} LogsKept(s: System, e: Step)
    requires Enabled(s, e) && !e.EnterAdd? && !e.ResumeAdd? && !e.EnterRemove? && !e.ResumeRemove? && !e.DeleteFlush?
    ensures |s.boxes| <= |Next(s, e).boxes|
    ensures forall b :: 0 <= b < |s.boxes| ==> SameOrder(s.boxes[b], Next(s, e).boxes[b])
    ensures SameTaken(s, Next(s, e))
    ensures s.ledger.next <= Next(s, e).ledger.next && Next(s, e).ledger.flushed == s.ledger.flushed
  {
    hide WakeOne;
    if e.Lookup? || e.ExitHook? || e.DeleteUnlink? || e.Fork? || e.Interrupt? {
      TableLogs(s, e);
    } else if e.Create? || e.ReadCount? || e.Release? || e.DeleteStart? {
    } else {
      MoveLogs(s, e);
    }
    hide Next;
  }

  lemma TableLogs(s: System, e: Step)
    requires Enabled(s, e) && (e.Lookup? || e.ExitHook? || e.DeleteUnlink? || e.Fork? || e.Interrupt?)
    ensures |s.boxes| <= |Next(s, e).boxes| && SameTaken(s, Next(s, e)) && Next(s, e).ledger == s.ledger
    ensures forall b :: 0 <= b < |s.boxes| ==> SameOrder(s.boxes[b], Next(s, e).boxes[b])
  {
    hide WakeOne;
  }

  lemma MoveLogs(s: System, e: Step)
    requires Enabled(s, e)
    requires e.CopyOut? || e.HaltBox? || e.GiveUp? || e.DeleteStop? || e.DeleteAwait? || e.DeleteFree?
    ensures |s.boxes| == |Next(s, e).boxes| && SameTaken(s, Next(s, e)) && Next(s, e).ledger == s.ledger
    ensures forall b :: 0 <= b < |s.boxes| ==> SameOrder(s.boxes[b], Next(s, e).boxes[b])
  {
    if e.CopyOut? || e.HaltBox? || e.GiveUp? { UserMoveLog(s, e); } else { DeleterMoveLog(s, e); }
    hide Next;
  }

  lemma UserMoveLog(s: System, e: Step)
    requires Enabled(s, e) && (e.CopyOut? || e.HaltBox? || e.GiveUp?)
    ensures var (b, s') := (s.threads[e.t].b, Next(s, e));
            && |s.boxes| == |s'.boxes| && s'.boxes == s.boxes[b := s'.boxes[b]]
            && SameOrder(s.boxes[b], s'.boxes[b]) && s'.ledger == s.ledger
  {
    hide WakeOne;
  }

  lemma DeleterMoveLog(s: System, e: Step)
    requires Enabled(s, e) && (e.DeleteStop? || e.DeleteAwait? || e.DeleteFree?)
    ensures var (b, s') := (s.threads[e.t].b, Next(s, e));
            && |s.boxes| == |s'.boxes| && s'.boxes == s.boxes[b := s'.boxes[b]]
            && SameOrder(s.boxes[b], s'.boxes[b]) && s'.ledger == s.ledger
  {
    hide WakeOne;
  }

  lemma PlainLists(s: System, e: Step, m: MsgId)
    requires Enabled(s, e) && !e.EnterAdd? && !e.ResumeAdd? && !e.EnterRemove? && !e.ResumeRemove? && !e.DeleteFlush?
    requires !e.Lookup? && !e.ExitHook? && !e.DeleteUnlink? && !e.Fork? && !e.Interrupt?
    ensures InLists(Next(s, e).boxes, m) == InLists(s.boxes, m)
  {
    hide WakeOne;
    hide InLists;
    if !e.Release? {
      var b := s.threads[e.t].b;
      ListsUpdate(s.boxes, b, Next(s, e).boxes[b], m);
      assert Next(s, e).boxes == s.boxes[b := Next(s, e).boxes[b]];
    }
  }

  lemma {:induction false} QuietTracked(s: System, e: Step)
    requires Tracked(s) && Enabled(s, e)
    requires !e.EnterAdd? && !e.ResumeAdd? && !e.EnterRemove? && !e.ResumeRemove? && !e.DeleteFlush?
    ensures Tracked(Next(s, e))
  {
    hide Next;
    StepLogs(s, e);
    StepHolds(s, e);
    forall b | 0 <= b < |Next(s, e).boxes| ensures DrainOk(Next(s, e).boxes[b].log, Next(s, e).ledger) {
      if b < |s.boxes| { assert TakenOk(s, b); }
    }
    TrackedQuiet(s, Next(s, e));
  }

  lemma {:induction false} FlushTracked(s: System, e: Step)
    requires Tracked(s) && Enabled(s, e) && e.DeleteFlush?
    ensures Tracked(Next(s, e))
  {
    var s', b := Next(s, e), s.threads[e.t].b;
    StepHolds(s, e);
    forall m: MsgId ensures InLists(s'.boxes, m) <= InLists(s.boxes, m) {
      ListsUpdate(s.boxes, b, s'.boxes[b], m);
    }
    forall c | 0 <= c < |s'.boxes| ensures DrainOk(s'.boxes[c].log, s'.ledger) {
      assert TakenOk(s, c);
    }
    TrackedQuiet(s, s');
  }

  /** A message in somebody's hands is in no list, and in nobody else's hands. */
  lemma HeldAlone(s: System, t: Tid, m: MsgId)
    requires Books(s) && t < |s.threads| && HoldsMessage(s.threads[t], m)
    ensures InLists(s.boxes, m) == 0 && m < s.ledger.next && m !in s.ledger.flushed
    ensures forall u :: 0 <= u < |s.threads| && u != t ==> !HoldsMessage(s.threads[u], m)
  {
    SumUpdate(s.threads, t, Idle(0), HoldersOf(m));
    assert Census(s, m) == Flag(m < s.ledger.next);
    forall u | 0 <= u < |s.threads| && u != t ensures !HoldsMessage(s.threads[u], m) {
      SumTwo(s.threads, HoldersOf(m), t, u);
    }
  }

  /** Log and tasks after an add: s' is s with m gone from t's hands into the list of b, or
      refused, or still in t's hands while t sleeps. */
  lemma {:induction false} AddTracked(s: System, e: Step)
    requires Tracked(s) && Books(s) && Enabled(s, e) && (e.EnterAdd? || e.ResumeAdd?)
    ensures Tracked(Next(s, e))
  {
    hide Next;
    hide Books;
    hide InLists;
    hide WakeOne;
    AddSectionKeeps(s, e);
    AddMessages(s, e);
    AddHolds(s, e);
    var s', t, b, m, head := Next(s, e), e.t, s.threads[e.t].b, s.threads[e.t].pc.m, s.threads[e.t].pc.head;
    var v := AddSection(s, e).1;
    hide AddSection;
    HeldAlone(s, t, m);
    if v.Slept? || !head {
      AddListsTail(s, s', b, m);
      forall k: MsgId ensures k != m ==> InLists(s'.boxes, k) <= InLists(s.boxes, k) {
        ListsUpdate(s.boxes, b, s'.boxes[b], k);
      }
      TailTracked(s, s', t, b, m, v);
    } else {
      forall k: MsgId ensures k != m ==> InLists(s'.boxes, k) <= InLists(s.boxes, k) {
        ListsUpdate(s.boxes, b, s'.boxes[b], k);
      }
      HeadTracked(s, s', t, b, m);
    }
  }

  lemma AddListsTail(s: System, s': System, b: BoxId, m: MsgId)
    requires b < |s.boxes| && |s'.boxes| == |s.boxes| && s'.boxes == s.boxes[b := s'.boxes[b]]
    ensures s'.boxes[b].box.messages == s.boxes[b].box.messages ==> InLists(s'.boxes, m) == InLists(s.boxes, m)
  {
    ListsUpdate(s.boxes, b, s'.boxes[b], m);
  }

  /** A send, or a put-back that sleeps. */
  lemma TailTracked(s: System, s': System, t: Tid, b: BoxId, m: MsgId, v: Verdict)
    requires Tracked(s) && Moves(s, s', t, b) && HoldsLess(s, s')
    requires s.threads[t].User? && s.threads[t].b == b && (SenderHolds(s.threads[t]) || ReceiverHolds(s.threads[t]))
    requires s.threads[t].pc.m == m && (ReceiverHolds(s.threads[t]) ==> v.Slept?)
    requires s'.boxes[b].log.taken == s.boxes[b].log.taken && s'.boxes[b].log.drained == s.boxes[b].log.drained
    requires s'.boxes[b].log.flushed == s.boxes[b].log.flushed
    requires s'.ledger.next == s.ledger.next && s'.ledger.flushed == s.ledger.flushed
    requires forall k: MsgId :: k != m ==> InLists(s'.boxes, k) <= InLists(s.boxes, k)
    requires v.Slept? ==> InLists(s'.boxes, m) == InLists(s.boxes, m)
    ensures Tracked(s')
  {
    if !v.Slept? { assert SenderHolds(s.threads[t]) && NeverTaken(s, m); }
    forall c | 0 <= c < |s'.boxes| ensures TakenOk(s', c) {
      assert TakenOk(s, c);
    }
    forall u | 0 <= u < |s'.threads| && SenderHolds(s'.threads[u]) ensures NeverTaken(s', s'.threads[u].pc.m) {
      var k := s'.threads[u].pc.m;
      forall c | 0 <= c < |s'.boxes| ensures k !in s'.boxes[c].log.taken {
        assert TakenOk(s, c);
        assert NeverTaken(s, k) || k >= s.ledger.next;
      }
    }
  }

  /** A put-back that ends, accepted or refused: m leaves the taken messages of b. */
  lemma HeadTracked(s: System, s': System, t: Tid, b: BoxId, m: MsgId)
    requires Tracked(s) && Moves(s, s', t, b) && HoldsLess(s, s')
    requires ReceiverHolds(s.threads[t]) && s.threads[t].b == b && s.threads[t].pc.m == m
    requires s'.threads[t].User? && s'.threads[t].pc.Leaving?
    requires forall u :: 0 <= u < |s.threads| && u != t ==> !HoldsMessage(s.threads[u], m)
    requires s'.boxes[b].log.taken == Without(s.boxes[b].log.taken, m)
    requires s'.boxes[b].log.drained == s.boxes[b].log.drained
    requires s'.boxes[b].log.flushed == s.boxes[b].log.flushed
    requires s'.ledger.next == s.ledger.next && s'.ledger.flushed == s.ledger.flushed
    requires forall k: MsgId :: k != m ==> InLists(s'.boxes, k) <= InLists(s.boxes, k)
    ensures Tracked(s')
  {
    WithoutIn(s.boxes[b].log.taken, m);
    forall c | 0 <= c < |s'.boxes| ensures TakenOk(s', c) && m !in s'.boxes[c].log.taken {
      assert TakenOk(s, c);
      if c == b { WithoutNoDup(s.boxes[b].log.taken, m); }
    }
    forall u | 0 <= u < |s'.threads| && ReceiverHolds(s'.threads[u])
      ensures s'.threads[u].pc.m in s'.boxes[s'.threads[u].b].log.taken
    {
      assert u != t;
      assert HoldsMessage(s.threads[u], s.threads[u].pc.m);
    }
    forall u | 0 <= u < |s'.threads| && SenderHolds(s'.threads[u]) ensures NeverTaken(s', s'.threads[u].pc.m) {
      var k := s'.threads[u].pc.m;
      forall c | 0 <= c < |s'.boxes| ensures k !in s'.boxes[c].log.taken {
        assert TakenOk(s, c);
        assert NeverTaken(s, k) || k >= s.ledger.next;
      }
    }
  }

  lemma {:induction false} RemoveTracked(s: System, e: Step)
    requires Tracked(s) && Books(s) && Enabled(s, e) && (e.EnterRemove? || e.ResumeRemove?)
    ensures Tracked(Next(s, e))
  {
    hide Next;
    hide Books;
    hide Tracked;
    hide InLists;
    hide WakeOne;
    RemoveSectionKeeps(s, e);
    RemoveMessages(s, e);
    RemoveBooks(s, e);
    var s', t, b, v := Next(s, e), e.t, s.threads[e.t].b, RemoveSection(s, e).1;
    hide RemoveSection;
    RemoveLists(s, s', b);
    if v.Took? {
      TookLists(s, s', t, b, v.m);
      TookTracked(s, s', t, b, v.m);
    } else {
      NotTookTracked(s, s', t, b);
    }
  }

  lemma NotTookTracked(s: System, s': System, t: Tid, b: BoxId)
    requires Tracked(s) && Moves(s, s', t, b) && s'.ledger == s.ledger && s'.boxes[b].log == s.boxes[b].log
    requires !ReceiverHolds(s'.threads[t]) && !SenderHolds(s'.threads[t])
    requires forall k: MsgId :: InLists(s'.boxes, k) <= InLists(s.boxes, k)
    ensures Tracked(s')
  {
    forall c | 0 <= c < |s'.boxes| ensures DrainOk(s'.boxes[c].log, s'.ledger) {
      assert TakenOk(s, c);
    }
    TrackedQuiet(s, s');
  }

  lemma RemoveLists(s: System, s': System, b: BoxId)
    requires b < |s.boxes| && |s'.boxes| == |s.boxes| && s'.boxes == s.boxes[b := s'.boxes[b]]
    requires var (p, q) := (s.boxes[b].box.messages, s'.boxes[b].box.messages); q == p || (p != [] && q == p[1..])
    ensures forall k: MsgId :: InLists(s'.boxes, k) <= InLists(s.boxes, k)
  {
    var p := s.boxes[b].box.messages;
    if p != [] { assert p == [p[0]] + p[1..]; }
    forall k: MsgId ensures InLists(s'.boxes, k) <= InLists(s.boxes, k) {
      ListsUpdate(s.boxes, b, s'.boxes[b], k);
    }
  }

  lemma TookLists(s: System, s': System, t: Tid, b: BoxId, m: MsgId)
    requires Books(s') && Moves(s, s', t, b) && s'.threads[t] == User(b, Holding(m))
    requires s.boxes[b].box.messages == [m] + s'.boxes[b].box.messages
    ensures InLists(s.boxes, m) > 0 && InLists(s'.boxes, m) == 0 && m < s'.ledger.next
    ensures forall u :: 0 <= u < |s'.threads| && u != t ==> !HoldsMessage(s'.threads[u], m)
  {
    ListsUpdate(s.boxes, b, s'.boxes[b], m);
    assert m in s.boxes[b].box.messages;
    HeldAlone(s', t, m);
  }

  /** Task t takes m, which nobody had taken and nobody else holds, off the list of b. */
  ghost predicate Takes(s: System, s': System, t: Tid, b: BoxId, m: MsgId) {
    && Moves(s, s', t, b) && s'.ledger == s.ledger && m < s.ledger.next
    && s'.threads[t] == User(b, Holding(m))
    && InLists(s.boxes, m) > 0 && InLists(s'.boxes, m) == 0
    && s'.boxes[b].log == s.boxes[b].log.(taken := s.boxes[b].log.taken + [m])
    && (forall u :: 0 <= u < |s'.threads| && u != t ==> !HoldsMessage(s'.threads[u], m))
    && (forall k: MsgId :: InLists(s'.boxes, k) <= InLists(s.boxes, k))
  }

  lemma TookNew(s: System, s': System, t: Tid, b: BoxId, m: MsgId)
    requires Tracked(s) && Takes(s, s', t, b, m)
    ensures NeverTaken(s, m)
  {
    hide InLists;
    forall c | 0 <= c < |s.boxes| ensures m !in s.boxes[c].log.taken { assert TakenOk(s, c); }
  }

  lemma TookTaken(s: System, s': System, t: Tid, b: BoxId, m: MsgId, c: BoxId)
    requires Tracked(s) && Takes(s, s', t, b, m) && NeverTaken(s, m) && c < |s'.boxes|
    ensures TakenOk(s', c)
  {
    hide InLists;
    hide HoldersOk;
    hide OneTaker;
    assert TakenOk(s, c);
  }

  lemma TookHolders(s: System, s': System, t: Tid, b: BoxId, m: MsgId)
    requires HoldersOk(s) && Takes(s, s', t, b, m)
    ensures HoldersOk(s')
  {
    hide InLists;
    forall u | 0 <= u < |s'.threads| && SenderHolds(s'.threads[u]) ensures NeverTaken(s', s'.threads[u].pc.m) {
      var k := s'.threads[u].pc.m;
      assert u != t && HoldsMessage(s'.threads[u], k);
      assert NeverTaken(s, k);
    }
  }

  lemma TookOnce(s: System, s': System, t: Tid, b: BoxId, m: MsgId)
    requires OneTaker(s) && NeverTaken(s, m) && Takes(s, s', t, b, m)
    ensures OneTaker(s')
  {
  }

  lemma TookTracked(s: System, s': System, t: Tid, b: BoxId, m: MsgId)
    requires Tracked(s) && Takes(s, s', t, b, m)
    ensures Tracked(s')
  {
    hide HoldersOk;
    hide OneTaker;
    hide TakenOk;
    hide Takes;
    TookNew(s, s', t, b, m);
    hide NeverTaken;
    forall c | 0 <= c < |s'.boxes| ensures TakenOk(s', c) { TookTaken(s, s', t, b, m, c); }
    TookHolders(s, s', t, b, m);
    TookOnce(s, s', t, b, m);
  }

  lemma {:induction false} StepTracked(s: System, e: Step)
    requires Tracked(s) && Books(s) && Enabled(s, e)
    ensures Tracked(Next(s, e))
  {
    hide Tracked;
    hide Books;
    if e.EnterAdd? || e.ResumeAdd? {
      AddTracked(s, e);
    } else if e.EnterRemove? || e.ResumeRemove? {
      RemoveTracked(s, e);
    } else if e.DeleteFlush? {
      FlushTracked(s, e);
    } else {
      QuietTracked(s, e);
    }
  }

  lemma {:induction false} RunTracked(s: System, run: seq<Step>)
    requires Tracked(s) && Books(s) && Run(s, run)
    ensures Tracked(After(s, run)) && Books(After(s, run))
    decreases |run|
  {
    hide Tracked;
    hide Books;
    if run != [] {
      StepTracked(s, run[0]);
      StepBooks(s, run[0]);
      RunTracked(Next(s, run[0]), run[1..]);
    }
  }

  lemma InitialTracked(s: System)
    requires Initial(s)
    ensures Tracked(s) && Books(s)
  {
    forall m: MsgId ensures Census(s, m) == 0 { SumZero(s.threads, HoldersOf(m)); }
  }

  lemma ReachableTracked(s: System)
    requires Reachable(s)
    ensures Tracked(s) && Books(s)
  {
    var init, run :| Initial(init) && Run(init, run) && After(init, run) == s;
    InitialTracked(init);
    RunTracked(init, run);
  }

  // ---------------------------------------------------------------- one step and the order

  /** What an accepted put-back does to its mailbox. */
  lemma PutBackSlot(s: System, e: Step, b: BoxId, m: MsgId)
    requires Enabled(s, e) && PutsBack(s, e, b, m)
    ensures b < |s.boxes| && b < |Next(s, e).boxes|
    ensures Next(s, e).boxes[b].log == s.boxes[b].log.(taken := Without(s.boxes[b].log.taken, m))
    ensures Next(s, e).boxes[b].box.messages == [m] + s.boxes[b].box.messages
  {
  }

  /** m moves from the messages taken off to the head of the list. */
  lemma BackInOrder(p: Slot, q: Slot, m: MsgId)
    requires NoDup(p.log.taken) && m in p.log.taken && InOrder(p)
    requires q.log == p.log.(taken := Without(p.log.taken, m)) && q.box.messages == [m] + p.box.messages
    ensures InOrder(q) <==> p.log.taken[|p.log.taken| - 1] == m
  {
    var w := Without(p.log.taken, m);
    WithoutLast(p.log.taken, m);
    hide Without;
    PrefixOrder(p.log.taken, w + [m], p.box.messages + p.log.drained);
    assert p.log.taken + p.box.messages + p.log.drained == p.log.taken + (p.box.messages + p.log.drained);
    assert w + ([m] + p.box.messages) + p.log.drained == (w + [m]) + (p.box.messages + p.log.drained);
  }

  /** An accepted put-back keeps the order exactly if it puts back the last message taken. */
  lemma {:induction false} PutBackOrder(s: System, e: Step, b: BoxId, m: MsgId)
    requires Tracked(s) && Enabled(s, e) && PutsBack(s, e, b, m) && InOrder(s.boxes[b])
    ensures b < |Next(s, e).boxes| && s.boxes[b].log.taken != []
    ensures InOrder(Next(s, e).boxes[b]) <==> s.boxes[b].log.taken[|s.boxes[b].log.taken| - 1] == m
  {
    hide Next;
    hide AddSection;
    hide InOrder;
    PutBackSlot(s, e, b, m);
    assert TakenOk(s, b);
    assert ReceiverHolds(s.threads[e.t]);
    BackInOrder(s.boxes[b], Next(s, e).boxes[b], m);
  }

  lemma PrefixOrder(a: seq<MsgId>, c: seq<MsgId>, z: seq<MsgId>)
    ensures a + z == c + z <==> a == c
  {
    if a + z == c + z {
      assert |a| == |c|;
      assert (a + z)[..|a|] == a && (c + z)[..|c|] == c;
    }
  }

  /** A refused put-back takes its message out of the order and leaves the rest as it was. */
  lemma {:induction false} RefusalOrder(s: System, e: Step, b: BoxId)
    requires Tracked(s) && Books(s) && Enabled(s, e) && (e.EnterAdd? || e.ResumeAdd?) && s.threads[e.t].b == b
    requires s.threads[e.t].pc.head && AddSection(s, e).1.Done? && AddSection(s, e).1.code != 0
    requires InOrder(s.boxes[b])
    ensures b < |Next(s, e).boxes| && InOrder(Next(s, e).boxes[b])
  {
    hide Next;
    hide WakeOne;
    AddSectionKeeps(s, e);
    AddMessages(s, e);
    hide AddSection;
    var p, m := s.boxes[b], s.threads[e.t].pc.m;
    assert TakenOk(s, b);
    HeldAlone(s, e.t, m);
    ListsUpdate(s.boxes, b, p, m);
    assert m !in p.box.messages by { assert multiset(p.box.messages)[m] == 0; }
    WithoutConcat(p.log.taken + p.box.messages, p.log.drained, m);
    WithoutConcat(p.log.taken, p.box.messages, m);
    WithoutAbsent(p.box.messages, m);
    WithoutAbsent(p.log.drained, m);
  }

  /** Every other step keeps the order of every mailbox. */
  lemma {:induction false} AddOrder(s: System, e: Step, b: BoxId)
    requires Enabled(s, e) && (e.EnterAdd? || e.ResumeAdd?) && s.threads[e.t].b == b
    requires !s.threads[e.t].pc.head || AddSection(s, e).1.Slept?
    requires InOrder(s.boxes[b]) && !s.boxes[b].log.flushed && s.boxes[b].log.drained == []
    ensures b < |Next(s, e).boxes| && InOrder(Next(s, e).boxes[b])
  {
    hide Next;
    hide WakeOne;
    AddSectionKeeps(s, e);
    AddMessages(s, e);
    hide AddSection;
    var p, m := s.boxes[b], s.threads[e.t].pc.m;
    assert p.log.taken + (p.box.messages + [m]) + [] == (p.log.taken + p.box.messages + []) + [m];
  }

  lemma {:induction false} RemoveOrder(s: System, e: Step, b: BoxId)
    requires Enabled(s, e) && (e.EnterRemove? || e.ResumeRemove?) && s.threads[e.t].b == b && InOrder(s.boxes[b])
    ensures b < |Next(s, e).boxes| && InOrder(Next(s, e).boxes[b])
  {
    hide Next;
    hide WakeOne;
    RemoveSectionKeeps(s, e);
    RemoveMessages(s, e);
    var v := RemoveSection(s, e).1;
    hide RemoveSection;
    var p, q := s.boxes[b], Next(s, e).boxes[b];
    if v.Took? { Shift(p.log.taken, v.m, q.box.messages, p.log.drained); }
  }

  lemma Shift(a: seq<MsgId>, m: MsgId, c: seq<MsgId>, d: seq<MsgId>)
    ensures a + ([m] + c) + d == (a + [m]) + c + d
  {
  }

  lemma {:induction false} FlushOrder(s: System, e: Step, b: BoxId)
    requires Enabled(s, e) && e.DeleteFlush? && s.threads[e.t].b == b && InOrder(s.boxes[b])
    requires s.boxes[b].log.flushed ==> s.boxes[b].box.messages == []
    requires !s.boxes[b].log.flushed ==> s.boxes[b].log.drained == []
    ensures b < |Next(s, e).boxes| && InOrder(Next(s, e).boxes[b])
  {
    var p := s.boxes[b];
    assert p.log.taken + [] + (p.log.drained + p.box.messages) == p.log.taken + p.box.messages + p.log.drained;
  }
}
