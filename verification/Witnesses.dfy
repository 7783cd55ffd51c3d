/**
 Runs that show where the code is weaker than it looks.
 */
module Witnesses {
  import opened Codes
  import opened WaitQueues
  import opened MailboxSpec
  import opened BoxInvariant
  import opened Protocol
  import opened Tallies
  import opened Invariant
  import opened StepFacts
  import opened Conservation
  import opened Reclamation
  import opened Ordering
  import opened FifoRuns

  const NO_LOG := EMPTY_LOG
  const NO_BOOKS := Ledger(0, {}, {}, {}, {}, {})

  /** The module just loaded, with n tasks outside it. */
  function Loaded(n: nat): (s: System)
    ensures Initial(s) && |s.threads| == n
  {
    System([], map[], seq(n, _ => Idle(0)), NO_BOOKS)
  }

  lemma Onward(s: System, e: Step, z: System)
    requires Reachable(s) && Enabled(s, e) && Next(s, e) == z
    ensures Reachable(z)
  {
    ReachableStep(s, e);
  }

  // ---------------------------------------------------------------- two deletions

  /** One mailbox, of pid 7. */
  function With(x: Box, log: Log, threads: seq<Thread>): System {
    System([Slot(x, log)], map[7 := 0], threads, NO_BOOKS)
  }

  lemma OneMailbox()
    ensures Reachable(With(Created(7), NO_LOG, [Idle(0), Idle(0)]))
  {
    var s0 := Loaded(2);
    assert s0.threads == [Idle(0), Idle(0)];
    ReachableStart(s0);
    var claimed := Created(7).(derefs := 1);
    var s1 := With(claimed, NO_LOG, [User(0, Managing(false)), Idle(0)]);
    assert Next(s0, Lookup(0, 7, ManageCall(false), true, true)) == s1;
    Onward(s0, Lookup(0, 7, ManageCall(false), true, true), s1);
    Unclaims(s1);
  }

  lemma Unclaims(s1: System)
    requires s1 == With(Created(7).(derefs := 1), NO_LOG, [User(0, Managing(false)), Idle(0)]) && Reachable(s1)
    ensures Reachable(With(Created(7), NO_LOG, [Idle(0), Idle(0)]))
  {
    var s2 := With(s1.boxes[0].box, NO_LOG, [User(0, Leaving(0)), Idle(0)]);
    assert s2.threads == s1.threads[0 := User(0, Leaving(0))];
    Onward(s1, ReadCount(0, true), s2);
    var s3 := With(Created(7), NO_LOG, [Idle(0), Idle(0)]);
    assert s3.threads == s2.threads[0 := Idle(0)] && s3.boxes == s2.boxes[0 := Slot(Created(7), NO_LOG)];
    Onward(s2, GiveUp(0), s3);
  }

  function Doomed(d: DeletePc, d': DeletePc, log: Log, table: map<int, BoxId>): System {
    System([Slot(Created(7).(stopped := EXITING_AND_STOPPED), log)], table,
           [Idle(0), Idle(0), Deleter(0, d), Deleter(0, d')], NO_BOOKS)
  }

  lemma FirstExit()
    ensures Reachable(With(Created(7).(stopped := EXITING_AND_STOPPED), NO_LOG, [Idle(0), Idle(0), Deleter(0, Start)]))
  {
    OneMailbox();
    var s0 := With(Created(7), NO_LOG, [Idle(0), Idle(0)]);
    var x := Created(7).(stopped := EXITING_AND_STOPPED);
    assert Halt(Created(7), EXITING_AND_STOPPED) == x;
    var s1 := With(x, NO_LOG, [Idle(0), Idle(0), Deleter(0, Start)]);
    assert s1.threads == s0.threads[0 := Idle(0)] + [Deleter(0, Start)] && s1.boxes == s0.boxes[0 := Slot(x, NO_LOG)];
    Onward(s0, ExitHook(0, 7), s1);
  }

  lemma SecondExit()
    ensures Reachable(Doomed(Start, Start, NO_LOG, map[7 := 0]))
  {
    FirstExit();
    var x := Created(7).(stopped := EXITING_AND_STOPPED);
    assert Halt(x, EXITING_AND_STOPPED) == x;
    var s1 := With(x, NO_LOG, [Idle(0), Idle(0), Deleter(0, Start)]);
    var s2 := Doomed(Start, Start, NO_LOG, map[7 := 0]);
    assert s2.threads == s1.threads[1 := Idle(0)] + [Deleter(0, Start)] && s2.boxes == s1.boxes[0 := Slot(x, NO_LOG)];
    Onward(s1, ExitHook(1, 7), s2);
  }

  lemma FirstUnlinks()
    ensures Reachable(Doomed(Unlinked, Start, NO_LOG, map[]))
  {
    SecondExit();
    var s0 := Doomed(Start, Start, NO_LOG, map[7 := 0]);
    var s1 := Doomed(Polling(7), Start, NO_LOG, map[7 := 0]);
    assert s1.threads == s0.threads[2 := Deleter(0, Polling(7))];
    Onward(s0, DeleteStart(2), s1);
    var s2 := Doomed(Unlinked, Start, NO_LOG, map[]);
    assert s2.threads == s1.threads[2 := Deleter(0, Unlinked)] && s1.table - {7} == s2.table;
    Onward(s1, DeleteUnlink(2), s2);
  }

  lemma FirstStops()
    ensures Reachable(Doomed(Stopped, Start, NO_LOG, map[]))
  {
    FirstUnlinks();
    var s0 := Doomed(Unlinked, Start, NO_LOG, map[]);
    var s1 := Doomed(Stopped, Start, NO_LOG, map[]);
    assert s1.threads == s0.threads[2 := Deleter(0, Stopped)] && s1.boxes == s0.boxes[0 := s1.boxes[0]];
    Onward(s0, DeleteStop(2), s1);
  }

  lemma FirstFlushes()
    ensures Reachable(Doomed(Flushed, Start, NO_LOG.(flushed := true), map[]))
  {
    FirstStops();
    var s1 := Doomed(Stopped, Start, NO_LOG, map[]);
    var s2 := Doomed(Flushed, Start, NO_LOG.(flushed := true), map[]);
    assert s2.threads == s1.threads[2 := Deleter(0, Flushed)] && s2.boxes == s1.boxes[0 := s2.boxes[0]];
    assert (set m | m in s1.boxes[0].box.messages) == {};
    assert NO_LOG.drained + s1.boxes[0].box.messages == [];
    assert NO_BOOKS == NO_BOOKS.(live := NO_BOOKS.live - {}, flushed := NO_BOOKS.flushed + {});
    Onward(s1, DeleteFlush(2), s2);
  }

  /** Two exits of one process schedule two deletions of one mailbox; when the first has
      freed it, the second goes on to work on freed memory. */
  lemma TwoDeletions() returns (s: System, e: Step)
    ensures Reachable(s) && Enabled(s, e) && |s.boxes| == 1
    ensures Touches(s, e, 0) && s.boxes[0].log.freed
  {
    FirstFlushes();
    var flushed := NO_LOG.(flushed := true);
    var s0 := Doomed(Flushed, Start, flushed, map[]);
    var s1 := Doomed(Unclaimed, Start, flushed, map[]);
    assert s1.threads == s0.threads[2 := Deleter(0, Unclaimed)] && s1.boxes == s0.boxes[0 := s1.boxes[0]];
    Onward(s0, DeleteAwait(2), s1);
    s := Doomed(Gone, Start, flushed.(freed := true), map[]);
    assert s.threads == s1.threads[2 := Deleter(0, Gone)] && s.boxes == s1.boxes[0 := s.boxes[0]];
    Onward(s1, DeleteFree(2), s);
    e := DeleteStart(3);
  }

  // ---------------------------------------------------------------- a message that is not there

  const ONE_SENT := Ledger(1, {0}, {}, {}, {}, {})
  const RECEIVER := User(0, Receiving(false))

  function Claimed(n: nat): Box { Created(7).(derefs := n) }

  function Holds0(): Box { Claimed(2).(messages := [0], count := 1) }

  /** Task 0 has claimed the mailbox for a receive and been held up. */
  lemma ReceiverClaims()
    ensures Reachable(With(Claimed(1), NO_LOG, [RECEIVER, Idle(0), Idle(0)]))
  {
    var s0 := Loaded(3);
    assert s0.threads == [Idle(0), Idle(0), Idle(0)];
    ReachableStart(s0);
    var s1 := With(Claimed(1), NO_LOG, [RECEIVER, Idle(0), Idle(0)]);
    assert s1.threads == s0.threads[0 := RECEIVER] && s1.boxes == s0.boxes + [s1.boxes[0]];
    Onward(s0, Lookup(0, 7, ReceiveCall(false), true, true), s1);
  }

  lemma SenderClaims()
    ensures Reachable(With(Claimed(2), NO_LOG, [RECEIVER, User(0, Sending(false)), Idle(0)]))
  {
    ReceiverClaims();
    var s0 := With(Claimed(1), NO_LOG, [RECEIVER, Idle(0), Idle(0)]);
    var s1 := With(Claimed(2), NO_LOG, [RECEIVER, User(0, Sending(false)), Idle(0)]);
    assert s1.threads == s0.threads[1 := User(0, Sending(false))] && s1.boxes == s0.boxes[0 := s1.boxes[0]];
    Onward(s0, Lookup(1, 7, SendCall(false), true, true), s1);
  }

  lemma SenderCreates()
    ensures Reachable(With(Claimed(2), NO_LOG, [RECEIVER, User(0, Adding(0, false, false)), Idle(0)]).(ledger := ONE_SENT))
  {
    SenderClaims();
    var s0 := With(Claimed(2), NO_LOG, [RECEIVER, User(0, Sending(false)), Idle(0)]);
    var s1 := With(Claimed(2), NO_LOG, [RECEIVER, User(0, Adding(0, false, false)), Idle(0)]).(ledger := ONE_SENT);
    assert s1.threads == s0.threads[1 := User(0, Adding(0, false, false))];
    Onward(s0, Create(1, 0, true, true), s1);
  }

  lemma SenderAdds()
    ensures Reachable(With(Holds0(), NO_LOG.(sent := [0]), [RECEIVER, User(0, Leaving(0)), Idle(0)]).(ledger := ONE_SENT))
  {
    SenderCreates();
    var s0 := With(Claimed(2), NO_LOG, [RECEIVER, User(0, Adding(0, false, false)), Idle(0)]).(ledger := ONE_SENT);
    var s1 := With(Holds0(), NO_LOG.(sent := [0]), [RECEIVER, User(0, Leaving(0)), Idle(0)]).(ledger := ONE_SENT);
    assert s1.threads == s0.threads[1 := User(0, Leaving(0))] && s1.boxes == s0.boxes[0 := s1.boxes[0]];
    AddTail(Claimed(2), 1, 0);
    hide AddEnter;
    assert NO_LOG.sent + [0] == [0] && Claimed(2).messages + [0] == [0];
    Onward(s0, EnterAdd(1, false), s1);
  }

  /** The process exits while task 0 still holds its claim. */
  function Dying(d: DeletePc, table: map<int, BoxId>): System {
    System([Slot(Holds0().(stopped := EXITING_AND_STOPPED), NO_LOG.(sent := [0]))], table,
           [RECEIVER, User(0, Leaving(0)), Idle(0), Deleter(0, d)], ONE_SENT)
  }

  lemma ProcessExits()
    ensures Reachable(Dying(Start, map[7 := 0]))
  {
    SenderAdds();
    var s0 := With(Holds0(), NO_LOG.(sent := [0]), [RECEIVER, User(0, Leaving(0)), Idle(0)]).(ledger := ONE_SENT);
    var s1 := Dying(Start, map[7 := 0]);
    assert Halt(Holds0(), EXITING_AND_STOPPED) == s1.boxes[0].box;
    assert s1.threads == s0.threads[2 := Idle(0)] + [Deleter(0, Start)] && s1.boxes == s0.boxes[0 := s1.boxes[0]];
    Onward(s0, ExitHook(2, 7), s1);
  }

  lemma DeletionUnlinks()
    ensures Reachable(Dying(Unlinked, map[]))
  {
    ProcessExits();
    var s0 := Dying(Start, map[7 := 0]);
    var s1 := Dying(Polling(7), map[7 := 0]);
    assert s1.threads == s0.threads[3 := Deleter(0, Polling(7))];
    Onward(s0, DeleteStart(3), s1);
    var s2 := Dying(Unlinked, map[]);
    assert s2.threads == s1.threads[3 := Deleter(0, Unlinked)] && s1.table - {7} == s2.table;
    Onward(s1, DeleteUnlink(3), s2);
  }

  lemma DeletionStops()
    ensures Reachable(Dying(Stopped, map[]))
  {
    DeletionUnlinks();
    var s0 := Dying(Unlinked, map[]);
    var s1 := Dying(Stopped, map[]);
    assert s1.threads == s0.threads[3 := Deleter(0, Stopped)] && s1.boxes == s0.boxes[0 := s1.boxes[0]];
    Onward(s0, DeleteStop(3), s1);
  }

  /** Nobody is inside a wait, so the deletion thread flushes; the claimant then removes a
      message that is no longer there, because the count still says 1. */
  lemma PhantomMessage() returns (s: System, e: Step)
    ensures Reachable(s) && Enabled(s, e) && e.EnterRemove? && RemoveSection(s, e).1.Phantom?
    ensures Next(s, e).threads[e.t] == User(0, Undefined)
  {
    DeletionStops();
    var s0 := Dying(Stopped, map[]);
    s := Next(s0, DeleteFlush(3));
    ReachableStep(s0, DeleteFlush(3));
    assert s.threads == s0.threads[3 := Deleter(0, Flushed)];
    assert s.boxes[0].box == s0.boxes[0].box.(messages := []);
    e := EnterRemove(0, false);
    assert s.threads[0] == RECEIVER && UserAt(s, 0);
    assert RemoveEnter(BoxOf(s, 0), 0, false, false).1 == Phantom;
  }

  // ---------------------------------------------------------------- a put-back out of turn

  const TWO_SENT := Ledger(2, {0, 1}, {}, {}, {}, {})

  /** Two receives (tasks 0 and 1) and a sender (task 2) on one mailbox. */
  function Trio(r: UserPc, q: UserPc, th: Thread, x: Box, log: Log, l: Ledger): System {
    System([Slot(x, log)], map[7 := 0], [User(0, r), User(0, q), th], l)
  }

  lemma TwoReceivers()
    ensures Reachable(Trio(Receiving(false), Receiving(false), Idle(0), Claimed(2), NO_LOG, NO_BOOKS))
  {
    ReceiverClaims();
    var s0 := With(Claimed(1), NO_LOG, [RECEIVER, Idle(0), Idle(0)]);
    var s1 := Trio(Receiving(false), Receiving(false), Idle(0), Claimed(2), NO_LOG, NO_BOOKS);
    assert s1.threads == s0.threads[1 := RECEIVER] && s1.boxes == s0.boxes[0 := s1.boxes[0]];
    Onward(s0, Lookup(1, 7, ReceiveCall(false), true, true), s1);
  }

  /** Task 2 sends one more message, the next one to be allocated. */
  lemma SendsOne(x: Box, log: Log, l: Ledger)
    requires Reachable(Trio(Receiving(false), Receiving(false), Idle(0), x, log, l))
    requires x.stopped == 0 && x.count < CAPACITY && x.queue == [] && x.derefs > 0
    ensures Reachable(Trio(Receiving(false), Receiving(false), Idle(0),
                           x.(messages := x.messages + [l.next], count := x.count + 1),
                           log.(sent := log.sent + [l.next]), l.(next := l.next + 1, live := l.live + {l.next})))
  {
    var r := Receiving(false);
    var l' := l.(next := l.next + 1, live := l.live + {l.next});
    var claimed := x.(derefs := x.derefs + 1);
    var s0 := Trio(r, r, Idle(0), x, log, l);
    var s1 := Trio(r, r, User(0, Sending(false)), claimed, log, l);
    assert s1.threads == s0.threads[2 := User(0, Sending(false))] && s1.boxes == s0.boxes[0 := s1.boxes[0]];
    Onward(s0, Lookup(2, 7, SendCall(false), true, true), s1);
    var s2 := Trio(r, r, User(0, Adding(l.next, false, false)), claimed, log, l');
    assert s2.threads == s1.threads[2 := User(0, Adding(l.next, false, false))];
    Onward(s1, Create(2, 0, true, true), s2);
    AddsOne(claimed, log, l', l.next);
  }

  lemma AddsOne(x: Box, log: Log, l: Ledger, m: MsgId)
    requires Reachable(Trio(Receiving(false), Receiving(false), User(0, Adding(m, false, false)), x, log, l))
    requires x.stopped == 0 && x.count < CAPACITY && x.queue == [] && x.derefs > 1
    ensures Reachable(Trio(Receiving(false), Receiving(false), Idle(0),
                           x.(messages := x.messages + [m], count := x.count + 1, derefs := x.derefs - 1),
                           log.(sent := log.sent + [m]), l))
  {
    var r := Receiving(false);
    var y, log' := x.(messages := x.messages + [m], count := x.count + 1), log.(sent := log.sent + [m]);
    var s0 := Trio(r, r, User(0, Adding(m, false, false)), x, log, l);
    var s1 := Trio(r, r, User(0, Leaving(0)), y, log', l);
    assert s1.threads == s0.threads[2 := User(0, Leaving(0))] && s1.boxes == s0.boxes[0 := s1.boxes[0]];
    AddTail(x, 2, m);
    hide AddEnter;
    Onward(s0, EnterAdd(2, false), s1);
    SenderLeaves(y, log', l);
  }

  lemma SenderLeaves(x: Box, log: Log, l: Ledger)
    requires Reachable(Trio(Receiving(false), Receiving(false), User(0, Leaving(0)), x, log, l)) && x.derefs > 1
    ensures Reachable(Trio(Receiving(false), Receiving(false), Idle(0), x.(derefs := x.derefs - 1), log, l))
  {
    var r := Receiving(false);
    var s1 := Trio(r, r, User(0, Leaving(0)), x, log, l);
    var s2 := Trio(r, r, Idle(0), x.(derefs := x.derefs - 1), log, l);
    assert s2.threads == s1.threads[2 := Idle(0)] && s2.boxes == s1.boxes[0 := s2.boxes[0]];
    Onward(s1, GiveUp(2), s2);
  }

  lemma AddTail(x: Box, t: Tid, m: MsgId)
    requires x.stopped == 0 && x.count < CAPACITY && x.queue == []
    ensures AddEnter(x, t, m, false, false, false) == (x.(messages := x.messages + [m], count := x.count + 1), Done(0))
  {
  }

  lemma RemoveHead(x: Box, t: Tid)
    requires x.count != 0 && x.messages != [] && x.queue == []
    ensures RemoveEnter(x, t, false, false) == (x.(messages := x.messages[1..], count := x.count - 1), Took(x.messages[0]))
  {
  }

  lemma BothTake()
    ensures Reachable(Trio(Holding(0), Holding(1), Idle(0), Claimed(2), NO_LOG.(sent := [0, 1], taken := [0, 1]), TWO_SENT))
  {
    TwoReceivers();
    SendsOne(Claimed(2), NO_LOG, NO_BOOKS);
    var x1, log1 := Claimed(2).(messages := [0], count := 1), NO_LOG.(sent := [0]);
    assert Claimed(2).messages + [0] == [0] && NO_LOG.sent + [0] == [0];
    assert NO_BOOKS.(next := 1, live := {} + {0}) == ONE_SENT;
    SendsOne(x1, log1, ONE_SENT);
    var x2, log2 := Claimed(2).(messages := [0, 1], count := 2), NO_LOG.(sent := [0, 1]);
    assert x1.messages + [1] == [0, 1] && log1.sent + [1] == [0, 1];
    assert ONE_SENT.(next := 2, live := {0} + {1}) == TWO_SENT;
    TakesBoth(x2, log2);
  }

  lemma TakesBoth(x2: Box, log2: Log)
    requires x2 == Claimed(2).(messages := [0, 1], count := 2) && log2 == NO_LOG.(sent := [0, 1])
    requires Reachable(Trio(Receiving(false), Receiving(false), Idle(0), x2, log2, TWO_SENT))
    ensures Reachable(Trio(Holding(0), Holding(1), Idle(0), Claimed(2), log2.(taken := [0, 1]), TWO_SENT))
  {
    var s0 := Trio(Receiving(false), Receiving(false), Idle(0), x2, log2, TWO_SENT);
    var x3 := Claimed(2).(messages := [1], count := 1);
    var s1 := Trio(Holding(0), Receiving(false), Idle(0), x3, log2.(taken := [0]), TWO_SENT);
    RemoveHead(x2, 0);
    hide RemoveEnter;
    assert x2.messages[1..] == [1] && log2.taken + [0] == [0];
    assert s1.threads == s0.threads[0 := User(0, Holding(0))] && s1.boxes == s0.boxes[0 := s1.boxes[0]];
    Onward(s0, EnterRemove(0, false), s1);
    TakesSecond(x3, log2);
  }

  lemma TakesSecond(x3: Box, log2: Log)
    requires x3 == Claimed(2).(messages := [1], count := 1) && log2 == NO_LOG.(sent := [0, 1])
    requires Reachable(Trio(Holding(0), Receiving(false), Idle(0), x3, log2.(taken := [0]), TWO_SENT))
    ensures Reachable(Trio(Holding(0), Holding(1), Idle(0), Claimed(2), log2.(taken := [0, 1]), TWO_SENT))
  {
    var s1 := Trio(Holding(0), Receiving(false), Idle(0), x3, log2.(taken := [0]), TWO_SENT);
    var s2 := Trio(Holding(0), Holding(1), Idle(0), Claimed(2), log2.(taken := [0, 1]), TWO_SENT);
    RemoveHead(x3, 1);
    hide RemoveEnter;
    assert x3.messages[1..] == [] && [0] + [1] == [0, 1];
    assert s2.threads == s1.threads[1 := User(0, Holding(1))] && s2.boxes == s1.boxes[0 := s2.boxes[0]];
    Onward(s1, EnterRemove(1, false), s2);
  }

  /** Two receives overlap: the first to take a message is the first to fail its copy, and
      its put-back overtakes the message still in the other's hands. */
  lemma OvertakingPutBack() returns (s: System, e: Step)
    ensures Reachable(s) && Enabled(s, e) && |s.boxes| == 1 && InOrder(s.boxes[0])
    ensures |Next(s, e).boxes| == 1 && !InOrder(Next(s, e).boxes[0])
  {
    BothTake();
    var log := NO_LOG.(sent := [0, 1], taken := [0, 1]);
    var s0 := Trio(Holding(0), Holding(1), Idle(0), Claimed(2), log, TWO_SENT);
    s := Trio(Adding(0, true, true), Holding(1), Idle(0), Claimed(2), log, TWO_SENT);
    assert s.threads == s0.threads[0 := User(0, Adding(0, true, true))] && s.boxes == s0.boxes[0 := s.boxes[0]];
    Onward(s0, CopyOut(0, false), s);
    e := EnterAdd(0, false);
    PutBackBreaks(s, e);
  }

  lemma PutBackBreaks(s: System, e: Step)
    requires s == Trio(Adding(0, true, true), Holding(1), Idle(0), Claimed(2), NO_LOG.(sent := [0, 1], taken := [0, 1]), TWO_SENT)
    requires Reachable(s) && e == EnterAdd(0, false)
    ensures InOrder(s.boxes[0]) && Enabled(s, e) && |Next(s, e).boxes| == 1 && !InOrder(Next(s, e).boxes[0])
  {
    ReachableTracked(s);
    assert [0, 1] + [] + [] == [0, 1];
    assert AddEnter(Claimed(2), 0, 0, true, true, false).1 == Done(0);
    assert PutsBack(s, e, 0, 0);
    PutBackOrder(s, e, 0, 0);
    StepFrame(s, e);
    AddSectionKeeps(s, e);
  }

  // ---------------------------------------------------------------- EXITING does not stay

  /** The EXITING bit survives a step exactly if the step is not a user's stop: that writes
      the whole word. */
  lemma {:induction false} ExitingSurvives(s: System, e: Step, b: BoxId)
    requires Enabled(s, e) && b < |s.boxes| && HasExiting(s.boxes[b].box.stopped)
    ensures b < |Next(s, e).boxes|
    ensures HasExiting(Next(s, e).boxes[b].box.stopped) <==> !(e.HaltBox? && s.threads[e.t].b == b)
    ensures Next(s, e).boxes[b].box.stopped != 0
  {
    hide WakeOne;
    StepFrame(s, e);
    if Site(s, e) == b {
      if e.EnterAdd? || e.ResumeAdd? {
        AddSectionKeeps(s, e);
      } else if e.EnterRemove? || e.ResumeRemove? {
        RemoveSectionKeeps(s, e);
      } else {
        PlainExiting(s, e, b);
      }
    }
  }

  lemma {:induction false} PlainExiting(s: System, e: Step, b: BoxId)
    requires Enabled(s, e) && b < |s.boxes| && HasExiting(s.boxes[b].box.stopped) && Site(s, e) == b
    requires !e.EnterAdd? && !e.ResumeAdd? && !e.EnterRemove? && !e.ResumeRemove?
    ensures b < |Next(s, e).boxes|
    ensures HasExiting(Next(s, e).boxes[b].box.stopped) <==> !e.HaltBox?
  {
    hide WakeOne;
  }

  /** A manage call that is about to stop its own mailbox, and a task outside. */
  lemma ManagerHalts()
    ensures Reachable(With(Claimed(1), NO_LOG, [User(0, Halting), Idle(0)]))
  {
    var s0 := Loaded(2);
    assert s0.threads == [Idle(0), Idle(0)];
    ReachableStart(s0);
    var s1 := With(Claimed(1), NO_LOG, [User(0, Managing(true)), Idle(0)]);
    assert s1.threads == s0.threads[0 := User(0, Managing(true))] && s1.boxes == s0.boxes + [s1.boxes[0]];
    Onward(s0, Lookup(0, 7, ManageCall(true), true, true), s1);
    var s2 := With(Claimed(1), NO_LOG, [User(0, Halting), Idle(0)]);
    assert s2.threads == s1.threads[0 := User(0, Halting)];
    Onward(s1, ReadCount(0, true), s2);
  }

  /** The process exits between the count and the stop of a manage call: the stop then clears
      the EXITING bit of a mailbox whose deletion is under way. */
  lemma ExitingOverwritten() returns (s: System, e: Step)
    ensures Reachable(s) && Enabled(s, e) && e.HaltBox? && |s.boxes| == 1 && HasExiting(s.boxes[0].box.stopped)
    ensures |Next(s, e).boxes| == 1 && !HasExiting(Next(s, e).boxes[0].box.stopped)
  {
    ManagerHalts();
    var s0 := With(Claimed(1), NO_LOG, [User(0, Halting), Idle(0)]);
    s := With(Claimed(1).(stopped := EXITING_AND_STOPPED), NO_LOG, [User(0, Halting), Idle(0), Deleter(0, Start)]);
    assert Halt(Claimed(1), EXITING_AND_STOPPED) == s.boxes[0].box;
    assert s.threads == s0.threads[1 := Idle(0)] + [Deleter(0, Start)] && s.boxes == s0.boxes[0 := s.boxes[0]];
    Onward(s0, ExitHook(1, 7), s);
    e := HaltBox(0);
  }

  // ---------------------------------------------------------------- leaks

  /** The add of step e is refused, and from then on its message is leaked. */
  lemma RefusalLeaks(s: System, e: Step, m: MsgId)
    requires Reachable(s) && Enabled(s, e) && e.EnterAdd? && s.threads[e.t].pc.m == m && BoxOf(s, e.t).stopped != 0
    ensures m in Next(s, e).ledger.refused && Leaked(Next(s, e), m)
  {
    hide Next;
    ReachableStep(s, e);
    RefusedExactly(s, e, m);
    LeakedExactly(Next(s, e), m);
  }

  /** A send to a mailbox that was stopped after the lookup leaks its message. */
  lemma LeakedSend() returns (s: System, e: Step)
    ensures Reachable(s) && Enabled(s, e) && e.EnterAdd? && !s.threads[e.t].pc.head
    ensures 0 in Next(s, e).ledger.refused && Leaked(Next(s, e), 0)
  {
    SenderCreates();
    var s0 := With(Claimed(2), NO_LOG, [RECEIVER, User(0, Adding(0, false, false)), Idle(0)]).(ledger := ONE_SENT);
    s := With(Claimed(2).(stopped := EXITING_AND_STOPPED), NO_LOG,
              [RECEIVER, User(0, Adding(0, false, false)), Idle(0), Deleter(0, Start)]).(ledger := ONE_SENT);
    assert Halt(Claimed(2), EXITING_AND_STOPPED) == s.boxes[0].box;
    assert s.threads == s0.threads[2 := Idle(0)] + [Deleter(0, Start)] && s.boxes == s0.boxes[0 := s.boxes[0]];
    Onward(s0, ExitHook(2, 7), s);
    e := EnterAdd(1, false);
    RefusalLeaks(s, e, 0);
  }

  /** A receive has taken the message of a stopped mailbox. */
  function Grabbing(pc: UserPc): System {
    System([Slot(Claimed(2).(stopped := EXITING_AND_STOPPED), NO_LOG.(sent := [0], taken := [0]))], map[7 := 0],
           [User(0, pc), User(0, Leaving(0)), Idle(0), Deleter(0, Start)], ONE_SENT)
  }

  lemma ReceiverTakes()
    ensures Reachable(Grabbing(Holding(0)))
  {
    ProcessExits();
    var s0 := Dying(Start, map[7 := 0]);
    var s1 := Grabbing(Holding(0));
    RemoveHead(s0.boxes[0].box, 0);
    hide RemoveEnter;
    assert s0.boxes[0].box.messages[1..] == [] && NO_LOG.taken + [0] == [0];
    assert s1.threads == s0.threads[0 := User(0, Holding(0))] && s1.boxes == s0.boxes[0 := s1.boxes[0]];
    Onward(s0, EnterRemove(0, false), s1);
  }

  /** A receive whose copy fails on a mailbox that was stopped leaks the message it took. */
  lemma LeakedPutBack() returns (s: System, e: Step)
    ensures Reachable(s) && Enabled(s, e) && e.EnterAdd? && s.threads[e.t].pc.head
    ensures 0 in Next(s, e).ledger.refused && Leaked(Next(s, e), 0)
  {
    ReceiverTakes();
    var s0 := Grabbing(Holding(0));
    s := Grabbing(Adding(0, true, true));
    assert s.threads == s0.threads[0 := User(0, Adding(0, true, true))] && s.boxes == s0.boxes[0 := s.boxes[0]];
    Onward(s0, CopyOut(0, false), s);
    e := EnterAdd(0, false);
    RefusalLeaks(s, e, 0);
  }
}
