/**
 Every run of the protocol, seen from one mailbox, is a run of a bounded stoppable FIFO:
 each add or remove, however often it slept, takes effect in its last critical section and
 returns the code of that instant.
 */
module Refinement {
  import opened Codes
  import opened WaitQueues
  import opened MailboxSpec
  import opened BoxInvariant
  import opened BoundedFifo
  import opened Protocol
  import opened Tallies
  import opened Invariant
  import opened InvariantSteps
  import opened StepFacts
  import opened StopCascade

  ghost function Abs(s: System, b: BoxId): Fifo
    requires b < |s.boxes|
  {
    AsFifo(s.boxes[b].box)
  }

  /** What mailbox b shows of a step. */
  ghost function EventOf(s: System, e: Step, b: BoxId): Event
    requires Enabled(s, e)
  {
    if Site(s, e) != b || b >= |s.boxes| then Silent
    else match e
      case EnterAdd(t, _) => AddEvent(s, e, s.threads[t].pc.block)
      case ResumeAdd(_, _) => AddEvent(s, e, true)
      case EnterRemove(t, _) => RemoveEvent(s, e, s.threads[t].pc.block)
      case ResumeRemove(_, _) => RemoveEvent(s, e, true)
      case HaltBox(_) => BoundedFifo.Stop
      case ExitHook(_, _) => BoundedFifo.Stop
      case DeleteStop(_) => BoundedFifo.Stop
      case DeleteFlush(t) => if BoxOf(s, t).waiting == 0 then BoundedFifo.Flush else Silent
      case _ => Silent
  }

  ghost function AddEvent(s: System, e: Step, block: bool): Event
    requires Enabled(s, e) && (e.EnterAdd? || e.ResumeAdd?)
  {
    var v, pc := AddSection(s, e).1, s.threads[e.t].pc;
    if v.Done? then Added(pc.m, pc.head, block, e.sig, v.code) else Silent
  }

  ghost function RemoveEvent(s: System, e: Step, block: bool): Event
    requires Enabled(s, e) && (e.EnterRemove? || e.ResumeRemove?)
  {
    match RemoveSection(s, e).1
    case Took(m) => Removed(m)
    case Done(code) => NotRemoved(block, e.sig, code)
    case Phantom => Corrupt
    case Slept => Silent
  }

  // ---------------------------------------------------------------- one section

  lemma AddEnterAtomic(x: Box, t: Tid, m: MsgId, block: bool, head: bool, sig: bool)
    requires x.stopped == 0 ==> Counted(x)
    ensures var (y, v) := AddEnter(x, t, m, block, head, sig);
            if v.Done? then
              && Legal(AsFifo(x), Added(m, head, block, sig, v.code))
              && AsFifo(y) == Effect(AsFifo(x), Added(m, head, block, sig, v.code))
            else AsFifo(y) == AsFifo(x)
  {
  }

  lemma AddWaitAtomic(x: Box, t: Tid, m: MsgId, head: bool, sig: bool)
    requires x.stopped == 0 ==> Counted(x)
    ensures var (y, v) := AddWait(x, t, m, head, sig);
            if v.Done? then
              && Legal(AsFifo(x), Added(m, head, true, sig, v.code))
              && AsFifo(y) == Effect(AsFifo(x), Added(m, head, true, sig, v.code))
            else AsFifo(y) == AsFifo(x)
  {
  }

  /** A remove finds a message exactly if the count says so, and a real one if the list has it. */
  lemma RemoveEnterAtomic(x: Box, t: Tid, block: bool, sig: bool)
    requires x.count == 0 ==> x.messages == []
    ensures var (y, v) := RemoveEnter(x, t, block, sig);
            match v
            case Took(m) => Legal(AsFifo(x), Removed(m)) && AsFifo(y) == Effect(AsFifo(x), Removed(m))
            case Done(c) => Legal(AsFifo(x), NotRemoved(block, sig, c)) && y.messages == x.messages && y.stopped == x.stopped
            case Slept => AsFifo(y) == AsFifo(x)
            case Phantom => x.messages == [] && x.count != 0 && AsFifo(y) == AsFifo(x)
  {
  }

  lemma RemoveWaitAtomic(x: Box, t: Tid, sig: bool)
    requires x.count == 0 ==> x.messages == []
    ensures var (y, v) := RemoveWait(x, t, sig);
            match v
            case Took(m) => Legal(AsFifo(x), Removed(m)) && AsFifo(y) == Effect(AsFifo(x), Removed(m))
            case Done(c) => Legal(AsFifo(x), NotRemoved(true, sig, c)) && y.messages == x.messages && y.stopped == x.stopped
            case Slept => AsFifo(y) == AsFifo(x)
            case Phantom => x.messages == [] && x.count != 0 && AsFifo(y) == AsFifo(x)
  {
  }

  lemma BoxFacts(s: System, b: BoxId)
    requires Inv(s) && b < |s.boxes|
    ensures Sound(s.boxes[b].box, s.boxes[b].log.flushed)
  {
  }

  // ---------------------------------------------------------------- one step

  /** A step is the event it shows; the only illegal event is a corrupt removal. */
  ghost predicate StepMatches(s: System, e: Step, b: BoxId)
    requires Enabled(s, e) && b < |s.boxes|
  {
    && b < |Next(s, e).boxes|
    && (if EventOf(s, e, b).Corrupt? then Abs(Next(s, e), b) == Abs(s, b)
        else Legal(Abs(s, b), EventOf(s, e, b)) && Abs(Next(s, e), b) == Effect(Abs(s, b), EventOf(s, e, b)))
  }

  lemma {:induction false} AddRefines(s: System, e: Step, b: BoxId)
    requires Inv(s) && Enabled(s, e) && (e.EnterAdd? || e.ResumeAdd?) && s.threads[e.t].b == b && b < |s.boxes|
    ensures StepMatches(s, e, b)
  {
    hide Next;
    hide Inv;
    hide AddEnter;
    hide AddWait;
    BoxFacts(s, b);
    AddSectionKeeps(s, e);
    var x, t, pc := s.boxes[b].box, e.t, s.threads[e.t].pc;
    if e.EnterAdd? {
      AddEnterAtomic(x, t, pc.m, pc.block, pc.head, e.sig);
    } else {
      AddWaitAtomic(x, t, pc.m, pc.head, e.sig);
    }
  }

  lemma {:induction false} RemoveRefines(s: System, e: Step, b: BoxId)
    requires Inv(s) && Enabled(s, e) && (e.EnterRemove? || e.ResumeRemove?) && s.threads[e.t].b == b && b < |s.boxes|
    ensures StepMatches(s, e, b)
  {
    hide Next;
    hide Inv;
    hide RemoveEnter;
    hide RemoveWait;
    BoxFacts(s, b);
    RemoveSectionKeeps(s, e);
    var x, t, pc := s.boxes[b].box, e.t, s.threads[e.t].pc;
    if e.EnterRemove? {
      RemoveEnterAtomic(x, t, pc.block, e.sig);
    } else {
      RemoveWaitAtomic(x, t, e.sig);
    }
  }

  lemma {:induction false} OtherRefines(s: System, e: Step, b: BoxId)
    requires Enabled(s, e) && b < |s.boxes| && Site(s, e) == b
    requires !e.EnterAdd? && !e.ResumeAdd? && !e.EnterRemove? && !e.ResumeRemove? && !e.DeleteFlush?
    ensures StepMatches(s, e, b)
  {
    hide WakeOne;
  }

  lemma FlushRefines(s: System, e: Step, b: BoxId)
    requires Inv(s) && Enabled(s, e) && b < |s.boxes| && e.DeleteFlush? && s.threads[e.t].b == b
    ensures StepMatches(s, e, b)
  {
    DeleterAwake(s, e.t);
    hide Inv;
  }

  lemma {:induction false} StepRefines(s: System, e: Step, b: BoxId)
    requires Inv(s) && Enabled(s, e) && b < |s.boxes|
    ensures StepMatches(s, e, b)
  {
    hide Inv;
    hide Next;
    StepFrame(s, e);
    if Site(s, e) != b {
      assert Next(s, e).boxes[b] == s.boxes[b];
    } else if e.EnterAdd? || e.ResumeAdd? {
      AddRefines(s, e, b);
    } else if e.EnterRemove? || e.ResumeRemove? {
      RemoveRefines(s, e, b);
    } else if e.DeleteFlush? {
      FlushRefines(s, e, b);
    } else {
      OtherRefines(s, e, b);
    }
  }

  // ---------------------------------------------------------------- whole runs

  ghost function Trace(s: System, run: seq<Step>, b: BoxId): seq<Event>
    requires Run(s, run)
    decreases |run|
  {
    if run == [] then [] else [EventOf(s, run[0], b)] + Trace(Next(s, run[0]), run[1..], b)
  }

  /** The events of any run are events of a bounded stoppable FIFO, and the mailbox ends up
      holding what that FIFO holds, exactly if no removal in the run was corrupt. */
  lemma {:induction false} RunRefines(s: System, run: seq<Step>, b: BoxId)
    requires Inv(s) && Run(s, run) && b < |s.boxes|
    ensures b < |After(s, run).boxes|
    ensures LegalTrace(Abs(s, b), Trace(s, run, b)) <==> Corrupt !in Trace(s, run, b)
    ensures LegalTrace(Abs(s, b), Trace(s, run, b)) ==> Abs(After(s, run), b) == Final(Abs(s, b), Trace(s, run, b))
    decreases |run|
  {
    hide Inv;
    hide Next;
    hide EventOf;
    if run != [] {
      var e := run[0];
      StepInv(s, e);
      StepRefines(s, e, b);
      RunRefines(Next(s, e), run[1..], b);
      var ev, rest := EventOf(s, e, b), Trace(Next(s, e), run[1..], b);
      assert Trace(s, run, b) == [ev] + rest;
      assert ([ev] + rest)[0] == ev && ([ev] + rest)[1..] == rest;
      assert Corrupt in [ev] + rest <==> ev == Corrupt || Corrupt in rest;
    }
  }

  /** A removal is corrupt exactly if the list was flushed while the count was not zero: the
      flush empties the list and leaves the count. */
  lemma CorruptExactly(s: System, e: Step)
    requires Reachable(s) && Enabled(s, e) && (e.EnterRemove? || e.ResumeRemove?)
    ensures RemoveSection(s, e).1.Phantom?
       <==> (s.boxes[s.threads[e.t].b].log.flushed && BoxOf(s, e.t).count != 0)
  {
    ReachableInv(s);
    BoxFacts(s, s.threads[e.t].b);
  }

  /** Capacity and count, in every reachable state: until the flush the count is the length
      of the list and at most 32; after it the list is empty for good. */
  lemma CapacityAndCount(s: System, b: BoxId)
    requires Reachable(s) && b < |s.boxes|
    ensures var (x, log) := (s.boxes[b].box, s.boxes[b].log);
            && 0 <= x.count <= CAPACITY
            && (!log.flushed ==> x.count == |x.messages|)
            && (log.flushed ==> x.messages == [] && x.stopped != 0 && x.waiting == 0)
  {
    ReachableInv(s);
    BoxFacts(s, b);
  }

  /** z is what is left of a after some messages were taken off the front. */
  predicate Rest(a: seq<MsgId>, z: seq<MsgId>) {
    |z| <= |a| && z == a[|a| - |z|..]
  }

  /** Stop is absorbing: after a stop no run adds a message at either end of the list. */
  lemma {:induction false} StoppedListShrinks(s: System, run: seq<Step>, b: BoxId)
    requires Inv(s) && IsStopped(s, b) && Run(s, run)
    ensures IsStopped(After(s, run), b)
    ensures Rest(s.boxes[b].box.messages, After(s, run).boxes[b].box.messages)
    decreases |run|
  {
    hide Inv;
    hide Next;
    hide EventOf;
    if run != [] {
      var e := run[0];
      StepInv(s, e);
      StepFrame(s, e);
      StepRefines(s, e, b);
      StoppedListShrinks(Next(s, e), run[1..], b);
    }
  }

  /** So the states in which a sleeping call may find its mailbox are all credible. */
  lemma ReachableCredible(s: System, b: BoxId)
    requires Reachable(s) && b < |s.boxes|
    ensures Credible(s.boxes[b].box)
  {
    CapacityAndCount(s, b);
  }

  // ---------------------------------------------------------------- draining

  ghost predicate RemoveStep(s: System, e: Step, b: BoxId) {
    (e.EnterRemove? || e.ResumeRemove?) && e.t < |s.threads| && About(s.threads[e.t], b)
  }

  /** What the remove sections on b showed in a run, in order. */
  ghost function Removals(s: System, run: seq<Step>, b: BoxId): seq<Event>
    requires Run(s, run)
    decreases |run|
  {
    if run == [] then []
    else (if RemoveStep(s, run[0], b) then [EventOf(s, run[0], b)] else []) + Removals(Next(s, run[0]), run[1..], b)
  }

  /** On a stopped mailbox only a remove changes the list before the flush, and it takes the
      first message or, if there is none, returns STOPPED, blocking or not. */
  lemma {:induction false} StoppedEvent(s: System, e: Step, b: BoxId)
    requires Inv(s) && Enabled(s, e) && IsStopped(s, b) && b < |Next(s, e).boxes| && !Next(s, e).boxes[b].log.flushed
    ensures var (q, ev) := (Abs(s, b), EventOf(s, e, b));
            && StepMatches(s, e, b) && !ev.Corrupt? && !s.boxes[b].log.flushed
            && (if !RemoveStep(s, e, b) then Abs(Next(s, e), b) == q && !ev.Removed?
                else if q.items == [] then ev.NotRemoved? && ev.code == MAILBOX_STOPPED
                else ev == Removed(q.items[0]))
  {
    hide Inv;
    hide Next;
    StepRefines(s, e, b);
    StepFrame(s, e);
    if RemoveStep(s, e, b) {
      StoppedRemoveEvent(s, e, b);
    } else if e.DeleteFlush? && Site(s, e) == b && BoxOf(s, e.t).waiting == 0 {
      FlushMarks(s, e);
    }
  }

  lemma StoppedRemoveEvent(s: System, e: Step, b: BoxId)
    requires Inv(s) && Enabled(s, e) && IsStopped(s, b) && !s.boxes[b].log.flushed && RemoveStep(s, e, b)
    ensures var (q, ev) := (Abs(s, b), EventOf(s, e, b));
            if q.items == [] then ev.NotRemoved? && ev.code == MAILBOX_STOPPED else ev == Removed(q.items[0])
  {
    hide Inv;
    hide RemoveEnter;
    hide RemoveWait;
    BoxFacts(s, b);
    StoppedVerdict(s.boxes[b].box, e.t, if e.EnterRemove? then s.threads[e.t].pc.block else true, e.sig);
  }

  lemma StoppedVerdict(x: Box, t: Tid, block: bool, sig: bool)
    requires x.stopped != 0 && Counted(x)
    ensures RemoveEnter(x, t, block, sig).1 == if x.messages == [] then Done(MAILBOX_STOPPED) else Took(x.messages[0])
    ensures RemoveWait(x, t, sig).1 == if x.messages == [] then Done(MAILBOX_STOPPED) else Took(x.messages[0])
  {
  }

  lemma FlushMarks(s: System, e: Step)
    requires Enabled(s, e) && e.DeleteFlush? && BoxOf(s, e.t).waiting == 0
    ensures Next(s, e).boxes[s.threads[e.t].b].log.flushed
  {
  }

  /** evs empty the list from the front, one message each, and then meet a stopped FIFO. */
  predicate Drains(list: seq<MsgId>, evs: seq<Event>) {
    forall i :: 0 <= i < |evs| ==>
      if i < |list| then evs[i] == Removed(list[i]) else evs[i].NotRemoved? && evs[i].code == MAILBOX_STOPPED
  }

  lemma DrainsCons(list: seq<MsgId>, ev: Event, evs: seq<Event>)
    requires if list == [] then ev.NotRemoved? && ev.code == MAILBOX_STOPPED else ev == Removed(list[0])
    requires Drains(if list == [] then [] else list[1..], evs)
    ensures Drains(list, [ev] + evs)
  {
  }

  /** What n removals leave of a list. */
  function Drained(list: seq<MsgId>, n: nat): seq<MsgId> { if n <= |list| then list[n..] else [] }

  /** Drain after stop: of the removals that follow a stop, whoever runs them and whatever else
      happens, the first take exactly the messages queued at the stop, one each and in order;
      every later one returns STOPPED, blocking or not; and nothing else changes the list. */
  lemma {:induction false} DrainAfterStop(s: System, run: seq<Step>, b: BoxId)
    requires Inv(s) && IsStopped(s, b) && Run(s, run)
    requires b < |After(s, run).boxes| && !After(s, run).boxes[b].log.flushed
    ensures Drains(s.boxes[b].box.messages, Removals(s, run, b))
    ensures After(s, run).boxes[b].box.messages == Drained(s.boxes[b].box.messages, |Removals(s, run, b)|)
    decreases |run|
  {
    hide Inv;
    hide Next;
    hide EventOf;
    hide Drains;
    if run == [] {
      NothingDrains(s.boxes[b].box.messages);
    } else {
      var e := run[0];
      StepInv(s, e);
      StepFrame(s, e);
      RunMovesOn(Next(s, e), run[1..], b);
      StoppedEvent(s, e, b);
      DrainAfterStop(Next(s, e), run[1..], b);
      var rest := Removals(Next(s, e), run[1..], b);
      if RemoveStep(s, e, b) {
        DrainsCons(s.boxes[b].box.messages, EventOf(s, e, b), rest);
      } else {
        assert [] + rest == rest;
      }
    }
  }

  lemma NothingDrains(list: seq<MsgId>)
    ensures Drains(list, [])
  {
  }

  lemma {:induction false} RunMovesOn(s: System, run: seq<Step>, b: BoxId)
    requires Run(s, run) && b < |s.boxes|
    ensures b < |After(s, run).boxes| && MovesOn(s.boxes[b], After(s, run).boxes[b])
    decreases |run|
  {
    hide Next;
    if run != [] {
      StepFrame(s, run[0]);
      RunMovesOn(Next(s, run[0]), run[1..], b);
    }
  }
}
