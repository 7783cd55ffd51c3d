/** Every step of the protocol keeps the invariant, so every reachable state has it. */
module InvariantSteps {
  import opened Codes
  import opened WaitQueues
  import opened MailboxSpec
  import opened BoxInvariant
  import opened Protocol
  import opened Tallies
  import opened Invariant

  // ---------------------------------------------------------------- claims

  /** Claiming a mailbox that is in the table. */
  lemma ClaimOk(ts: seq<Thread>, t: Tid, th: Thread, slot: Slot, b: BoxId)
    requires BoxOk(ts, slot, b, true)
    requires t < |ts| && ts[t].Idle? && th.User? && th.b == b && !Waits(th, b)
    ensures BoxOk(ts[t := th], slot.(box := MailboxSpec.Claim(slot.box)), b, true)
  {
    var us := ts[t := th];
    SumUpdate(ts, t, th, ClaimsOn(b));
    SumUpdate(ts, t, th, WaitsOn(b));
    SumUpdate(ts, t, th, DeletesOf(b));
    NotQueued(ts, slot.box, b, t);
    QueueMove(ts, t, th, slot.box.queue, slot.box.queue, b);
    ClaimQueueMove(ts, t, th, slot.box.derefQueue, slot.box.derefQueue, b);
  }

  /** A mailbox in the table has no deletion thread waiting for its claims. */
  lemma LinkedNotAwaited(ts: seq<Thread>, slot: Slot, b: BoxId)
    requires BoxOk(ts, slot, b, true)
    ensures slot.box.derefQueue == [] && !slot.log.freed
  {
    if slot.box.derefQueue != [] {
      var u := slot.box.derefQueue[0].tid;
      assert false;
    }
  }

  lemma {:induction false} LookupInv(s: System, t: Tid, pid: int, call: Call, valid: bool, granted: bool)
    requires Inv(s) && t < |s.threads| && s.threads[t].Idle?
    ensures pid in s.table ==> s.table[pid] < |s.boxes|
    ensures Inv(DoLookup(s, t, pid, call, valid, granted))
  {
    var s' := DoLookup(s, t, pid, call, valid, granted);
    if valid && pid in s.table {
      var b := s.table[pid];
      var slot := s.boxes[b];
      LinkedNotAwaited(s.threads, slot, b);
      if HasExiting(slot.box.stopped) {
        assert Unclaim(MailboxSpec.Claim(slot.box)) == slot.box;
        assert s'.boxes == s.boxes;
        FrameMove(s.threads, t, s'.threads[t], slot, b, true);
      } else {
        ClaimOk(s.threads, t, s'.threads[t], slot, b);
      }
      MoveInv(s, s', t, b);
    } else if valid && granted {
      FreshBoxInv(s, t, pid, Begin(call));
    } else {
      QuietInv(s, s', t);
    }
  }

  /** A step that only changes the caller's own return code. */
  lemma QuietInv(s: System, s': System, t: Tid)
    requires Inv(s) && t < |s.threads|
    requires s' == s.(threads := s'.threads, ledger := s'.ledger)
    requires |s'.threads| == |s.threads| && s'.threads == s.threads[t := s'.threads[t]]
    requires !s.threads[t].User? && !s.threads[t].Deleter? && !s'.threads[t].User? && !s'.threads[t].Deleter?
    ensures Inv(s')
  {
    forall c | 0 <= c < |s'.boxes| ensures BoxOk(s'.threads, s'.boxes[c], c, Linked(s', c)) {
      FrameMove(s.threads, t, s'.threads[t], s.boxes[c], c, Linked(s, c));
    }
  }

  /** A mailbox is created only for a pid the table does not have. */
  lemma FreshBoxInv(s: System, t: Tid, pid: int, pc: UserPc)
    requires Inv(s) && t < |s.threads| && s.threads[t].Idle? && pid !in s.table
    requires !pc.WaitAdd? && !pc.WaitRemove?
    ensures Inv(s.(boxes := s.boxes + [Slot(MailboxSpec.Claim(Created(pid)), EMPTY_LOG)],
                   table := s.table[pid := |s.boxes|],
                   threads := s.threads[t := User(|s.boxes|, pc)]))
  {
    var b, th := |s.boxes|, User(|s.boxes|, pc);
    var ts := s.threads[t := th];
    var s' := s.(boxes := s.boxes + [Slot(MailboxSpec.Claim(Created(pid)), EMPTY_LOG)],
                 table := s.table[pid := b], threads := ts);
    forall u | 0 <= u < |s.threads| ensures !About(s.threads[u], b) {}
    forall c | 0 <= c < |s'.boxes| ensures BoxOk(s'.threads, s'.boxes[c], c, Linked(s', c)) {
      if c < b {
        FrameMove(s.threads, t, th, s.boxes[c], c, Linked(s, c));
      } else {
        SumZero(s.threads, ClaimsOn(b));
        SumZero(s.threads, WaitsOn(b));
        SumUpdate(s.threads, t, th, ClaimsOn(b));
        SumUpdate(s.threads, t, th, WaitsOn(b));
      }
    }
  }

  /** Giving up a claim; the last one wakes a deletion thread. */
  lemma GiveUpOk(ts: seq<Thread>, t: Tid, th: Thread, slot: Slot, b: BoxId, linked: bool)
    requires BoxOk(ts, slot, b, linked)
    requires t < |ts| && ts[t].User? && ts[t].b == b && !Waits(ts[t], b) && (th.Idle? || th.Freeing?)
    ensures BoxOk(ts[t := th], slot.(box := Unclaim(slot.box)), b, linked)
  {
    hide QueueOk;
    hide ClaimQueueOk;
    hide DeletersOk;
    hide Sound;
    hide WakeOne;
    SumUpdate(ts, t, th, ClaimsOn(b));
    SumUpdate(ts, t, th, WaitsOn(b));
    UnclaimSound(slot.box, slot.log.flushed);
    GiveUpQueues(ts, t, th, slot.box, b);
    DeletersMove(ts, t, th, slot, slot.(box := Unclaim(slot.box)), b, linked);
  }

  lemma UnclaimSound(x: Box, flushed: bool)
    requires Sound(x, flushed)
    ensures Sound(Unclaim(x), flushed)
  {
  }

  lemma GiveUpQueues(ts: seq<Thread>, t: Tid, th: Thread, x: Box, b: BoxId)
    requires QueuesOk(ts, x, b) && x.derefs > 0
    requires t < |ts| && ts[t].User? && ts[t].b == b && !Waits(ts[t], b) && (th.Idle? || th.Freeing?)
    ensures QueuesOk(ts[t := th], Unclaim(x), b)
  {
    NotQueued(ts, x, b, t);
    QueueMove(ts, t, th, x.queue, x.queue, b);
    ClaimQueueMove(ts, t, th, x.derefQueue, x.derefQueue, b);
    ClaimQueuePigeonhole(x.derefQueue, ts, b);
    hide QueueOk;
    hide ClaimQueueOk;
    hide WakeOne;
    SumUpdate(ts, t, th, DeletesOf(b));
  }

  lemma {:induction false} GiveUpInv(s: System, t: Tid)
    requires Inv(s) && Enabled(s, GiveUp(t))
    ensures Inv(DoGiveUp(s, t))
  {
    hide BoxOk;
    var b := s.threads[t].b;
    var s' := DoGiveUp(s, t);
    GiveUpOk(s.threads, t, s'.threads[t], s.boxes[b], b, Linked(s, b));
    MoveInv(s, s', t, b);
  }

  // ---------------------------------------------------------------- add and remove

  lemma {:induction false} AddInv(s: System, t: Tid, m: MsgId, head: bool, r: (Box, Verdict))
    requires Inv(s) && UserAt(s, t) && Awake(s, t)
    requires Sound(r.0, s.boxes[s.threads[t].b].log.flushed)
    requires SameClaims(BoxOf(s, t), r.0) && QueueEffect(BoxOf(s, t), r.0, t, r.1)
    requires r.0.stopped == BoxOf(s, t).stopped
    requires r.0.waiting == BoxOf(s, t).waiting + (if r.1.Slept? then 1 else 0) - Weight(WaitsOn(s.threads[t].b), s.threads[t])
    requires r.1.Slept? || r.1.Done?
    ensures Inv(AfterAdd(s, t, m, head, r))
  {
    hide Inv;
    hide BoxOk;
    hide Sound;
    hide WokenOnly;
    var b := s.threads[t].b;
    var s' := AfterAdd(s, t, m, head, r);
    InvAt(s, b);
    UserMove(s.threads, t, s'.threads[t], s.boxes[b], s'.boxes[b], b, Linked(s, b));
    MoveInv(s, s', t, b);
  }

  lemma {:induction false} RemoveInv(s: System, t: Tid, r: (Box, Verdict))
    requires Inv(s) && UserAt(s, t) && Awake(s, t)
    requires Sound(r.0, s.boxes[s.threads[t].b].log.flushed)
    requires SameClaims(BoxOf(s, t), r.0) && QueueEffect(BoxOf(s, t), r.0, t, r.1)
    requires r.0.stopped == BoxOf(s, t).stopped
    requires r.0.waiting == BoxOf(s, t).waiting + (if r.1.Slept? then 1 else 0) - Weight(WaitsOn(s.threads[t].b), s.threads[t])
    ensures Inv(AfterRemove(s, t, r))
  {
    hide Inv;
    hide BoxOk;
    hide Sound;
    hide WokenOnly;
    var b := s.threads[t].b;
    var s' := AfterRemove(s, t, r);
    InvAt(s, b);
    UserMove(s.threads, t, s'.threads[t], s.boxes[b], s'.boxes[b], b, Linked(s, b));
    MoveInv(s, s', t, b);
  }

  lemma UserAwake(s: System, t: Tid)
    requires Inv(s) && UserAt(s, t)
    ensures !Waits(s.threads[t], s.threads[t].b) ==> Awake(s, t)
    ensures Sound(BoxOf(s, t), s.boxes[s.threads[t].b].log.flushed)
    ensures Waits(s.threads[t], s.threads[t].b) && Awake(s, t) ==> Exclusives(BoxOf(s, t).queue) < BoxOf(s, t).waiting
  {
    var b := s.threads[t].b;
    assert BoxOk(s.threads, s.boxes[b], b, Linked(s, b));
    NotQueued(s.threads, s.boxes[b].box, b, t);
    if Waits(s.threads[t], b) && Awake(s, t) {
      AwakePigeonhole(s.boxes[b].box.queue, s.threads, b, t);
    }
  }

  lemma {:induction false} MessageStepInv(s: System, e: Step)
    requires Inv(s) && Enabled(s, e)
    requires e.EnterAdd? || e.ResumeAdd? || e.EnterRemove? || e.ResumeRemove?
    ensures Inv(Next(s, e))
  {
    hide Inv;
    var t := e.t;
    var pc, x, flushed := s.threads[t].pc, BoxOf(s, t), s.boxes[s.threads[t].b].log.flushed;
    UserAwake(s, t);
    match e
    case EnterAdd(_, sig) =>
      AddEnterSound(x, t, pc.m, pc.block, pc.head, sig, flushed);
      AddInv(s, t, pc.m, pc.head, AddEnter(x, t, pc.m, pc.block, pc.head, sig));
    case ResumeAdd(_, sig) =>
      AddWaitSound(x, t, pc.m, pc.head, sig, flushed);
      AddInv(s, t, pc.m, pc.head, AddWait(x, t, pc.m, pc.head, sig));
    case EnterRemove(_, sig) =>
      RemoveEnterSound(x, t, pc.block, sig, flushed);
      RemoveInv(s, t, RemoveEnter(x, t, pc.block, sig));
    case ResumeRemove(_, sig) =>
      RemoveWaitSound(x, t, sig, flushed);
      RemoveInv(s, t, RemoveWait(x, t, sig));
  }

  /** Steps of a claiming task that leave the shared fields of the mailbox alone. */
  lemma {:induction false} PlainStepInv(s: System, e: Step)
    requires Inv(s) && Enabled(s, e) && (e.Create? || e.CopyOut? || e.ReadCount?)
    ensures Inv(Next(s, e))
  {
    hide BoxOk;
    UserAwake(s, e.t);
    ReadOnlyOk(s, Next(s, e), e.t);
    MoveInv(s, Next(s, e), e.t, s.threads[e.t].b);
  }

  lemma InvAt(s: System, b: BoxId)
    requires Inv(s) && b < |s.boxes|
    ensures BoxOk(s.threads, s.boxes[b], b, Linked(s, b))
  {
  }

  lemma {:induction false} HaltStepInv(s: System, t: Tid)
    requires Inv(s) && Enabled(s, HaltBox(t))
    ensures Inv(DoHalt(s, t))
  {
    hide Inv;
    hide BoxOk;
    hide Sound;
    hide WakeOne;
    var s', b := DoHalt(s, t), s.threads[t].b;
    UserAwake(s, t);
    InvAt(s, b);
    HaltSound(BoxOf(s, t), s.boxes[b].log.flushed, STOPPED);
    UserMove(s.threads, t, s'.threads[t], s.boxes[b], s'.boxes[b], b, Linked(s, b));
    MoveInv(s, s', t, b);
  }

  lemma ReadOnlyOk(s: System, s': System, t: Tid)
    requires Inv(s) && UserAt(s, t) && Awake(s, t) && |s'.boxes| == |s.boxes| && |s'.threads| == |s.threads|
    requires s'.boxes[s.threads[t].b].box == BoxOf(s, t)
    requires s'.boxes[s.threads[t].b].log.flushed == s.boxes[s.threads[t].b].log.flushed
    requires s'.boxes[s.threads[t].b].log.freed == s.boxes[s.threads[t].b].log.freed
    requires s'.threads == s.threads[t := s'.threads[t]]
    requires s'.threads[t].User? && s'.threads[t].b == s.threads[t].b
    requires !Waits(s.threads[t], s.threads[t].b) && !Waits(s'.threads[t], s.threads[t].b)
    ensures BoxOk(s'.threads, s'.boxes[s.threads[t].b], s.threads[t].b, Linked(s, s.threads[t].b))
  {
    var b := s.threads[t].b;
    UserMove(s.threads, t, s'.threads[t], s.boxes[b], s'.boxes[b], b, Linked(s, b));
  }

  /** Deletion threads rely on nothing about the queue. */
  lemma DeletersKeep(ts: seq<Thread>, slot: Slot, slot': Slot, b: BoxId, linked: bool)
    requires DeletersOk(ts, slot, b, linked)
    requires slot'.log == slot.log && slot'.box.owner == slot.box.owner && slot'.box.derefs == slot.box.derefs
    requires slot.box.stopped != 0 ==> slot'.box.stopped != 0
    ensures DeletersOk(ts, slot', b, linked)
  {
  }

  lemma InterruptOk(ts: seq<Thread>, slot: Slot, b: BoxId, i: nat, linked: bool)
    requires BoxOk(ts, slot, b, linked) && i < |slot.box.queue| && slot.box.queue[i].exclusive
    ensures BoxOk(ts, slot.(box := slot.box.(queue := Drop(slot.box.queue, i))), b, linked)
  {
    var q, r := slot.box.queue, Drop(slot.box.queue, i);
    InterruptSound(slot.box, i, slot.log.flushed);
    assert forall j :: 0 <= j < |r| ==> r[j] == if j < i then q[j] else q[j + 1];
    DeletersKeep(ts, slot, slot.(box := slot.box.(queue := r)), b, linked);
  }

  /** A signal takes a sleeper off the queue. */
  lemma {:induction false} InterruptInv(s: System, b: BoxId, i: nat)
    requires Inv(s) && Enabled(s, Interrupt(b, i))
    ensures Inv(Next(s, Interrupt(b, i)))
  {
    hide BoxOk;
    var s' := Next(s, Interrupt(b, i));
    InterruptOk(s.threads, s.boxes[b], b, i, Linked(s, b));
    forall c | 0 <= c < |s'.boxes| ensures BoxOk(s'.threads, s'.boxes[c], c, Linked(s', c)) {
      if c != b { assert BoxOk(s.threads, s.boxes[c], c, Linked(s, c)); }
    }
  }

  // ---------------------------------------------------------------- exit and deletion

  /** A stop keeps what deletion threads rely on. */
  lemma HaltOk(ts: seq<Thread>, slot: Slot, b: BoxId, linked: bool, status: int)
    requires BoxOk(ts, slot, b, linked) && (status == STOPPED || status == EXITING_AND_STOPPED)
    ensures BoxOk(ts, slot.(box := Halt(slot.box, status)), b, linked)
  {
    var x := slot.box;
    HaltSound(x, slot.log.flushed, status);
    DeletersKeep(ts, slot, slot.(box := Halt(x, status)), b, linked);
  }

  lemma SpawnOk(ts: seq<Thread>, slot: Slot, b: BoxId, linked: bool)
    requires BoxOk(ts, slot, b, linked) && slot.box.stopped != 0
    ensures BoxOk(ts + [Deleter(b, Start)], slot, b, linked)
  {
    var th := Deleter(b, Start);
    SumAppend(ts, th, ClaimsOn(b));
    SumAppend(ts, th, WaitsOn(b));
    SumAppend(ts, th, DeletesOf(b));
    var us := ts + [th];
    if slot.log.freed {
      var u :| 0 <= u < |ts| && ts[u] == Deleter(b, Gone);
      assert us[u] == Deleter(b, Gone);
    }
  }

  lemma ExitBoxOk(ts: seq<Thread>, slot: Slot, b: BoxId)
    requires BoxOk(ts, slot, b, true)
    ensures BoxOk(ts + [Deleter(b, Start)], slot.(box := Halt(slot.box, EXITING_AND_STOPPED)), b, true)
  {
    HaltOk(ts, slot, b, true, EXITING_AND_STOPPED);
    SpawnOk(ts, slot.(box := Halt(slot.box, EXITING_AND_STOPPED)), b, true);
  }

  /** A new deletion thread of b, and a change to b it can live with. */
  lemma SpawnInv(s: System, b: BoxId, slot': Slot)
    requires Inv(s) && b < |s.boxes|
    requires slot'.box.owner == s.boxes[b].box.owner
    requires BoxOk(s.threads + [Deleter(b, Start)], slot', b, Linked(s, b))
    ensures Inv(s.(boxes := s.boxes[b := slot'], threads := s.threads + [Deleter(b, Start)]))
  {
    hide BoxOk;
    var s' := s.(boxes := s.boxes[b := slot'], threads := s.threads + [Deleter(b, Start)]);
    forall c | 0 <= c < |s.boxes|
      ensures s'.boxes[c].box.owner == s.boxes[c].box.owner && Linked(s', c) == Linked(s, c)
    {}
    forall c | 0 <= c < |s'.boxes| ensures BoxOk(s'.threads, s'.boxes[c], c, Linked(s', c)) {
      if c != b {
        FrameAppend(s.threads, Deleter(b, Start), s.boxes[c], c, Linked(s, c));
      }
    }
  }

  lemma {:induction false} ExitHookInv(s: System, t: Tid, pid: int)
    requires Inv(s) && Enabled(s, ExitHook(t, pid))
    ensures Inv(DoExitHook(s, t, pid))
  {
    if pid !in s.table {
      QuietInv(s, DoExitHook(s, t, pid), t);
    } else {
      var s1 := s.(threads := s.threads[t := Idle(0)]);
      QuietInv(s, s1, t);
      var b := s.table[pid];
      assert BoxOk(s1.threads, s1.boxes[b], b, Linked(s1, b));
      ExitBoxOk(s1.threads, s.boxes[b], b);
      SpawnInv(s1, b, s.boxes[b].(box := Halt(s.boxes[b].box, EXITING_AND_STOPPED)));
    }
  }

  lemma DeleterAwake(s: System, t: Tid)
    requires Inv(s) && DeleterAt(s, t)
    ensures !s.threads[t].d.WaitWaiters? ==> !Queued(BoxOf(s, t).queue, t)
    ensures !s.threads[t].d.WaitClaims? ==> !Queued(BoxOf(s, t).derefQueue, t)
    ensures BoxOk(s.threads, s.boxes[s.threads[t].b], s.threads[t].b, Linked(s, s.threads[t].b))
    ensures DeleterOk(s.threads[t].d, s.boxes[s.threads[t].b], Linked(s, s.threads[t].b))
  {
  }

  lemma {:induction false} DeleteStartInv(s: System, t: Tid)
    requires Inv(s) && Enabled(s, DeleteStart(t))
    ensures Inv(Next(s, DeleteStart(t)))
  {
    var b := s.threads[t].b;
    var s' := Next(s, DeleteStart(t));
    DeleterAwake(s, t);
    DeleterMove(s.threads, t, s'.threads[t], s.boxes[b], s.boxes[b], b, Linked(s, b));
    MoveInv(s, s', t, b);
  }

  lemma {:induction false} DeleteStopInv(s: System, t: Tid)
    requires Inv(s) && Enabled(s, DeleteStop(t))
    ensures Inv(DoDeleteStop(s, t))
  {
    var b := s.threads[t].b;
    var s' := DoDeleteStop(s, t);
    DeleterAwake(s, t);
    HaltSound(s.boxes[b].box, s.boxes[b].log.flushed, EXITING_AND_STOPPED);
    DeleterMove(s.threads, t, s'.threads[t], s.boxes[b], s'.boxes[b], b, Linked(s, b));
    MoveInv(s, s', t, b);
  }

  lemma {:induction false} DeleteFlushInv(s: System, t: Tid)
    requires Inv(s) && Enabled(s, DeleteFlush(t))
    ensures Inv(DoDeleteFlush(s, t))
  {
    var b := s.threads[t].b;
    var s' := DoDeleteFlush(s, t);
    DeleterAwake(s, t);
    DestroySound(s.boxes[b].box, t, s.boxes[b].log.flushed);
    DeleterMove(s.threads, t, s'.threads[t], s.boxes[b], s'.boxes[b], b, Linked(s, b));
    MoveInv(s, s', t, b);
  }

  lemma {:induction false} DeleteAwaitInv(s: System, t: Tid)
    requires Inv(s) && Enabled(s, DeleteAwait(t))
    ensures Inv(DoDeleteAwait(s, t))
  {
    var b := s.threads[t].b;
    var s' := DoDeleteAwait(s, t);
    DeleterAwake(s, t);
    DeleterMove(s.threads, t, s'.threads[t], s.boxes[b], s'.boxes[b], b, Linked(s, b));
    MoveInv(s, s', t, b);
  }

  lemma {:induction false} DeleteFreeInv(s: System, t: Tid)
    requires Inv(s) && Enabled(s, DeleteFree(t))
    ensures Inv(DoDeleteFree(s, t))
  {
    var b := s.threads[t].b;
    var s' := DoDeleteFree(s, t);
    DeleterAwake(s, t);
    DeleterMove(s.threads, t, s'.threads[t], s.boxes[b], s'.boxes[b], b, Linked(s, b));
    MoveInv(s, s', t, b);
  }

  /** Being taken out of the table costs a mailbox nothing. */
  lemma UnlinkOk(ts: seq<Thread>, slot: Slot, b: BoxId, linked: bool)
    requires BoxOk(ts, slot, b, linked)
    ensures BoxOk(ts, slot, b, false)
  {
  }

  lemma {:induction false} DeleteUnlinkInv(s: System, t: Tid)
    requires Inv(s) && Enabled(s, DeleteUnlink(t))
    ensures Inv(DoDeleteUnlink(s, t))
  {
    var s' := DoDeleteUnlink(s, t);
    var b, th := s.threads[t].b, s'.threads[t];
    DeleterAwake(s, t);
    forall c | 0 <= c < |s'.boxes| ensures BoxOk(s'.threads, s'.boxes[c], c, Linked(s', c)) {
      var slot := s.boxes[c];
      assert BoxOk(s.threads, slot, c, Linked(s, c));
      assert Linked(s', c) ==> Linked(s, c);
      if !Linked(s', c) { UnlinkOk(s.threads, slot, c, Linked(s, c)); }
      if c == b {
        DeleterMove(s.threads, t, th, slot, slot, b, false);
      } else {
        FrameMove(s.threads, t, th, slot, c, Linked(s', c));
      }
    }
  }

  // ---------------------------------------------------------------- all steps, all runs

  lemma ForkInv(s: System)
    requires Inv(s)
    ensures Inv(s.(threads := s.threads + [Idle(0)]))
  {
    var s' := s.(threads := s.threads + [Idle(0)]);
    forall c | 0 <= c < |s'.boxes| ensures BoxOk(s'.threads, s'.boxes[c], c, Linked(s', c)) {
      FrameAppend(s.threads, Idle(0), s.boxes[c], c, Linked(s, c));
    }
  }

  lemma {:induction false} StepInv(s: System, e: Step)
    requires Inv(s) && Enabled(s, e)
    ensures Inv(Next(s, e))
  {
    hide Inv;
    match e
    case Fork => ForkInv(s);
    case Lookup(t, pid, call, valid, granted) => LookupInv(s, t, pid, call, valid, granted);
    case Create(_, _, _, _) => PlainStepInv(s, e);
    case EnterAdd(_, _) => MessageStepInv(s, e);
    case ResumeAdd(_, _) => MessageStepInv(s, e);
    case EnterRemove(_, _) => MessageStepInv(s, e);
    case ResumeRemove(_, _) => MessageStepInv(s, e);
    case Interrupt(b, i) => InterruptInv(s, b, i);
    case CopyOut(_, _) => PlainStepInv(s, e);
    case ReadCount(_, _) => PlainStepInv(s, e);
    case HaltBox(t) => HaltStepInv(s, t);
    case GiveUp(t) => GiveUpInv(s, t);
    case Release(t) => QuietInv(s, Next(s, e), t);
    case ExitHook(t, pid) => ExitHookInv(s, t, pid);
    case DeleteStart(t) => DeleteStartInv(s, t);
    case DeleteUnlink(t) => DeleteUnlinkInv(s, t);
    case DeleteStop(t) => DeleteStopInv(s, t);
    case DeleteFlush(t) => DeleteFlushInv(s, t);
    case DeleteAwait(t) => DeleteAwaitInv(s, t);
    case DeleteFree(t) => DeleteFreeInv(s, t);
  }

  lemma {:induction false} RunInv(s: System, run: seq<Step>)
    requires Inv(s) && Run(s, run)
    ensures Inv(After(s, run))
    decreases |run|
  {
    if run != [] {
      StepInv(s, run[0]);
      RunInv(Next(s, run[0]), run[1..]);
    }
  }

  lemma ReachableInv(s: System)
    requires Reachable(s)
    ensures Inv(s)
  {
    var init, run :| Initial(init) && Run(init, run) && After(init, run) == s;
    RunInv(init, run);
  }
}
