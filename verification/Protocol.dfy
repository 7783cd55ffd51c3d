/**
 The whole module as a transition system. Any number of tasks run system calls, process
 exits and deletions; one step is one critical section of one task (or one thing that
 happens between two of them). A step's label carries every choice the code does not
 make itself: whether a pid is valid, an allocation or a user copy succeeds, a signal is
 pending.

 A task inside a wait is asleep while it is on the queue of its mailbox, and woken once a
 waker or a signal has taken it off.
 */
module Protocol {
  import opened Codes
  import opened WaitQueues
  import opened MailboxSpec

  type BoxId = nat

  datatype Call = SendCall(block: bool) | ReceiveCall(block: bool) | ManageCall(stop: bool)

  /** Where a system call stands between claiming its mailbox and giving it up. */
  datatype UserPc =
    | Sending(block: bool)
    | Adding(m: MsgId, block: bool, head: bool)
    | Receiving(block: bool)
    | Holding(m: MsgId)
    | Managing(stop: bool)
    | Halting
    | WaitAdd(m: MsgId, head: bool)
    | WaitRemove
    | Leaving(code: int)
    | Delivered(m: MsgId)
    | Undefined

  /** Where a deletion thread stands. */
  datatype DeletePc =
    | Start
    | Polling(pid: int)
    | Unlinked
    | Stopped
    | WaitWaiters
    | Flushed
    | WaitClaims
    | Unclaimed
    | Gone

  datatype Thread =
    | Idle(code: int)
    | Freeing(m: MsgId)
    | User(b: BoxId, pc: UserPc)
    | Deleter(b: BoxId, d: DeletePc)

  /** What happened to a mailbox: was its list flushed, was it freed; which messages were
      accepted at the tail (less those whose put-back was refused), taken off and not put
      back, copied out to the user, and flushed, each in order. */
  datatype Log = Log(
    flushed: bool,
    freed: bool,
    sent: seq<MsgId>,
    taken: seq<MsgId>,
    delivered: seq<MsgId>,
    drained: seq<MsgId>)

  datatype Slot = Slot(box: Box, log: Log)

  /** The message cache: allocations so far, what is still held, and why the rest is
      not. `refused` are the messages whose add returned an error. */
  datatype Ledger = Ledger(
    next: MsgId,
    live: set<MsgId>,
    copyFailed: set<MsgId>,
    delivered: set<MsgId>,
    flushed: set<MsgId>,
    refused: set<MsgId>)

  datatype System = System(
    boxes: seq<Slot>,
    table: map<int, BoxId>,
    threads: seq<Thread>,
    ledger: Ledger)

  datatype Step =
    | Fork
    | Lookup(t: Tid, pid: int, call: Call, valid: bool, granted: bool)
    | Create(t: Tid, len: int, granted: bool, copied: bool)
    | EnterAdd(t: Tid, sig: bool)
    | ResumeAdd(t: Tid, sig: bool)
    | EnterRemove(t: Tid, sig: bool)
    | ResumeRemove(t: Tid, sig: bool)
    | Interrupt(b: BoxId, i: nat)
    | CopyOut(t: Tid, copied: bool)
    | ReadCount(t: Tid, copied: bool)
    | HaltBox(t: Tid)
    | GiveUp(t: Tid)
    | Release(t: Tid)
    | ExitHook(t: Tid, pid: int)
    | DeleteStart(t: Tid)
    | DeleteUnlink(t: Tid)
    | DeleteStop(t: Tid)
    | DeleteFlush(t: Tid)
    | DeleteAwait(t: Tid)
    | DeleteFree(t: Tid)

  const EMPTY_LOG := Log(false, false, [], [], [], [])

  /** Module load: an empty table, and any number of tasks outside the module. */
  predicate Initial(s: System) {
    && s.boxes == [] && s.table == map[]
    && (forall t :: 0 <= t < |s.threads| ==> s.threads[t].Idle?)
    && s.ledger == Ledger(0, {}, {}, {}, {}, {})
  }

  // ---------------------------------------------------------------- helpers

  predicate UserAt(s: System, t: Tid) {
    t < |s.threads| && s.threads[t].User? && s.threads[t].b < |s.boxes|
  }

  predicate DeleterAt(s: System, t: Tid) {
    t < |s.threads| && s.threads[t].Deleter? && s.threads[t].b < |s.boxes|
  }

  function BoxOf(s: System, t: Tid): Box
    requires UserAt(s, t) || DeleterAt(s, t)
  {
    s.boxes[s.threads[t].b].box
  }

  /** The task is inside its wait and off the queue: it may run again. */
  predicate Awake(s: System, t: Tid)
    requires UserAt(s, t) || DeleterAt(s, t)
  {
    !Queued(BoxOf(s, t).queue, t)
  }

  /** Task t moves to th; its mailbox becomes (x, log). */
  function Move(s: System, t: Tid, th: Thread, x: Box, log: Log): System
    requires UserAt(s, t) || DeleterAt(s, t)
  {
    s.(threads := s.threads[t := th], boxes := s.boxes[s.threads[t].b := Slot(x, log)])
  }

  function Without(q: seq<MsgId>, m: MsgId): seq<MsgId> {
    if q == [] then [] else if q[0] == m then Without(q[1..], m) else [q[0]] + Without(q[1..], m)
  }

  // ---------------------------------------------------------------- system calls

  /** The first state of a call that got its mailbox. */
  function Begin(call: Call): UserPc {
    match call
    case SendCall(block) => Sending(block)
    case ReceiveCall(block) => Receiving(block)
    case ManageCall(stop) => Managing(stop)
  }

  /** get_mailbox_for_pid: one section under the table lock, after the validity check. */
  function DoLookup(s: System, t: Tid, pid: int, call: Call, valid: bool, granted: bool): System
    requires t < |s.threads| && s.threads[t].Idle?
    requires pid in s.table ==> s.table[pid] < |s.boxes|
  {
    if !valid then s.(threads := s.threads[t := Idle(MAILBOX_INVALID)])
    else if pid !in s.table then
      if !granted then s.(threads := s.threads[t := Idle(MAILBOX_ERROR)])
      else
        var b := |s.boxes|;
        s.(boxes := s.boxes + [Slot(MailboxSpec.Claim(Created(pid)), EMPTY_LOG)],
           table := s.table[pid := b],
           threads := s.threads[t := User(b, Begin(call))])
    else
      var b := s.table[pid];
      var claimed := MailboxSpec.Claim(s.boxes[b].box);
      if HasExiting(claimed.stopped) then
        s.(boxes := s.boxes[b := s.boxes[b].(box := Unclaim(claimed))],
           threads := s.threads[t := Idle(MAILBOX_INVALID)])
      else
        s.(boxes := s.boxes[b := s.boxes[b].(box := claimed)],
           threads := s.threads[t := User(b, Begin(call))])
  }

  /** message_create, called by send */
  function DoCreate(s: System, t: Tid, len: int, granted: bool, copied: bool): System
    requires UserAt(s, t) && s.threads[t].pc.Sending?
  {
    var th := s.threads[t];
    var l := s.ledger;
    if len > MAX_MSG_SIZE || len < 0 then
      s.(threads := s.threads[t := User(th.b, Leaving(MSG_LENGTH_ERROR))])
    else if !granted then
      s.(threads := s.threads[t := User(th.b, Leaving(MAILBOX_ERROR))])
    else if !copied then
      s.(threads := s.threads[t := User(th.b, Leaving(MSG_ARG_ERROR))],
         ledger := l.(next := l.next + 1, copyFailed := l.copyFailed + {l.next}))
    else
      s.(threads := s.threads[t := User(th.b, Adding(l.next, th.pc.block, false))],
         ledger := l.(next := l.next + 1, live := l.live + {l.next}))
  }

  /** The caller's state and books after mailbox_add_message slept or returned. The code of
      a put-back is dropped by the receive that made it. */
  function AfterAdd(s: System, t: Tid, m: MsgId, head: bool, r: (Box, Verdict)): System
    requires UserAt(s, t)
  {
    var b := s.threads[t].b;
    var log := s.boxes[b].log;
    match r.1
    case Slept => Move(s, t, User(b, WaitAdd(m, head)), r.0, log)
    case Done(code) =>
      var pc := Leaving(if head then MSG_ARG_ERROR else code);
      if code != 0 then
        Move(s, t, User(b, pc), r.0,
             if head then log.(sent := Without(log.sent, m), taken := Without(log.taken, m)) else log)
        .(ledger := s.ledger.(refused := s.ledger.refused + {m}))
      else
        Move(s, t, User(b, pc), r.0,
             if head then log.(taken := Without(log.taken, m)) else log.(sent := log.sent + [m]))
    case _ => s
  }

  /** The caller's state and books after mailbox_remove_message slept or returned. */
  function AfterRemove(s: System, t: Tid, r: (Box, Verdict)): System
    requires UserAt(s, t)
  {
    var b := s.threads[t].b;
    var log := s.boxes[b].log;
    match r.1
    case Slept => Move(s, t, User(b, WaitRemove), r.0, log)
    case Done(code) => Move(s, t, User(b, Leaving(code)), r.0, log)
    case Took(m) => Move(s, t, User(b, Holding(m)), r.0, log.(taken := log.taken + [m]))
    case Phantom => Move(s, t, User(b, Undefined), r.0, log)
  }

  /** copy_to_user in receive: on failure the message goes back to the head, blocking. */
  function DoCopyOut(s: System, t: Tid, copied: bool): System
    requires UserAt(s, t) && s.threads[t].pc.Holding?
  {
    var b, m, slot := s.threads[t].b, s.threads[t].pc.m, s.boxes[s.threads[t].b];
    if copied then Move(s, t, User(b, Delivered(m)), slot.box, slot.log.(delivered := slot.log.delivered + [m]))
    else Move(s, t, User(b, Adding(m, true, true)), slot.box, slot.log)
  }

  /** __manage_mailbox up to the stop */
  function DoReadCount(s: System, t: Tid, copied: bool): System
    requires UserAt(s, t) && s.threads[t].pc.Managing?
  {
    var th := s.threads[t];
    var pc := if !copied then Leaving(MSG_ARG_ERROR) else if th.pc.stop then Halting else Leaving(0);
    s.(threads := s.threads[t := User(th.b, pc)])
  }

  function DoHalt(s: System, t: Tid): System
    requires UserAt(s, t)
  {
    Move(s, t, User(s.threads[t].b, Leaving(0)), Halt(BoxOf(s, t), STOPPED), s.boxes[s.threads[t].b].log)
  }

  /** unclaim_mailbox at the end of a call; a delivered message is freed after it. */
  function DoGiveUp(s: System, t: Tid): System
    requires UserAt(s, t) && (s.threads[t].pc.Leaving? || s.threads[t].pc.Delivered?)
  {
    var pc := s.threads[t].pc;
    Move(s, t, if pc.Leaving? then Idle(pc.code) else Freeing(pc.m),
         Unclaim(BoxOf(s, t)), s.boxes[s.threads[t].b].log)
  }

  /** message_destroy in receive */
  function DoRelease(s: System, t: Tid): System
    requires t < |s.threads| && s.threads[t].Freeing?
  {
    var m, l := s.threads[t].m, s.ledger;
    s.(threads := s.threads[t := Idle(0)],
       ledger := l.(live := l.live - {m}, delivered := l.delivered + {m}))
  }

  // ---------------------------------------------------------------- exit and deletion

  /** The exit hooks: remove_mailbox_for_pid, which stops the mailbox under the table lock
      and starts a deletion thread for it. */
  function DoExitHook(s: System, t: Tid, pid: int): System
    requires t < |s.threads| && s.threads[t].Idle?
    requires pid in s.table ==> s.table[pid] < |s.boxes|
  {
    if pid !in s.table then s.(threads := s.threads[t := Idle(MAILBOX_INVALID)])
    else
      var b := s.table[pid];
      s.(boxes := s.boxes[b := s.boxes[b].(box := Halt(s.boxes[b].box, EXITING_AND_STOPPED))],
         threads := s.threads[t := Idle(0)] + [Deleter(b, Start)])
  }

  /** The deletion thread takes its pid out of the table. */
  function DoDeleteUnlink(s: System, t: Tid): System
    requires DeleterAt(s, t) && s.threads[t].d.Polling?
  {
    s.(table := s.table - {s.threads[t].d.pid},
       threads := s.threads[t := Deleter(s.threads[t].b, Unlinked)])
  }

  function DoDeleteStop(s: System, t: Tid): System
    requires DeleterAt(s, t)
  {
    var b := s.threads[t].b;
    Move(s, t, Deleter(b, Stopped), Halt(s.boxes[b].box, EXITING_AND_STOPPED), s.boxes[b].log)
  }

  /** The deletion thread holds the mailbox lock: it flushes, or sleeps until no task waits. */
  function DoDeleteFlush(s: System, t: Tid): System
    requires DeleterAt(s, t)
  {
    var b, x, log, l := s.threads[t].b, BoxOf(s, t), s.boxes[s.threads[t].b].log, s.ledger;
    var r := Destroy(x, t);
    if r.1 then
      var all := set m | m in x.messages;
      Move(s, t, Deleter(b, Flushed), r.0, log.(flushed := true, drained := log.drained + x.messages))
      .(ledger := l.(live := l.live - all, flushed := l.flushed + all))
    else Move(s, t, Deleter(b, WaitWaiters), r.0, log)
  }

  /** The deletion thread holds the claim lock: it goes on, or sleeps until nobody claims. */
  function DoDeleteAwait(s: System, t: Tid): System
    requires DeleterAt(s, t)
  {
    var b := s.threads[t].b;
    var r := AwaitUnclaimed(BoxOf(s, t), t);
    Move(s, t, Deleter(b, if r.1 then Unclaimed else WaitClaims), r.0, s.boxes[b].log)
  }

  function DoDeleteFree(s: System, t: Tid): System
    requires DeleterAt(s, t)
  {
    var b := s.threads[t].b;
    Move(s, t, Deleter(b, Gone), s.boxes[b].box, s.boxes[b].log.(freed := true))
  }

  // ---------------------------------------------------------------- steps and runs

  predicate TableOk(s: System, pid: int) {
    pid in s.table ==> s.table[pid] < |s.boxes|
  }

  predicate Enabled(s: System, e: Step) {
    match e
    case Fork => true
    case Lookup(t, pid, _, _, _) => t < |s.threads| && s.threads[t].Idle? && TableOk(s, pid)
    case Create(t, _, _, _) => UserAt(s, t) && s.threads[t].pc.Sending?
    case EnterAdd(t, _) => UserAt(s, t) && s.threads[t].pc.Adding?
    case ResumeAdd(t, _) => UserAt(s, t) && s.threads[t].pc.WaitAdd? && Awake(s, t)
    case EnterRemove(t, _) => UserAt(s, t) && s.threads[t].pc.Receiving?
    case ResumeRemove(t, _) => UserAt(s, t) && s.threads[t].pc.WaitRemove? && Awake(s, t)
    case Interrupt(b, i) => b < |s.boxes| && i < |s.boxes[b].box.queue| && s.boxes[b].box.queue[i].exclusive
    case CopyOut(t, _) => UserAt(s, t) && s.threads[t].pc.Holding?
    case ReadCount(t, _) => UserAt(s, t) && s.threads[t].pc.Managing?
    case HaltBox(t) => UserAt(s, t) && s.threads[t].pc.Halting?
    case GiveUp(t) => UserAt(s, t) && (s.threads[t].pc.Leaving? || s.threads[t].pc.Delivered?)
    case Release(t) => t < |s.threads| && s.threads[t].Freeing?
    case ExitHook(t, pid) => t < |s.threads| && s.threads[t].Idle? && TableOk(s, pid)
    case DeleteStart(t) => DeleterAt(s, t) && s.threads[t].d.Start?
    case DeleteUnlink(t) => DeleterAt(s, t) && s.threads[t].d.Polling?
    case DeleteStop(t) => DeleterAt(s, t) && s.threads[t].d.Unlinked?
    case DeleteFlush(t) => DeleterAt(s, t) && (s.threads[t].d.Stopped? || (s.threads[t].d.WaitWaiters? && Awake(s, t)))
    case DeleteAwait(t) =>
      DeleterAt(s, t) &&
      (s.threads[t].d.Flushed? || (s.threads[t].d.WaitClaims? && !Queued(BoxOf(s, t).derefQueue, t)))
    case DeleteFree(t) => DeleterAt(s, t) && s.threads[t].d.Unclaimed?
  }

  function Next(s: System, e: Step): System
    requires Enabled(s, e)
  {
    match e
    case Fork => s.(threads := s.threads + [Idle(0)])
    case Lookup(t, pid, call, valid, granted) => DoLookup(s, t, pid, call, valid, granted)
    case Create(t, len, granted, copied) => DoCreate(s, t, len, granted, copied)
    case EnterAdd(t, sig) =>
      var pc := s.threads[t].pc;
      AfterAdd(s, t, pc.m, pc.head, AddEnter(BoxOf(s, t), t, pc.m, pc.block, pc.head, sig))
    case ResumeAdd(t, sig) =>
      var pc := s.threads[t].pc;
      AfterAdd(s, t, pc.m, pc.head, AddWait(BoxOf(s, t), t, pc.m, pc.head, sig))
    case EnterRemove(t, sig) => AfterRemove(s, t, RemoveEnter(BoxOf(s, t), t, s.threads[t].pc.block, sig))
    case ResumeRemove(t, sig) => AfterRemove(s, t, RemoveWait(BoxOf(s, t), t, sig))
    case Interrupt(b, i) =>
      var x := s.boxes[b].box;
      s.(boxes := s.boxes[b := s.boxes[b].(box := x.(queue := Drop(x.queue, i)))])
    case CopyOut(t, copied) => DoCopyOut(s, t, copied)
    case ReadCount(t, copied) => DoReadCount(s, t, copied)
    case HaltBox(t) => DoHalt(s, t)
    case GiveUp(t) => DoGiveUp(s, t)
    case Release(t) => DoRelease(s, t)
    case ExitHook(t, pid) => DoExitHook(s, t, pid)
    case DeleteStart(t) =>
      s.(threads := s.threads[t := Deleter(s.threads[t].b, Polling(BoxOf(s, t).owner))])
    case DeleteUnlink(t) => DoDeleteUnlink(s, t)
    case DeleteStop(t) => DoDeleteStop(s, t)
    case DeleteFlush(t) => DoDeleteFlush(s, t)
    case DeleteAwait(t) => DoDeleteAwait(s, t)
    case DeleteFree(t) => DoDeleteFree(s, t)
  }

  /** run takes s to its last state, one enabled step after another. */
  ghost predicate Run(s: System, run: seq<Step>)
    decreases |run|
  {
    run == [] || (Enabled(s, run[0]) && Run(Next(s, run[0]), run[1..]))
  }

  ghost function After(s: System, run: seq<Step>): System
    requires Run(s, run)
    decreases |run|
  {
    if run == [] then s else After(Next(s, run[0]), run[1..])
  }

  lemma RunCons(s: System, e: Step, rest: seq<Step>)
    requires Enabled(s, e) && Run(Next(s, e), rest)
    ensures Run(s, [e] + rest) && After(s, [e] + rest) == After(Next(s, e), rest)
  {
    assert ([e] + rest)[1..] == rest;
  }

  lemma {:induction false} RunSnoc(s: System, run: seq<Step>, e: Step)
    requires Run(s, run) && Enabled(After(s, run), e)
    ensures Run(s, run + [e]) && After(s, run + [e]) == Next(After(s, run), e)
    decreases |run|
  {
    hide Enabled;
    hide Next;
    if run == [] {
      assert run + [e] == [e];
      assert [e][1..] == [];
    } else {
      RunSnoc(Next(s, run[0]), run[1..], e);
      assert (run + [e])[0] == run[0] && (run + [e])[1..] == run[1..] + [e];
    }
  }

  ghost predicate Reachable(s: System) {
    exists init, run :: Initial(init) && Run(init, run) && After(init, run) == s
  }

  lemma ReachableStep(s: System, e: Step)
    requires Reachable(s) && Enabled(s, e)
    ensures Reachable(Next(s, e))
  {
    hide Enabled;
    hide Next;
    var init, run :| Initial(init) && Run(init, run) && After(init, run) == s;
    RunSnoc(init, run, e);
  }

  lemma ReachableStart(s: System)
    requires Initial(s)
    ensures Reachable(s)
  {
    assert Run(s, []) && After(s, []) == s;
  }
}
