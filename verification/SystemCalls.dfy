/**
 The three system calls and the exit hooks as the code runs them: sections in order, early
 returns, and between any two sections whatever the other tasks do. `world` says what that
 is; if it runs out while the call sleeps, the call is still asleep.

 The kernel keeps its history. What a call did is stated by position in that history: at
 which of its own moments, after it was called and before it returned, which FIFO did what.
 */
module SystemCalls {
  import opened Codes
  import opened WaitQueues
  import opened MailboxSpec
  import opened Sections
  import opened Protocol
  import opened Tallies
  import opened Invariant
  import opened InvariantSteps
  import opened StepFacts
  import opened BoundedFifo
  import opened Refinement
  import opened Histories
  import opened HandOffs

  /** How a call ended, if it did. A receive runs wild if it takes a message that is not there. */
  datatype Ending = Code(code: int) | StillAsleep | Wild

  /** Outcomes the module does not decide. */
  datatype Luck = Luck(validPid: bool, boxGranted: bool, messageGranted: bool, copied: bool, signals: seq<bool>)

  // ---------------------------------------------------------------- what decides the early returns

  /** The process of pid is on its way out: its mailbox is in the table and marked. */
  predicate IsExiting(s: System, pid: int) {
    && pid in s.table && s.table[pid] < |s.boxes|
    && s.boxes[s.table[pid]].box.stopped == EXITING_AND_STOPPED
  }

  /** The mailbox a successful lookup of pid claims: the one in the table, or a new one. */
  function TargetOf(s: System, pid: int): BoxId {
    if pid in s.table then s.table[pid] else |s.boxes|
  }

  function LookupStep(t: Tid, pid: int, call: Call, luck: Luck): Step {
    Lookup(t, pid, call, luck.validPid, luck.boxGranted)
  }

  function SignalAt(signals: seq<bool>, i: nat): bool {
    i < |signals| && signals[i]
  }

  function WorldAt(world: seq<seq<Step>>, i: nat): seq<Step> {
    if i < |world| then world[i] else []
  }

  predicate Outside(s: System, t: Tid) { t < |s.threads| && s.threads[t].Idle? }

  /** Task t is inside a call on mailbox b. */
  predicate InCall(s: System, t: Tid, b: BoxId) { UserAt(s, t) && s.threads[t].b == b }

  /** No mailbox of a is gone, unstopped, unflushed or unfreed in z. */
  ghost predicate Onward(a: System, z: System) {
    |a.boxes| <= |z.boxes| && forall b :: 0 <= b < |a.boxes| ==> MovesOn(a.boxes[b], z.boxes[b])
  }

  /** What the given steps of tasks other than t make of s; a step that is not possible is skipped. */
  ghost function Played(s: System, t: Tid, steps: seq<Step>): System
    decreases |steps|
  {
    if steps == [] then s
    else Played(if Enabled(s, steps[0]) && Actor(steps[0]) != t then Next(s, steps[0]) else s, t, steps[1..])
  }

  // ---------------------------------------------------------------- what the inner calls come to

  /** Task t begins a blocking add to a mailbox that is open and full. */
  predicate NoRoom(s: System, t: Tid) {
    && UserAt(s, t) && s.threads[t].pc.Adding? && s.threads[t].pc.block
    && BoxOf(s, t).stopped == 0 && BoxOf(s, t).count >= CAPACITY
  }

  /** Task t begins a blocking remove from a mailbox that is open and empty. */
  predicate NoMessage(s: System, t: Tid) {
    && UserAt(s, t) && s.threads[t].pc.Receiving? && s.threads[t].pc.block
    && BoxOf(s, t).stopped == 0 && BoxOf(s, t).count == 0
  }

  /** Task t is on the queue of the mailbox, exclusively and last, and counted as waiting. */
  predicate JoinsQueue(x: Box, y: Box, t: Tid) {
    y.queue == x.queue + [Waiter(t, true)] && y.waiting == x.waiting + 1
  }

  /** The section that ended an add, and the code its caller goes on to return. The code of a
      put-back is dropped. */
  ghost predicate AddedAt(mo: Moment, t: Tid, b: BoxId, pc: UserPc, code: int)
    requires pc.Adding?
  {
    if pc.head then code == MSG_ARG_ERROR && PutBackAt(mo, t, b, pc.m, pc.block)
    else HappenedAt(mo, t, b, Added(pc.m, false, pc.block, Signalled(mo.e), code))
  }

  /** A put-back of m ended, with whatever code. */
  ghost predicate PutBackAt(mo: Moment, t: Tid, b: BoxId, m: MsgId, block: bool) {
    exists c :: HappenedAt(mo, t, b, Added(m, true, block, Signalled(mo.e), c))
  }

  /** The section that ended a remove, by where it left its task. */
  ghost predicate RemovedAt(mo: Moment, t: Tid, b: BoxId, block: bool, pc: UserPc) {
    match pc
    case Leaving(code) => HappenedAt(mo, t, b, NotRemoved(block, Signalled(mo.e), code))
    case Holding(m) => HappenedAt(mo, t, b, Removed(m))
    case Undefined => WildAt(mo, t, b)
    case _ => false
  }

  /** Task t reads the count of its mailbox b; that is the length of the list unless b was flushed. */
  ghost predicate CountReadAt(mo: Moment, t: Tid, b: BoxId, count: int) {
    && mo.e.ReadCount? && mo.e.t == t && UserAt(mo.before, t) && mo.before.threads[t].b == b
    && count == mo.before.boxes[b].box.count && 0 <= count <= CAPACITY
    && (!mo.before.boxes[b].log.flushed ==> count == |Abs(mo.before, b).items|)
  }

  class Kernel {
    var s: System
    ghost var history: seq<Moment>

    ghost predicate Valid()
      reads this
    {
      History(history, s)
    }

    constructor (tasks: nat)
      ensures Valid() && history == [] && |s.threads| == tasks
      ensures forall t :: 0 <= t < tasks ==> s.threads[t].Idle?
    {
      s := System([], map[], seq(tasks, _ => Idle(0)), Ledger(0, {}, {}, {}, {}, {}));
      history := [];
      new;
      ReachableStart(s);
    }

    /** One section of this task, or one step of another. */
    method Take(e: Step)
      requires Valid() && Enabled(s, e)
      modifies this
      ensures Valid() && s == Next(old(s), e) && history == old(history) + [Moment(old(s), e)]
    {
      HistorySnoc(history, s, e);
      history := history + [Moment(s, e)];
      s := Next(s, e);
    }

    /** Other tasks run; a step that is not possible is skipped. */
    method Others(t: Tid, steps: seq<Step>)
      requires Valid() && t < |s.threads|
      modifies this
      ensures Valid() && t < |s.threads| && s.threads[t] == old(s.threads[t]) && s == Played(old(s), t, steps)
      ensures Onward(old(s), s)
      ensures old(history) <= history && QuietIn(history, |old(history)|, |history|, t)
    {
      hide Enabled;
      hide Next;
      hide History;
      hide Quiet;
      for i := 0 to |steps|
        invariant Valid() && t < |s.threads| && s.threads[t] == old(s.threads[t])
        invariant Played(s, t, steps[i..]) == Played(old(s), t, steps)
        invariant Onward(old(s), s)
        invariant old(history) <= history && QuietIn(history, |old(history)|, |history|, t)
      {
        assert steps[i..][0] == steps[i] && steps[i..][1..] == steps[i + 1..];
        if Enabled(s, steps[i]) && Actor(steps[i]) != t {
          StepFrame(s, steps[i]);
          QuietStep(s, steps[i], t);
          QuietMore(history, |old(history)|, Moment(s, steps[i]), t);
          Take(steps[i]);
        }
      }
    }

    /** A step of task t's own that no FIFO notices. */
    method TakeQuietly(t: Tid, e: Step, ghost from: nat)
      requires Valid() && Enabled(s, e) && Actor(e) == t
      requires e.Create? || e.CopyOut? || e.ReadCount? || e.GiveUp? || e.Release?
      requires QuietIn(history, from, |history|, t)
      modifies this
      ensures Valid() && s == Next(old(s), e) && history == old(history) + [Moment(old(s), e)]
      ensures QuietIn(history, from, |history|, t)
    {
      hide Next;
      hide History;
      hide Quiet;
      QuietStep(s, e, t);
      QuietMore(history, from, Moment(s, e), t);
      Take(e);
    }

    /** Other tasks run after a quiet stretch of task t. */
    method Meanwhile(t: Tid, steps: seq<Step>, ghost from: nat)
      requires Valid() && t < |s.threads| && QuietIn(history, from, |history|, t)
      modifies this
      ensures Valid() && t < |s.threads| && s.threads[t] == old(s.threads[t]) && s == Played(old(s), t, steps)
      ensures Onward(old(s), s)
      ensures old(history) <= history && QuietIn(history, from, |history|, t)
    {
      hide History;
      hide QuietIn;
      hide Played;
      Others(t, steps);
      QuietThen(old(history), history, from, t);
    }

    /** get_mailbox_for_pid: the mailbox of that very pid, claimed; or an error and no claim. It is
        INVALID exactly for a pid that is not valid or whose mailbox carries the exit mark, and
        ERROR exactly if a new mailbox was needed and there was no memory. A mailbox that is
        merely stopped is handed out. */
    method GetMailbox(t: Tid, pid: int, call: Call, luck: Luck) returns (error: int)
      requires Valid() && Outside(s, t)
      modifies this
      ensures Valid() && t < |s.threads|
      ensures history == old(history) + [Moment(old(s), LookupStep(t, pid, call, luck))]
      ensures error == MAILBOX_INVALID <==>
                !luck.validPid
                || (pid in old(s.table) && old(s.table[pid] < |s.boxes| && s.boxes[s.table[pid]].box.stopped == EXITING_AND_STOPPED))
      ensures error == MAILBOX_ERROR <==> luck.validPid && pid !in old(s.table) && !luck.boxGranted
      ensures error == 0 || error == MAILBOX_INVALID || error == MAILBOX_ERROR
      ensures error == 0 ==>
                && UserAt(s, t) && s.threads[t] == User(TargetOf(old(s), pid), Begin(call)) && BoxOf(s, t).owner == pid
                && s.table == old(s.table)[pid := s.threads[t].b]
                && (pid in old(s.table) ==> old(s.table[pid] < |s.boxes|))
                && BoxOf(s, t).derefs == 1 + old(if pid in s.table then s.boxes[s.table[pid]].box.derefs else 0)
      ensures error != 0 ==> s.threads[t] == Idle(error)
    {
      hide History;
      TableTrue(history, s, pid);
      ExitMark(history, s, pid);
      hide HasExiting;
      Take(LookupStep(t, pid, call, luck));
      error := if s.threads[t].Idle? then s.threads[t].code else 0;
    }

    /** Other tasks run, then unclaim_mailbox and return. */
    method Unclaim(t: Tid, steps: seq<Step>, ghost from: nat) returns (code: int)
      requires Valid() && UserAt(s, t) && s.threads[t].pc.Leaving? && QuietIn(history, from, |history|, t)
      modifies this
      ensures Valid() && t < |s.threads| && s.threads[t] == Idle(code) && code == old(s.threads[t].pc.code)
      ensures Onward(old(s), s)
      ensures old(history) <= history && QuietIn(history, from, |history|, t)
    {
      hide Played;
      hide History;
      hide QuietIn;
      hide Next;
      Meanwhile(t, steps, from);
      code := s.threads[t].pc.code;
      StepFrame(s, GiveUp(t));
      GiveUpEnds(s, t);
      TakeQuietly(t, GiveUp(t), from);
    }

    /** The first section of an add: it ends the call, or the task joins the queue. An open, full
        mailbox leaves a blocking add no choice but to join, unless a signal is pending. */
    method StartAdd(t: Tid, luck: Luck, ghost from: nat) returns (done: bool)
      requires Valid() && UserAt(s, t) && s.threads[t].pc.Adding? && QuietIn(history, from, |history|, t)
      modifies this
      ensures Valid() && InCall(s, t, old(s.threads[t].b)) && old(history) <= history && |history| == |old(history)| + 1
      ensures done ==>
                && s.threads[t].pc.Leaving? && OnlyAt(history, from, |old(history)|, t)
                && AddedAt(history[|old(history)|], t, old(s.threads[t].b), old(s.threads[t].pc), s.threads[t].pc.code)
                && (Signalled(history[|old(history)|].e) ==> true in luck.signals)
      ensures !done ==>
                && s.threads[t].pc == WaitAdd(old(s.threads[t].pc.m), old(s.threads[t].pc.head))
                && old(s.threads[t].pc.block) && QuietIn(history, from, |history|, t) && !Awake(s, t)
      ensures NoRoom(old(s), t) && !SignalAt(luck.signals, 0) ==> !done && JoinsQueue(old(BoxOf(s, t)), BoxOf(s, t), t)
    {
      hide Next;
      hide History;
      hide QuietIn;
      hide AddedAt;
      hide JoinsQueue;
      var e := EnterAdd(t, SignalAt(luck.signals, 0));
      ghost var before := history;
      HistoryLives(history, s);
      EnterAddEnds(s, e);
      AddAsleep(s, e);
      if NoRoom(s, t) && !e.sig { EnterAddWaits(s, e); }
      Take(e);
      done := s.threads[t].pc.Leaving?;
      if done { LastIsOnly(before, history, from, t); } else { QuietMore(before, from, Moment(old(s), e), t); }
    }

    /** The task sits in mailbox_add_message until it returns. */
    method FinishAdd(t: Tid, luck: Luck, world: seq<seq<Step>>, ghost from: nat) returns (done: bool, ghost at: nat)
      requires Valid() && UserAt(s, t) && s.threads[t].pc.Adding? && QuietIn(history, from, |history|, t)
      modifies this
      ensures Valid() && InCall(s, t, old(s.threads[t].b)) && old(history) <= history
      ensures done ==>
                && s.threads[t].pc.Leaving? && |old(history)| <= at && OnlyAt(history, from, at, t)
                && AddedAt(history[at], t, old(s.threads[t].b), old(s.threads[t].pc), s.threads[t].pc.code)
                && (Signalled(history[at].e) ==> true in luck.signals)
      ensures !done ==>
                && s.threads[t].pc == WaitAdd(old(s.threads[t].pc.m), old(s.threads[t].pc.head))
                && old(s.threads[t].pc.block) && QuietIn(history, from, |history|, t) && !Awake(s, t)
      ensures NoRoom(old(s), t) && !SignalAt(luck.signals, 0) ==>
                && (done ==> at > |old(history)|)
                && (world == [] ==> !done && JoinsQueue(old(BoxOf(s, t)), BoxOf(s, t), t))
    {
      hide Next;
      hide Played;
      hide History;
      hide QuietIn;
      hide AddedAt;
      hide JoinsQueue;
      hide Signalled;
      hide SignalAt;
      ghost var pc, b := s.threads[t].pc, s.threads[t].b;
      at := |history|;
      done := StartAdd(t, luck, from);
      if done || world == [] {
        return;
      }
      var i := 0;
      while !done && i < |world|
        invariant i <= |world| && Valid() && InCall(s, t, b) && old(history) <= history && |old(history)| < |history|
        invariant done ==>
                    && s.threads[t].pc.Leaving? && |old(history)| < at && OnlyAt(history, from, at, t)
                    && AddedAt(history[at], t, b, pc, s.threads[t].pc.code)
                    && (Signalled(history[at].e) ==> true in luck.signals)
        invariant !done ==>
                    && s.threads[t].pc == WaitAdd(pc.m, pc.head) && pc.block && QuietIn(history, from, |history|, t)
                    && !Awake(s, t)
      {
        Meanwhile(t, world[i], from);
        if Awake(s, t) {
          at := |history|;
          done := GoOnAdding(t, SignalAt(luck.signals, i + 1), pc, from);
          SignalSeen(history[at].e, luck.signals, i + 1);
        }
        i := i + 1;
      }
    }

    /** A woken add runs again: it ends the call, or the task sleeps again. */
    method GoOnAdding(t: Tid, sig: bool, ghost pc: UserPc, ghost from: nat) returns (done: bool)
      requires Valid() && UserAt(s, t) && Awake(s, t) && QuietIn(history, from, |history|, t)
      requires pc.Adding? && pc.block && s.threads[t].pc == WaitAdd(pc.m, pc.head)
      modifies this
      ensures Valid() && InCall(s, t, old(s.threads[t].b)) && old(history) <= history && |history| == |old(history)| + 1
      ensures history[|old(history)|].e == ResumeAdd(t, sig)
      ensures done ==>
                && s.threads[t].pc.Leaving? && OnlyAt(history, from, |old(history)|, t)
                && AddedAt(history[|old(history)|], t, old(s.threads[t].b), pc, s.threads[t].pc.code)
      ensures !done ==> s.threads[t].pc == WaitAdd(pc.m, pc.head) && QuietIn(history, from, |history|, t) && !Awake(s, t)
    {
      hide Next;
      hide History;
      hide QuietIn;
      hide AddedAt;
      var e := ResumeAdd(t, sig);
      ghost var before := history;
      HistoryLives(history, s);
      ResumeAddEnds(s, e, pc);
      AddAsleep(s, e);
      Take(e);
      done := s.threads[t].pc.Leaving?;
      if done { LastIsOnly(before, history, from, t); } else { QuietMore(before, from, Moment(old(s), e), t); }
    }

    /** message_create in a send */
    method MakeMessage(t: Tid, len: int, luck: Luck, ghost from: nat) returns (error: int)
      requires Valid() && UserAt(s, t) && s.threads[t].pc.Sending? && QuietIn(history, from, |history|, t)
      modifies this
      ensures Valid() && InCall(s, t, old(s.threads[t].b))
      ensures error == MSG_LENGTH_ERROR <==> len < 0 || len > MAX_MSG_SIZE
      ensures error == MAILBOX_ERROR <==> 0 <= len <= MAX_MSG_SIZE && !luck.messageGranted
      ensures error == MSG_ARG_ERROR <==> 0 <= len <= MAX_MSG_SIZE && luck.messageGranted && !luck.copied
      ensures error == 0 <==> 0 <= len <= MAX_MSG_SIZE && luck.messageGranted && luck.copied
      ensures s.threads[t].pc == if error != 0 then Leaving(error)
                                 else Adding(old(s.ledger.next), old(s.threads[t].pc.block), false)
      ensures history == old(history) + [Moment(old(s), Create(t, len, luck.messageGranted, luck.copied))]
      ensures QuietIn(history, from, |history|, t)
    {
      hide History;
      hide QuietIn;
      TakeQuietly(t, Create(t, len, luck.messageGranted, luck.copied), from);
      error := if s.threads[t].pc.Leaving? then s.threads[t].pc.code else 0;
    }

    /** __send_message. The call starts with its one lookup, of dest. If that or the message
        fails, it returns that error, and no FIFO noticed it. Otherwise it allocated m, and at
        one moment of its own added m, atomically, at the tail of the FIFO it claimed, with the
        code it returns; it did nothing else to any FIFO, and holds no claim. If the call
        sleeps, it still has m in hand and no FIFO noticed it. */
    method SendMessage(t: Tid, dest: int, len: int, block: bool, luck: Luck, world: seq<seq<Step>>)
      returns (r: Ending, ghost at: nat, ghost m: MsgId)
      requires Valid() && Outside(s, t)
      modifies this
      ensures Valid() && t < |s.threads|
      ensures old(history) + [Moment(old(s), LookupStep(t, dest, SendCall(block), luck))] <= history
      ensures r.Code? ==> s.threads[t] == Idle(r.code)
      ensures var (b, from) := (TargetOf(old(s), dest), |old(history)| + 1);
              if !luck.validPid || IsExiting(old(s), dest) then
                r == Code(MAILBOX_INVALID) && QuietIn(history, from, |history|, t)
              else if dest !in old(s.table) && !luck.boxGranted then
                r == Code(MAILBOX_ERROR) && QuietIn(history, from, |history|, t)
              else if len < 0 || len > MAX_MSG_SIZE then
                r == Code(MSG_LENGTH_ERROR) && QuietIn(history, from, |history|, t)
              else if !luck.messageGranted then
                r == Code(MAILBOX_ERROR) && QuietIn(history, from, |history|, t)
              else if !luck.copied then
                r == Code(MSG_ARG_ERROR) && QuietIn(history, from, |history|, t)
              else match r
                case Code(code) =>
                  && OnlyAt(history, from, at, t) && AllocatedIn(history, from, at, t, len, m)
                  && HappenedAt(history[at], t, b, Added(m, false, block, Signalled(history[at].e), code))
                  && (code == MAILBOX_ERROR ==> block && Signalled(history[at].e) && true in luck.signals)
                case StillAsleep =>
                  && block && UserAt(s, t) && s.threads[t] == User(b, WaitAdd(m, false)) && !Awake(s, t)
                  && QuietIn(history, from, |history|, t) && AllocatedIn(history, from, |history|, t, len, m)
                case Wild => false
    {
      hide Next;
      hide History;
      hide QuietIn;
      hide OnlyAt;
      hide HappenedAt;
      hide AllocatedIn;
      at, m := 0, 0;
      var error := GetMailbox(t, dest, SendCall(block), luck);
      NothingYet(history, t);
      if error != 0 {
        return Code(error), at, m;
      }
      r, at, m := Post(t, len, luck, world, |history|);
    }

    /** The rest of a send that has claimed its mailbox. */
    method Post(t: Tid, len: int, luck: Luck, world: seq<seq<Step>>, ghost from: nat)
      returns (r: Ending, ghost at: nat, ghost m: MsgId)
      requires Valid() && UserAt(s, t) && s.threads[t].pc.Sending?
      requires from <= |history| && QuietIn(history, from, |history|, t)
      modifies this
      ensures Valid() && t < |s.threads| && old(history) <= history
      ensures r.Code? ==> s.threads[t] == Idle(r.code)
      ensures var (b, block) := (old(s.threads[t].b), old(s.threads[t].pc.block));
              if len < 0 || len > MAX_MSG_SIZE then
                r == Code(MSG_LENGTH_ERROR) && QuietIn(history, from, |history|, t)
              else if !luck.messageGranted then
                r == Code(MAILBOX_ERROR) && QuietIn(history, from, |history|, t)
              else if !luck.copied then
                r == Code(MSG_ARG_ERROR) && QuietIn(history, from, |history|, t)
              else match r
                case Code(code) =>
                  && OnlyAt(history, from, at, t) && AllocatedIn(history, from, at, t, len, m)
                  && HappenedAt(history[at], t, b, Added(m, false, block, Signalled(history[at].e), code))
                  && (code == MAILBOX_ERROR ==> block && Signalled(history[at].e) && true in luck.signals)
                case StillAsleep =>
                  && block && UserAt(s, t) && s.threads[t] == User(b, WaitAdd(m, false)) && !Awake(s, t)
                  && QuietIn(history, from, |history|, t) && AllocatedIn(history, from, |history|, t, len, m)
                case Wild => false
    {
      hide Next;
      hide Played;
      hide History;
      hide QuietIn;
      hide HappenedAt;
      at := 0;
      Meanwhile(t, WorldAt(world, 0), from);
      m := s.ledger.next;
      ghost var made := |history|;
      var error := MakeMessage(t, len, luck, from);
      if error != 0 {
        error := Unclaim(t, WorldAt(world, 1), from);
        return Code(error), at, m;
      }
      ghost var created := history;
      assert created[made].e == Create(t, len, true, true) && created[made].before.ledger.next == m;
      Meanwhile(t, WorldAt(world, 1), from);
      var done;
      done, at := FinishAdd(t, luck, if |world| > 3 then world[3..] else [], from);
      assert created[made] == history[made];
      if !done {
        return StillAsleep, at, m;
      }
      ghost var added := history;
      AddCodes(history[at], t, s.threads[t].b, m, old(s.threads[t].pc.block), s.threads[t].pc.code);
      error := Unclaim(t, WorldAt(world, 2), at + 1);
      QuietStays(added, history, from, at, t);
      assert added[at] == history[at] && created[made] == history[made];
      return Code(error), at, m;
    }

    /** The first section of a remove: it ends the call, or the task joins the queue. An open,
        empty mailbox leaves a blocking remove no choice but to join, unless a signal is pending. */
    method StartRemove(t: Tid, luck: Luck, ghost from: nat) returns (done: bool)
      requires Valid() && UserAt(s, t) && s.threads[t].pc.Receiving? && QuietIn(history, from, |history|, t)
      modifies this
      ensures Valid() && InCall(s, t, old(s.threads[t].b)) && old(history) <= history && |history| == |old(history)| + 1
      ensures done ==>
                && OnlyAt(history, from, |old(history)|, t)
                && RemovedAt(history[|old(history)|], t, old(s.threads[t].b), old(s.threads[t].pc.block), s.threads[t].pc)
                && (Signalled(history[|old(history)|].e) ==> true in luck.signals)
      ensures !done ==>
                && s.threads[t].pc.WaitRemove? && old(s.threads[t].pc.block) && QuietIn(history, from, |history|, t)
                && !Awake(s, t)
      ensures NoMessage(old(s), t) && !SignalAt(luck.signals, 0) ==> !done && JoinsQueue(old(BoxOf(s, t)), BoxOf(s, t), t)
    {
      hide Next;
      hide History;
      hide QuietIn;
      hide RemovedAt;
      hide JoinsQueue;
      var e := EnterRemove(t, SignalAt(luck.signals, 0));
      ghost var before := history;
      HistoryLives(history, s);
      EnterRemoveEnds(s, e);
      RemoveAsleep(s, e);
      if NoMessage(s, t) && !e.sig { EnterRemoveWaits(s, e); }
      Take(e);
      done := !s.threads[t].pc.WaitRemove?;
      if done { LastIsOnly(before, history, from, t); } else { QuietMore(before, from, Moment(old(s), e), t); }
    }

    /** The task sits in mailbox_remove_message until it returns. */
    method FinishRemove(t: Tid, luck: Luck, world: seq<seq<Step>>, ghost from: nat) returns (done: bool, ghost at: nat)
      requires Valid() && UserAt(s, t) && s.threads[t].pc.Receiving? && QuietIn(history, from, |history|, t)
      modifies this
      ensures Valid() && InCall(s, t, old(s.threads[t].b)) && old(history) <= history
      ensures done ==>
                && |old(history)| <= at && OnlyAt(history, from, at, t)
                && RemovedAt(history[at], t, old(s.threads[t].b), old(s.threads[t].pc.block), s.threads[t].pc)
                && (Signalled(history[at].e) ==> true in luck.signals)
      ensures !done ==>
                && s.threads[t].pc.WaitRemove? && old(s.threads[t].pc.block) && QuietIn(history, from, |history|, t)
                && !Awake(s, t)
      ensures NoMessage(old(s), t) && !SignalAt(luck.signals, 0) ==>
                && (done ==> at > |old(history)|)
                && (world == [] ==> !done && JoinsQueue(old(BoxOf(s, t)), BoxOf(s, t), t))
    {
      hide Next;
      hide Played;
      hide History;
      hide QuietIn;
      hide RemovedAt;
      hide JoinsQueue;
      hide Signalled;
      hide SignalAt;
      ghost var block, b := s.threads[t].pc.block, s.threads[t].b;
      at := |history|;
      done := StartRemove(t, luck, from);
      if done || world == [] {
        return;
      }
      var i := 0;
      while !done && i < |world|
        invariant i <= |world| && Valid() && InCall(s, t, b) && old(history) <= history && |old(history)| < |history|
        invariant done ==>
                    && |old(history)| < at && OnlyAt(history, from, at, t)
                    && RemovedAt(history[at], t, b, block, s.threads[t].pc)
                    && (Signalled(history[at].e) ==> true in luck.signals)
        invariant !done ==> s.threads[t].pc.WaitRemove? && block && QuietIn(history, from, |history|, t) && !Awake(s, t)
      {
        Meanwhile(t, world[i], from);
        if Awake(s, t) {
          at := |history|;
          done := GoOnRemoving(t, SignalAt(luck.signals, i + 1), from);
          SignalSeen(history[at].e, luck.signals, i + 1);
        }
        i := i + 1;
      }
    }

    /** A woken remove runs again: it ends the call, or the task sleeps again. */
    method GoOnRemoving(t: Tid, sig: bool, ghost from: nat) returns (done: bool)
      requires Valid() && UserAt(s, t) && Awake(s, t) && s.threads[t].pc.WaitRemove? && QuietIn(history, from, |history|, t)
      modifies this
      ensures Valid() && InCall(s, t, old(s.threads[t].b)) && old(history) <= history && |history| == |old(history)| + 1
      ensures history[|old(history)|].e == ResumeRemove(t, sig)
      ensures done ==>
                && OnlyAt(history, from, |old(history)|, t)
                && RemovedAt(history[|old(history)|], t, old(s.threads[t].b), true, s.threads[t].pc)
      ensures !done ==> s.threads[t].pc.WaitRemove? && QuietIn(history, from, |history|, t) && !Awake(s, t)
    {
      hide Next;
      hide History;
      hide QuietIn;
      hide RemovedAt;
      var e := ResumeRemove(t, sig);
      ghost var before := history;
      HistoryLives(history, s);
      ResumeRemoveEnds(s, e);
      RemoveAsleep(s, e);
      Take(e);
      done := !s.threads[t].pc.WaitRemove?;
      if done { LastIsOnly(before, history, from, t); } else { QuietMore(before, from, Moment(old(s), e), t); }
    }

    /** A receive that copied its message out: the claim is given up, then the message freed. */
    method HandOver(t: Tid, later: seq<seq<Step>>, ghost from: nat)
      requires Valid() && UserAt(s, t) && s.threads[t].pc.Delivered? && QuietIn(history, from, |history|, t)
      modifies this
      ensures Valid() && t < |s.threads| && s.threads[t] == Idle(0) && old(s.threads[t].pc.m) in s.ledger.delivered
      ensures old(history) <= history && QuietIn(history, from, |history|, t)
    {
      hide Played;
      hide History;
      hide QuietIn;
      Meanwhile(t, WorldAt(later, 2), from);
      TakeQuietly(t, GiveUp(t), from);
      Meanwhile(t, WorldAt(later, 3), from);
      TakeQuietly(t, Release(t), from);
    }

    /** The end of a receive that has message m: success frees it after the claim is gone; a
        failed copy puts it back at the head, in one atomic step, and returns MSG_ARG_ERROR
        whatever became of that. */
    method Deliver(t: Tid, luck: Luck, later: seq<seq<Step>>, ghost from: nat) returns (r: Ending, ghost back: nat)
      requires Valid() && UserAt(s, t) && s.threads[t].pc.Holding? && QuietIn(history, from, |history|, t)
      modifies this
      ensures Valid() && t < |s.threads| && old(history) <= history
      ensures var (b, m) := (old(s.threads[t].b), old(s.threads[t].pc.m));
              match r
              case Code(code) =>
                && s.threads[t] == Idle(code) && code == (if luck.copied then 0 else MSG_ARG_ERROR)
                && (if luck.copied then m in s.ledger.delivered && QuietIn(history, from, |history|, t)
                    else |old(history)| <= back && OnlyAt(history, from, back, t) && PutBackAt(history[back], t, b, m, true))
              case StillAsleep =>
                && !luck.copied && UserAt(s, t) && s.threads[t] == User(b, WaitAdd(m, true)) && !Awake(s, t)
                && QuietIn(history, from, |history|, t)
              case Wild => false
    {
      hide Next;
      hide Played;
      hide History;
      hide QuietIn;
      hide HappenedAt;
      back := 0;
      CopyOutEnds(s, t, luck.copied);
      TakeQuietly(t, CopyOut(t, luck.copied), from);
      if luck.copied {
        HandOver(t, later, from);
        return Code(0), back;
      }
      Meanwhile(t, WorldAt(later, 2), from);
      var done;
      done, back := FinishAdd(t, luck, if |later| > 4 then later[4..] else [], from);
      if !done {
        return StillAsleep, back;
      }
      ghost var added := history;
      var code := Unclaim(t, WorldAt(later, 3), back + 1);
      QuietStays(added, history, from, back, t);
      return Code(MSG_ARG_ERROR), back;
    }

    /** __recieve_message. The call starts with its one lookup, of the caller's own pid; if that
        fails, it returns that error, and no FIFO noticed it. Otherwise, with b the mailbox it
        claimed and `at` a moment of its own:
        - 0: it took m, atomically, from the head of b's FIFO, delivered it and freed it;
        - MSG_ARG_ERROR: it took m and then, at `back`, put it back at the head;
        - any other code: it found the FIFO empty, and that is the code for it;
        - asleep: nothing happened yet, or it took m and sleeps in the put-back;
        - wild: it went by a count left over from the flush.
        It did nothing else to any FIFO, and when it returns it holds no claim. */
    method ReceiveMessage(t: Tid, pid: int, block: bool, luck: Luck, world: seq<seq<Step>>, later: seq<seq<Step>>)
      returns (r: Ending, ghost at: nat, ghost back: nat, ghost m: MsgId)
      requires Valid() && Outside(s, t)
      modifies this
      ensures Valid() && t < |s.threads|
      ensures old(history) + [Moment(old(s), LookupStep(t, pid, ReceiveCall(block), luck))] <= history
      ensures r.Code? ==> s.threads[t] == Idle(r.code)
      ensures var (b, from) := (TargetOf(old(s), pid), |old(history)| + 1);
              if !luck.validPid || IsExiting(old(s), pid) then
                r == Code(MAILBOX_INVALID) && QuietIn(history, from, |history|, t)
              else if pid !in old(s.table) && !luck.boxGranted then
                r == Code(MAILBOX_ERROR) && QuietIn(history, from, |history|, t)
              else match r
                case Code(code) =>
                  if code == 0 then
                    && luck.copied && m in s.ledger.delivered
                    && OnlyAt(history, from, at, t) && HappenedAt(history[at], t, b, Removed(m))
                  else if code == MSG_ARG_ERROR then
                    && !luck.copied && OnlyAtBoth(history, from, at, back, t)
                    && HappenedAt(history[at], t, b, Removed(m)) && PutBackAt(history[back], t, b, m, true)
                  else
                    && OnlyAt(history, from, at, t)
                    && HappenedAt(history[at], t, b, NotRemoved(block, Signalled(history[at].e), code))
                    && (code == MAILBOX_ERROR ==> block && Signalled(history[at].e) && true in luck.signals)
                case StillAsleep =>
                  && UserAt(s, t) && !Awake(s, t)
                  && (|| (block && s.threads[t] == User(b, WaitRemove) && QuietIn(history, from, |history|, t))
                      || (&& !luck.copied && s.threads[t] == User(b, WaitAdd(m, true))
                          && OnlyAt(history, from, at, t) && HappenedAt(history[at], t, b, Removed(m))))
                case Wild =>
                  && UserAt(s, t) && s.threads[t] == User(b, Undefined)
                  && OnlyAt(history, from, at, t) && WildAt(history[at], t, b)
    {
      hide Next;
      hide History;
      hide QuietIn;
      hide OnlyAt;
      hide OnlyAtBoth;
      hide HappenedAt;
      hide WildAt;
      hide PutBackAt;
      at, back, m := 0, 0, 0;
      var error := GetMailbox(t, pid, ReceiveCall(block), luck);
      NothingYet(history, t);
      if error != 0 {
        return Code(error), at, back, m;
      }
      r, at, back, m := Fetch(t, luck, world, later, |history|);
    }

    /** The rest of a receive that has claimed its mailbox. */
    method Fetch(t: Tid, luck: Luck, world: seq<seq<Step>>, later: seq<seq<Step>>, ghost from: nat)
      returns (r: Ending, ghost at: nat, ghost back: nat, ghost m: MsgId)
      requires Valid() && UserAt(s, t) && s.threads[t].pc.Receiving? && QuietIn(history, from, |history|, t)
      modifies this
      ensures Valid() && t < |s.threads| && old(history) <= history
      ensures r.Code? ==> s.threads[t] == Idle(r.code)
      ensures var (b, block) := (old(s.threads[t].b), old(s.threads[t].pc.block));
              match r
                case Code(code) =>
                  if code == 0 then
                    && luck.copied && m in s.ledger.delivered
                    && OnlyAt(history, from, at, t) && HappenedAt(history[at], t, b, Removed(m))
                  else if code == MSG_ARG_ERROR then
                    && !luck.copied && OnlyAtBoth(history, from, at, back, t)
                    && HappenedAt(history[at], t, b, Removed(m)) && PutBackAt(history[back], t, b, m, true)
                  else
                    && OnlyAt(history, from, at, t)
                    && HappenedAt(history[at], t, b, NotRemoved(block, Signalled(history[at].e), code))
                    && (code == MAILBOX_ERROR ==> block && Signalled(history[at].e) && true in luck.signals)
                case StillAsleep =>
                  && UserAt(s, t) && !Awake(s, t)
                  && (|| (block && s.threads[t] == User(b, WaitRemove) && QuietIn(history, from, |history|, t))
                      || (&& !luck.copied && s.threads[t] == User(b, WaitAdd(m, true))
                          && OnlyAt(history, from, at, t) && HappenedAt(history[at], t, b, Removed(m))))
                case Wild =>
                  && UserAt(s, t) && s.threads[t] == User(b, Undefined)
                  && OnlyAt(history, from, at, t) && WildAt(history[at], t, b)
    {
      hide Next;
      hide History;
      hide QuietIn;
      hide HappenedAt;
      hide WildAt;
      hide PutBackAt;
      hide Played;
      back, m := 0, 0;
      ghost var block := s.threads[t].pc.block;
      Meanwhile(t, WorldAt(later, 0), from);
      var done;
      done, at := FinishRemove(t, luck, world, from);
      if !done {
        return StillAsleep, at, back, m;
      }
      if s.threads[t].pc.Undefined? {
        return Wild, at, back, m;
      }
      ghost var removed := history;
      if s.threads[t].pc.Leaving? {
        EmptyCodes(history[at], t, s.threads[t].b, block, s.threads[t].pc.code);
        var error := Unclaim(t, WorldAt(later, 1), at + 1);
        QuietStays(removed, history, from, at, t);
        return Code(error), at, back, m;
      }
      m := s.threads[t].pc.m;
      Meanwhile(t, WorldAt(later, 1), at + 1);
      r, back := Deliver(t, luck, later, at + 1);
      QuietStays(removed, history, from, at, t);
    }

    /** __manage_mailbox. The call starts with its one lookup, of the caller's own pid; if that
        fails, it returns that error. Otherwise the count is the one it read, at a moment of its
        own, in the mailbox b it claimed, which is the length of b's FIFO unless b was flushed;
        and a stop is one atomic stop of b's FIFO, after the count was read, and for good. It did
        nothing else to any FIFO, and holds no claim. */
    method ManageMailbox(t: Tid, pid: int, stop: bool, luck: Luck, world: seq<seq<Step>>)
      returns (code: int, count: int, ghost at: nat, ghost halted: nat)
      requires Valid() && Outside(s, t)
      modifies this
      ensures Valid() && t < |s.threads| && s.threads[t] == Idle(code)
      ensures old(history) + [Moment(old(s), LookupStep(t, pid, ManageCall(stop), luck))] <= history
      ensures var (b, from) := (TargetOf(old(s), pid), |old(history)| + 1);
              if !luck.validPid || IsExiting(old(s), pid) then
                code == MAILBOX_INVALID && QuietIn(history, from, |history|, t)
              else if pid !in old(s.table) && !luck.boxGranted then
                code == MAILBOX_ERROR && QuietIn(history, from, |history|, t)
              else
                && code == (if luck.copied then 0 else MSG_ARG_ERROR)
                && from <= at < |history| && CountReadAt(history[at], t, b, count)
                && (if stop && luck.copied then
                      && at < halted && OnlyAt(history, from, halted, t)
                      && HappenedAt(history[halted], t, b, BoundedFifo.Stop)
                      && b < |s.boxes| && s.boxes[b].box.stopped != 0
                    else QuietIn(history, from, |history|, t))
    {
      hide Next;
      hide History;
      hide QuietIn;
      hide OnlyAt;
      hide HappenedAt;
      hide CountReadAt;
      count, at, halted := 0, 0, 0;
      code := GetMailbox(t, pid, ManageCall(stop), luck);
      NothingYet(history, t);
      if code != 0 {
        return;
      }
      code, count, at, halted := CountAndStop(t, luck, world, |history|);
    }

    /** The rest of a manage call that has claimed its mailbox. */
    method CountAndStop(t: Tid, luck: Luck, world: seq<seq<Step>>, ghost from: nat)
      returns (code: int, count: int, ghost at: nat, ghost halted: nat)
      requires Valid() && UserAt(s, t) && s.threads[t].pc.Managing? && QuietIn(history, from, |history|, t)
      modifies this
      ensures Valid() && t < |s.threads| && s.threads[t] == Idle(code) && old(history) <= history
      ensures code == if luck.copied then 0 else MSG_ARG_ERROR
      ensures |old(history)| <= at < |history| && CountReadAt(history[at], t, old(s.threads[t].b), count)
      ensures var (b, stop) := (old(s.threads[t].b), old(s.threads[t].pc.stop));
              if stop && luck.copied then
                && at < halted && OnlyAt(history, from, halted, t)
                && HappenedAt(history[halted], t, b, BoundedFifo.Stop)
                && b < |s.boxes| && s.boxes[b].box.stopped != 0
              else QuietIn(history, from, |history|, t)
    {
      hide Next;
      hide Played;
      hide History;
      hide QuietIn;
      hide HappenedAt;
      halted := 0;
      Meanwhile(t, WorldAt(world, 0), from);
      at := |history|;
      count := BoxOf(s, t).count;
      HistoryLives(history, s);
      ReadCountEnds(s, t, luck.copied);
      hide CountReadAt;
      TakeQuietly(t, ReadCount(t, luck.copied), from);
      ghost var read := history;
      if s.threads[t].pc.Halting? {
        Meanwhile(t, WorldAt(world, 1), from);
        halted := Halt(t, from);
        ghost var stopped := history;
        code := Unclaim(t, WorldAt(world, 2), halted + 1);
        QuietStays(stopped, history, from, halted, t);
        assert stopped[halted] == history[halted];
      } else {
        code := Unclaim(t, WorldAt(world, 1), from);
      }
      assert read[at] == history[at];
    }

    /** mailbox_stop in a manage call */
    method Halt(t: Tid, ghost from: nat) returns (ghost at: nat)
      requires Valid() && UserAt(s, t) && s.threads[t].pc.Halting? && QuietIn(history, from, |history|, t)
      modifies this
      ensures Valid() && InCall(s, t, old(s.threads[t].b)) && s.threads[t].pc == Leaving(0)
      ensures BoxOf(s, t).stopped != 0
      ensures old(history) <= history && at == |old(history)| && OnlyAt(history, from, at, t)
      ensures HappenedAt(history[at], t, old(s.threads[t].b), BoundedFifo.Stop)
    {
      hide Next;
      hide History;
      hide QuietIn;
      hide HappenedAt;
      at := |history|;
      HaltEnds(s, t);
      ghost var before := history;
      Take(HaltBox(t));
      LastIsOnly(before, history, from, t);
    }

    /** remove_mailbox_for_pid, called by both exit hooks: the mailbox is stopped and marked,
        and a deletion thread is started for it. */
    method Exit(t: Tid, pid: int) returns (code: int)
      requires Valid() && Outside(s, t)
      modifies this
      ensures Valid() && history == old(history) + [Moment(old(s), ExitHook(t, pid))]
      ensures code == if pid in old(s.table) then 0 else MAILBOX_INVALID
      ensures code != 0 ==> s == old(s).(threads := old(s.threads)[t := Idle(code)])
      ensures code == 0 ==>
                var b := old(s.table[pid]);
                && s.threads == old(s.threads)[t := Idle(0)] + [Deleter(b, Start)]
                && b < |s.boxes| && s.boxes[b].box.owner == pid && HasExiting(s.boxes[b].box.stopped)
    {
      hide History;
      TableTrue(history, s, pid);
      Take(ExitHook(t, pid));
      code := s.threads[t].code;
    }
  }

  lemma HistoryLives(h: seq<Moment>, z: System)
    requires History(h, z)
    ensures Reachable(z)
  {
  }

  /** The table leads to a mailbox of that pid. */
  lemma TableTrue(h: seq<Moment>, s: System, pid: int)
    requires History(h, s)
    ensures pid in s.table ==> s.table[pid] < |s.boxes| && s.boxes[s.table[pid]].box.owner == pid
  {
    ReachableInv(s);
  }

  /** In a reachable state the EXITING bit is set exactly if the word is EXITING | STOPPED. */
  lemma ExitMark(h: seq<Moment>, s: System, pid: int)
    requires History(h, s)
    ensures pid in s.table && s.table[pid] < |s.boxes| ==>
              var word := s.boxes[s.table[pid]].box.stopped; HasExiting(word) <==> word == EXITING_AND_STOPPED
  {
    ReachableInv(s);
    if pid in s.table { BoxFacts(s, s.table[pid]); }
  }

  lemma NothingYet(h: seq<Moment>, t: Tid)
    ensures QuietIn(h, |h|, |h|, t)
  {
  }

  lemma LastIsOnly(h: seq<Moment>, k: seq<Moment>, from: nat, t: Tid)
    requires QuietIn(h, from, |h|, t) && h <= k && |k| == |h| + 1
    ensures OnlyAt(k, from, |h|, t)
  {
    QuietStays(h, k, from, |h|, t);
  }

  lemma GiveUpEnds(s: System, t: Tid)
    requires UserAt(s, t) && s.threads[t].pc.Leaving?
    ensures Enabled(s, GiveUp(t)) && t < |Next(s, GiveUp(t)).threads|
    ensures Next(s, GiveUp(t)).threads[t] == Idle(s.threads[t].pc.code)
  {
  }

  // ---------------------------------------------------------------- the sections of a call

  /** Every section of an add that ends the call is a legal step of the FIFO, with its code;
      one that sleeps goes unnoticed. */
  lemma EnterAddEnds(s: System, e: Step)
    requires Reachable(s) && Enabled(s, e) && e.EnterAdd?
    ensures var (b, pc, s') := (s.threads[e.t].b, s.threads[e.t].pc, Next(s, e));
            && InCall(s', e.t, b)
            && (|| (s'.threads[e.t].pc == WaitAdd(pc.m, pc.head) && pc.block && Quiet(Moment(s, e), e.t))
                || (s'.threads[e.t].pc.Leaving? && AddedAt(Moment(s, e), e.t, b, pc, s'.threads[e.t].pc.code)))
  {
    hide Next;
    ReachableInv(s);
    AddRefines(s, e, s.threads[e.t].b);
    AddThread(s, e);
    StepFrame(s, e);
    hide AddSection;
    AddShown(s, e);
  }

  lemma ResumeAddEnds(s: System, e: Step, pc: UserPc)
    requires Reachable(s) && Enabled(s, e) && e.ResumeAdd?
    requires pc.Adding? && pc.block && s.threads[e.t].pc == WaitAdd(pc.m, pc.head)
    ensures var (b, s') := (s.threads[e.t].b, Next(s, e));
            && InCall(s', e.t, b)
            && (|| (s'.threads[e.t].pc == WaitAdd(pc.m, pc.head) && Quiet(Moment(s, e), e.t))
                || (s'.threads[e.t].pc.Leaving? && AddedAt(Moment(s, e), e.t, b, pc, s'.threads[e.t].pc.code)))
  {
    hide Next;
    ReachableInv(s);
    AddRefines(s, e, s.threads[e.t].b);
    hide AddSection;
    AddThread(s, e);
    StepFrame(s, e);
    AddShown(s, e);
  }

  /** The event of an add section carries its signal; if it is legal, it happened. */
  lemma AddShown(s: System, e: Step)
    requires Enabled(s, e) && (e.EnterAdd? || e.ResumeAdd?) && StepMatches(s, e, s.threads[e.t].b)
    ensures var ev := EventOf(s, e, s.threads[e.t].b);
            ev.Added? ==> HappenedAt(Moment(s, e), e.t, s.threads[e.t].b,
                                     Added(ev.m, ev.head, ev.block, Signalled(e), ev.code))
  {
    hide Next;
    hide AddSection;
  }

  lemma EnterRemoveEnds(s: System, e: Step)
    requires Reachable(s) && Enabled(s, e) && e.EnterRemove?
    ensures var (b, pc, s') := (s.threads[e.t].b, s.threads[e.t].pc, Next(s, e));
            && InCall(s', e.t, b)
            && (if s'.threads[e.t].pc.WaitRemove? then pc.block && Quiet(Moment(s, e), e.t)
                else RemovedAt(Moment(s, e), e.t, b, pc.block, s'.threads[e.t].pc))
  {
    hide Next;
    ReachableInv(s);
    RemoveRefines(s, e, s.threads[e.t].b);
    RemoveSectionKeeps(s, e);
    CorruptExactly(s, e);
    NonBlockingStays(s, e);
    StepFrame(s, e);
    hide RemoveSection;
  }

  /** Only a blocking remove sleeps. */
  lemma NonBlockingStays(s: System, e: Step)
    requires Enabled(s, e) && e.EnterRemove?
    ensures RemoveSection(s, e).1.Slept? ==> s.threads[e.t].pc.block
  {
    hide WakeOne;
  }

  lemma ResumeRemoveEnds(s: System, e: Step)
    requires Reachable(s) && Enabled(s, e) && e.ResumeRemove?
    ensures var (b, s') := (s.threads[e.t].b, Next(s, e));
            && InCall(s', e.t, b)
            && (if s'.threads[e.t].pc.WaitRemove? then Quiet(Moment(s, e), e.t)
                else RemovedAt(Moment(s, e), e.t, b, true, s'.threads[e.t].pc))
  {
    hide Next;
    ReachableInv(s);
    RemoveRefines(s, e, s.threads[e.t].b);
    RemoveSectionKeeps(s, e);
    CorruptExactly(s, e);
    StepFrame(s, e);
    hide RemoveSection;
  }

  /** A task that an add leaves in its wait is on the queue. */
  lemma AddAsleep(s: System, e: Step)
    requires Enabled(s, e) && (e.EnterAdd? || e.ResumeAdd?)
    ensures UserAt(Next(s, e), e.t) && (Next(s, e).threads[e.t].pc.WaitAdd? ==> !Awake(Next(s, e), e.t))
  {
    hide Next;
    hide AddSection;
    hide Woken;
    AddThread(s, e);
    AddStepDoes(s, e);
    OnQueue(BoxOf(s, e.t).queue, e.t);
  }

  lemma RemoveAsleep(s: System, e: Step)
    requires Enabled(s, e) && (e.EnterRemove? || e.ResumeRemove?)
    ensures e.t < |Next(s, e).threads|
    ensures Next(s, e).threads[e.t].User? && Next(s, e).threads[e.t].pc.WaitRemove? ==>
              UserAt(Next(s, e), e.t) && !Awake(Next(s, e), e.t)
  {
    hide Next;
    hide Woken;
    RemoveSectionKeeps(s, e);
    hide RemoveSection;
    RemoveStepDoes(s, e);
    OnQueue(BoxOf(s, e.t).queue, e.t);
  }

  lemma OnQueue(q: seq<Waiter>, t: Tid)
    ensures Queued(q + [Waiter(t, true)], t)
  {
    assert (q + [Waiter(t, true)])[|q|].tid == t;
  }

  /** A blocking add on an open, full mailbox, with no signal, joins the queue. */
  lemma EnterAddWaits(s: System, e: Step)
    requires e.EnterAdd? && NoRoom(s, e.t) && !e.sig
    ensures UserAt(Next(s, e), e.t) && Next(s, e).threads[e.t].pc.WaitAdd?
    ensures JoinsQueue(BoxOf(s, e.t), BoxOf(Next(s, e), e.t), e.t)
  {
    var x, pc := BoxOf(s, e.t), s.threads[e.t].pc;
    AddEnterDoes(x, e.t, pc.m, pc.block, pc.head, e.sig);
    hide AddEnter;
    hide Woken;
  }

  /** A blocking remove on an open, empty mailbox, with no signal, joins the queue. */
  lemma EnterRemoveWaits(s: System, e: Step)
    requires e.EnterRemove? && NoMessage(s, e.t) && !e.sig
    ensures UserAt(Next(s, e), e.t) && Next(s, e).threads[e.t].pc.WaitRemove?
    ensures JoinsQueue(BoxOf(s, e.t), BoxOf(Next(s, e), e.t), e.t)
  {
    var x, pc := BoxOf(s, e.t), s.threads[e.t].pc;
    RemoveEnterDoes(x, e.t, pc.block, e.sig);
    hide RemoveEnter;
    hide Woken;
  }

  lemma CopyOutEnds(s: System, t: Tid, copied: bool)
    requires UserAt(s, t) && s.threads[t].pc.Holding?
    ensures var (b, m, s') := (s.threads[t].b, s.threads[t].pc.m, Next(s, CopyOut(t, copied)));
            UserAt(s', t) && s'.threads[t] == User(b, if copied then Delivered(m) else Adding(m, true, true))
  {
  }

  lemma ReadCountEnds(s: System, t: Tid, copied: bool)
    requires Reachable(s) && UserAt(s, t) && s.threads[t].pc.Managing?
    ensures CountReadAt(Moment(s, ReadCount(t, copied)), t, s.threads[t].b, BoxOf(s, t).count)
    ensures var (b, s') := (s.threads[t].b, Next(s, ReadCount(t, copied)));
            && UserAt(s', t)
            && s'.threads[t] == User(b, if !copied then Leaving(MSG_ARG_ERROR)
                                        else if s.threads[t].pc.stop then Halting else Leaving(0))
  {
    CapacityAndCount(s, s.threads[t].b);
  }

  lemma HaltEnds(s: System, t: Tid)
    requires UserAt(s, t) && s.threads[t].pc.Halting?
    ensures var s' := Next(s, HaltBox(t));
            UserAt(s', t) && s'.threads[t] == User(s.threads[t].b, Leaving(0)) && BoxOf(s', t).stopped != 0
    ensures HappenedAt(Moment(s, HaltBox(t)), t, s.threads[t].b, BoundedFifo.Stop)
  {
    hide WakeOne;
  }

  lemma SignalSeen(e: Step, signals: seq<bool>, i: nat)
    ensures (e.ResumeAdd? || e.ResumeRemove?) && e.sig == SignalAt(signals, i) && Signalled(e) ==> true in signals
  {
  }

  /** A send fails with MAILBOX_ERROR on a mailbox it claimed only by a signal. */
  lemma AddCodes(mo: Moment, t: Tid, b: BoxId, m: MsgId, block: bool, code: int)
    requires HappenedAt(mo, t, b, Added(m, false, block, Signalled(mo.e), code))
    ensures code == MAILBOX_ERROR ==> block && Signalled(mo.e)
  {
  }

  /** The codes of an empty FIFO are none of the codes of a receive that took a message. */
  lemma EmptyCodes(mo: Moment, t: Tid, b: BoxId, block: bool, code: int)
    requires HappenedAt(mo, t, b, NotRemoved(block, Signalled(mo.e), code))
    ensures code != 0 && code != MSG_ARG_ERROR && (code == MAILBOX_ERROR ==> block && Signalled(mo.e))
  {
  }
}
