/**
 What getting a mailbox and making a message come to, case by case, and what a mailbox that was
 only ever stopped by its owner still gives.
 */
module Lookups {
  import opened Codes
  import opened WaitQueues
  import opened MailboxSpec
  import opened Sections
  import opened BoxInvariant
  import opened Protocol
  import opened Tallies
  import opened Invariant
  import opened InvariantSteps
  import opened StepFacts
  import opened Refinement
  import opened FifoRuns
  import opened DoubleDeletion
  import opened HandOffs

  // ---------------------------------------------------------------- get_mailbox_for_pid

  /** The stop word of every mailbox of a reachable state: never stopped, stopped, or stopped and
      exiting. So the EXITING bit is the whole difference between the last two. */
  lemma StopWord(s: System, b: BoxId)
    requires Reachable(s) && b < |s.boxes|
    ensures var word := s.boxes[b].box.stopped;
            && (word == 0 || word == STOPPED || word == EXITING_AND_STOPPED)
            && (HasExiting(word) <==> word == EXITING_AND_STOPPED)
  {
    ReachableInv(s);
    BoxFacts(s, b);
  }

  /** Each outcome of a lookup, and exactly when it occurs. A failure changes nothing. */
  lemma {:induction false} LookupExactly(s: System, t: Tid, pid: int, call: Call, valid: bool, granted: bool)
    requires Reachable(s) && t < |s.threads| && s.threads[t].Idle?
    ensures Enabled(s, Lookup(t, pid, call, valid, granted)) && (pid in s.table ==> s.table[pid] < |s.boxes|)
    ensures var s' := Next(s, Lookup(t, pid, call, valid, granted));
            var there := pid in s.table;
            && t < |s'.threads|
            && (s'.threads[t] == Idle(MAILBOX_INVALID)
                <==> !valid || (there && s.boxes[s.table[pid]].box.stopped == EXITING_AND_STOPPED))
            && (s'.threads[t] == Idle(MAILBOX_ERROR) <==> valid && !there && !granted)
            && (s'.threads[t].Idle? ==>
                  && (s'.threads[t].code == MAILBOX_INVALID || s'.threads[t].code == MAILBOX_ERROR)
                  && s'.boxes == s.boxes && s'.table == s.table)
            && (!s'.threads[t].Idle? ==>
                  var b := if there then s.table[pid] else |s.boxes|;
                  && s'.threads[t] == User(b, Begin(call)) && s'.table == s.table[pid := b] && b < |s'.boxes|
                  && (there ==> s'.boxes[b].box == s.boxes[b].box.(derefs := s.boxes[b].box.derefs + 1))
                  && (!there ==> s'.boxes[b].box.owner == pid && s'.boxes[b].box.stopped == 0
                                 && s'.boxes[b].box.messages == [] && s'.boxes[b].box.derefs == 1))
  {
    ReachableInv(s);
    if pid in s.table {
      StopWord(s, s.table[pid]);
      LinkedNotAwaited(s.threads, s.boxes[s.table[pid]], s.table[pid]);
    }
    CreatedDoes(pid);
    hide HasExiting;
    hide Inv;
    hide Reachable;
    hide Created;
  }

  // ---------------------------------------------------------------- message_create

  /** Each outcome of message_create in a send, and exactly when it occurs: a message of any
      length from 0 to 128 is made if there is memory for it and it can be read. */
  lemma CreateExactly(s: System, t: Tid, len: int, granted: bool, copied: bool)
    requires UserAt(s, t) && s.threads[t].pc.Sending?
    ensures Enabled(s, Create(t, len, granted, copied))
    ensures var (s', b) := (Next(s, Create(t, len, granted, copied)), s.threads[t].b);
            && UserAt(s', t)
            && (s'.threads[t] == User(b, Leaving(MSG_LENGTH_ERROR)) <==> len < 0 || len > 128)
            && (s'.threads[t] == User(b, Leaving(MAILBOX_ERROR)) <==> 0 <= len <= 128 && !granted)
            && (s'.threads[t] == User(b, Leaving(MSG_ARG_ERROR)) <==> 0 <= len <= 128 && granted && !copied)
            && (s'.threads[t] == User(b, Adding(s.ledger.next, s.threads[t].pc.block, false))
                <==> 0 <= len <= 128 && granted && copied)
            && s'.boxes == s.boxes && s'.table == s.table
            && s'.ledger.live == s.ledger.live + (if 0 <= len <= 128 && granted && copied then {s.ledger.next} else {})
  {
  }

  // ---------------------------------------------------------------- the stop word

  /** The one step that sets the word of b to STOPPED, and the two that set it to EXITING. */
  lemma {:induction false} StepWord(s: System, e: Step, b: BoxId)
    requires Enabled(s, e) && b < |s.boxes|
    ensures b < |Next(s, e).boxes|
    ensures Next(s, e).boxes[b].box.stopped
         == if e.HaltBox? && s.threads[e.t].b == b then STOPPED
            else if e.ExitHook? && e.pid in s.table && s.table[e.pid] == b then EXITING_AND_STOPPED
            else if e.DeleteStop? && s.threads[e.t].b == b then EXITING_AND_STOPPED
            else s.boxes[b].box.stopped
  {
    hide Next;
    StepFrame(s, e);
    if Site(s, e) != b {
      assert Next(s, e).boxes[b] == s.boxes[b];
    } else if e.EnterAdd? || e.ResumeAdd? {
      AddStepDoes(s, e);
    } else if e.EnterRemove? || e.ResumeRemove? {
      RemoveStepDoes(s, e);
    } else {
      PlainWord(s, e, b);
    }
  }

  lemma PlainWord(s: System, e: Step, b: BoxId)
    requires Enabled(s, e) && b < |s.boxes| && Site(s, e) == b
    requires !e.EnterAdd? && !e.ResumeAdd? && !e.EnterRemove? && !e.ResumeRemove?
    ensures b < |Next(s, e).boxes|
    ensures Next(s, e).boxes[b].box.stopped
         == if e.HaltBox? then STOPPED
            else if e.ExitHook? || e.DeleteStop? then EXITING_AND_STOPPED
            else s.boxes[b].box.stopped
  {
    hide WakeOne;
  }

  /** No mailbox of pid carries the exit mark or has a deletion thread. */
  ghost predicate Unmarked(s: System, pid: int) {
    forall b :: 0 <= b < |s.boxes| && s.boxes[b].box.owner == pid ==>
      s.boxes[b].box.stopped != EXITING_AND_STOPPED && !HasDeletion(s, b)
  }

  ghost predicate NoExitOf(run: seq<Step>, pid: int) {
    forall i :: 0 <= i < |run| ==> !(run[i].ExitHook? && run[i].pid == pid)
  }

  /** A deletion thread of b was there, or an exit hook of b's owner has just started it. */
  lemma DeletionComesFrom(s: System, e: Step, b: BoxId)
    requires Inv(s) && Enabled(s, e) && HasDeletion(Next(s, e), b)
    ensures b < |s.boxes|
    ensures HasDeletion(s, b) || (e.ExitHook? && e.pid == s.boxes[b].box.owner)
  {
    hide Next;
    hide BoxOk;
    StepFrame(s, e);
    var s' := Next(s, e);
    var u :| 0 <= u < |s'.threads| && s'.threads[u].Deleter? && s'.threads[u].b == b;
    if u < |s.threads| {
      assert s.threads[u].Deleter? && s.threads[u].b == b;
    }
  }

  lemma {:induction false} StepUnmarked(s: System, e: Step, pid: int)
    requires Inv(s) && Enabled(s, e) && Unmarked(s, pid) && !(e.ExitHook? && e.pid == pid)
    ensures Unmarked(Next(s, e), pid)
  {
    hide Next;
    hide BoxOk;
    StepFrame(s, e);
    var s' := Next(s, e);
    forall b | 0 <= b < |s'.boxes| && s'.boxes[b].box.owner == pid
      ensures s'.boxes[b].box.stopped != EXITING_AND_STOPPED && !HasDeletion(s', b)
    {
      if HasDeletion(s', b) { DeletionComesFrom(s, e, b); }
      if b >= |s.boxes| {
        GrowsByLookup(s, e);
      } else {
        StepWord(s, e, b);
      }
    }
  }

  lemma {:induction false} RunUnmarked(s: System, run: seq<Step>, pid: int)
    requires Inv(s) && Unmarked(s, pid) && Run(s, run) && NoExitOf(run, pid)
    ensures Unmarked(After(s, run), pid)
    decreases |run|
  {
    hide Inv;
    hide Next;
    hide Unmarked;
    if run != [] {
      StepInv(s, run[0]);
      StepUnmarked(s, run[0], pid);
      RunUnmarked(Next(s, run[0]), run[1..], pid);
    }
  }

  // ---------------------------------------------------------------- a mailbox stopped by its owner

  /** Until its process exits, a valid pid is never told that its mailbox is invalid, however
      often the mailbox was stopped: a lookup claims the mailbox in the table, or a new one. */
  lemma LivingPidIsServed(init: System, run: seq<Step>, t: Tid, pid: int, call: Call)
    requires Initial(init) && Run(init, run) && NoExitOf(run, pid)
    requires var s := After(init, run); t < |s.threads| && s.threads[t].Idle?
    ensures var s := After(init, run);
            var b := if pid in s.table then s.table[pid] else |s.boxes|;
            && Enabled(s, Lookup(t, pid, call, true, true))
            && t < |Next(s, Lookup(t, pid, call, true, true)).threads|
            && Next(s, Lookup(t, pid, call, true, true)).threads[t] == User(b, Begin(call))
  {
    var s := After(init, run);
    RunUnmarked(init, run, pid);
    assert Reachable(s);
    ReachableInv(s);
    LookupExactly(s, t, pid, call, true, true);
    if pid in s.table { assert s.boxes[s.table[pid]].box.owner == pid; }
    hide Next;
    hide Inv;
    hide Reachable;
  }

  /** A mailbox in the table that does not carry the exit mark, stopped or not, gives up its
      messages: a receive claims it, and its first section takes the head of the list. */
  lemma {:induction false} StoppedMailboxGives(s: System, t: Tid, pid: int, block: bool, granted: bool, sig: bool)
    requires Reachable(s) && t < |s.threads| && s.threads[t].Idle?
    requires pid in s.table && s.table[pid] < |s.boxes|
    requires s.boxes[s.table[pid]].box.stopped != EXITING_AND_STOPPED && s.boxes[s.table[pid]].box.messages != []
    ensures var (b, e) := (s.table[pid], Lookup(t, pid, ReceiveCall(block), true, granted));
            && Enabled(s, e) && Enabled(Next(s, e), EnterRemove(t, sig))
            && t < |Next(Next(s, e), EnterRemove(t, sig)).threads|
            && Next(Next(s, e), EnterRemove(t, sig)).threads[t] == User(b, Holding(s.boxes[b].box.messages[0]))
  {
    hide Next;
    hide Reachable;
    var b, e := s.table[pid], Lookup(t, pid, ReceiveCall(block), true, granted);
    LookupExactly(s, t, pid, ReceiveCall(block), true, granted);
    CapacityAndCount(s, b);
    TakesHead(Next(s, e), EnterRemove(t, sig));
  }
}
