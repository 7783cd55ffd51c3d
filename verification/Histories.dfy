/**
 The steps of a run with the states they were taken in, so that a call can say when it did
 what it did.
 */
module Histories {
  import opened Protocol
  import opened WaitQueues
  import opened MailboxSpec
  import opened StepFacts
  import opened BoundedFifo
  import opened Refinement

  /** A step and the state it was taken in. */
  datatype Moment = Moment(before: System, e: Step)

  /** The state moment i leads to. */
  ghost predicate LeadsOn(h: seq<Moment>, z: System, i: nat)
    requires i < |h|
  {
    && Enabled(h[i].before, h[i].e) && Reachable(h[i].before)
    && Next(h[i].before, h[i].e) == if i + 1 < |h| then h[i + 1].before else z
  }

  function Origin(h: seq<Moment>, z: System): System { if h == [] then z else h[0].before }

  /** h is a run from module load to z. */
  ghost predicate History(h: seq<Moment>, z: System) {
    && Reachable(z) && Initial(Origin(h, z))
    && forall i :: 0 <= i < |h| ==> LeadsOn(h, z, i)
  }

  function StepsOf(h: seq<Moment>): (r: seq<Step>)
    ensures |r| == |h| && forall i :: 0 <= i < |h| ==> r[i] == h[i].e
  {
    seq(|h|, i requires 0 <= i < |h| => h[i].e)
  }

  lemma HistorySnoc(h: seq<Moment>, z: System, e: Step)
    requires History(h, z) && Enabled(z, e)
    ensures History(h + [Moment(z, e)], Next(z, e))
  {
    hide Enabled;
    hide Next;
    hide Reachable;
    ReachableStep(z, e);
    var k, z' := h + [Moment(z, e)], Next(z, e);
    forall i | 0 <= i < |k| ensures LeadsOn(k, z', i) {
      if i < |h| { assert LeadsOn(h, z, i); }
    }
  }

  /** A history is a run in the sense of the protocol, and its moments are the states on the way. */
  lemma {:induction false} HistoryIsRun(h: seq<Moment>, z: System)
    requires forall i :: 0 <= i < |h| ==> LeadsOn(h, z, i)
    ensures Run(Origin(h, z), StepsOf(h)) && After(Origin(h, z), StepsOf(h)) == z
    decreases |h|
  {
    hide Enabled;
    hide Next;
    hide Reachable;
    if h != [] {
      var k := h[1..];
      assert LeadsOn(h, z, 0);
      forall i | 0 <= i < |k| ensures LeadsOn(k, z, i) { assert LeadsOn(h, z, i + 1); }
      HistoryIsRun(k, z);
      assert StepsOf(h)[1..] == StepsOf(k);
    }
  }

  // ---------------------------------------------------------------- what one task did

  /** Task t looks nothing up here, and no FIFO changes or answers by its doing. */
  ghost predicate Quiet(mo: Moment, t: Tid) {
    Actor(mo.e) == t ==>
      Enabled(mo.before, mo.e) && !mo.e.Lookup? && forall b: BoxId :: EventOf(mo.before, mo.e, b).Silent?
  }

  ghost predicate QuietIn(h: seq<Moment>, from: nat, to: nat, t: Tid) {
    from <= to <= |h| && forall i :: from <= i < to ==> Quiet(h[i], t)
  }

  /** The only thing t did to a FIFO since `from`, it did at `at`. */
  ghost predicate OnlyAt(h: seq<Moment>, from: nat, at: nat, t: Tid) {
    at < |h| && QuietIn(h, from, at, t) && QuietIn(h, at + 1, |h|, t)
  }

  /** The only things t did to a FIFO since `from`, it did at `at` and then at `back`. */
  ghost predicate OnlyAtBoth(h: seq<Moment>, from: nat, at: nat, back: nat, t: Tid) {
    at < back < |h| && QuietIn(h, from, at, t) && QuietIn(h, at + 1, back, t) && QuietIn(h, back + 1, |h|, t)
  }

  /** A signal was pending for the task that took this step. */
  predicate Signalled(e: Step) {
    match e
    case EnterAdd(_, sig) => sig
    case ResumeAdd(_, sig) => sig
    case EnterRemove(_, sig) => sig
    case ResumeRemove(_, sig) => sig
    case _ => false
  }

  /** At this moment task t, with its claim on b, made the FIFO of b do ev, and legally so. */
  ghost predicate HappenedAt(mo: Moment, t: Tid, b: BoxId, ev: Event) {
    && Enabled(mo.before, mo.e) && Actor(mo.e) == t && UserAt(mo.before, t) && mo.before.threads[t].b == b
    && ev == EventOf(mo.before, mo.e, b) && Legal(Abs(mo.before, b), ev)
    && b < |Next(mo.before, mo.e).boxes| && Abs(Next(mo.before, mo.e), b) == Effect(Abs(mo.before, b), ev)
  }

  /** At this moment a remove of task t on b went by a count left over from the flush. */
  ghost predicate WildAt(mo: Moment, t: Tid, b: BoxId) {
    && Enabled(mo.before, mo.e) && Actor(mo.e) == t && UserAt(mo.before, t) && mo.before.threads[t].b == b
    && EventOf(mo.before, mo.e, b).Corrupt?
    && mo.before.boxes[b].log.flushed && mo.before.boxes[b].box.count != 0
  }

  /** Task t allocated message m, of that length, between the two positions. */
  ghost predicate AllocatedIn(h: seq<Moment>, from: nat, to: nat, t: Tid, len: int, m: MsgId) {
    exists i :: from <= i < to && i < |h| && h[i].e == Create(t, len, true, true) && h[i].before.ledger.next == m
  }

  lemma QuietStays(h: seq<Moment>, k: seq<Moment>, from: nat, to: nat, t: Tid)
    requires h <= k && QuietIn(h, from, to, t)
    ensures QuietIn(k, from, to, t)
  {
  }

  lemma QuietThen(h: seq<Moment>, k: seq<Moment>, from: nat, t: Tid)
    requires h <= k && QuietIn(h, from, |h|, t) && QuietIn(k, |h|, |k|, t)
    ensures QuietIn(k, from, |k|, t)
  {
  }

  lemma QuietMore(h: seq<Moment>, from: nat, mo: Moment, t: Tid)
    requires QuietIn(h, from, |h|, t) && Quiet(mo, t)
    ensures QuietIn(h + [mo], from, |h| + 1, t)
  {
  }

  /** Steps of a system call that no FIFO notices. */
  lemma QuietStep(x: System, e: Step, t: Tid)
    requires Enabled(x, e)
    requires e.Create? || e.CopyOut? || e.ReadCount? || e.GiveUp? || e.Release? || Actor(e) != t
    ensures Quiet(Moment(x, e), t)
  {
  }
}
