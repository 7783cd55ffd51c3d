/**
 Which messages are leaked, read off the events of a run.
 */
module Leaks {
  import opened Codes
  import opened MailboxSpec
  import opened BoundedFifo
  import opened Protocol
  import opened StepFacts
  import opened Conservation
  import opened Refinement

  /** The event is an add of m that returned an error. */
  predicate Refuses(ev: Event, m: MsgId) { ev.Added? && ev.m == m && ev.code != 0 }

  /** Some mailbox shows, in the run, an add of m that returned an error. */
  ghost predicate RefusedIn(s: System, run: seq<Step>, m: MsgId)
    requires Run(s, run)
  {
    exists b: BoxId, ev :: ev in Trace(s, run, b) && Refuses(ev, m)
  }

  /** The step refuses m exactly if some mailbox shows it. */
  lemma StepRefuses(s: System, e: Step, m: MsgId)
    requires Enabled(s, e)
    ensures m in Next(s, e).ledger.refused
       <==> m in s.ledger.refused || exists b: BoxId :: Refuses(EventOf(s, e, b), m)
  {
    hide Next;
    RefusedExactly(s, e, m);
    hide AddSection;
    hide RemoveSection;
    if e.EnterAdd? || e.ResumeAdd? {
      var b := s.threads[e.t].b;
      assert Refuses(EventOf(s, e, b), m)
        <==> s.threads[e.t].pc.m == m && AddSection(s, e).1.Done? && AddSection(s, e).1.code != 0;
    }
  }

  /** A run refuses exactly the messages whose Added event in it carries an error code. */
  lemma {:induction false} RunRefuses(s: System, run: seq<Step>, m: MsgId)
    requires Run(s, run)
    ensures m in After(s, run).ledger.refused <==> m in s.ledger.refused || RefusedIn(s, run, m)
    decreases |run|
  {
    hide Next;
    hide EventOf;
    hide Refuses;
    if run != [] {
      var e, rest := run[0], run[1..];
      assert run == [e] + rest;
      StepRefuses(s, e, m);
      RunRefuses(Next(s, e), rest, m);
      assert forall b: BoxId, ev :: ev in Trace(s, run, b) <==> ev == EventOf(s, e, b) || ev in Trace(Next(s, e), rest, b);
      if b: BoxId :| Refuses(EventOf(s, e, b), m) {
        assert EventOf(s, e, b) in Trace(s, run, b);
      }
      if RefusedIn(Next(s, e), rest, m) {
        var b: BoxId, ev :| ev in Trace(Next(s, e), rest, b) && Refuses(ev, m);
        assert ev in Trace(s, run, b);
      }
    }
  }

  /** After any run since module load, the leaked messages are exactly those whose add, by a
      send or a put-back, returned an error somewhere in the run. */
  lemma LeakedOverRun(init: System, run: seq<Step>, m: MsgId)
    requires Initial(init) && Run(init, run)
    ensures Leaked(After(init, run), m) <==> RefusedIn(init, run, m)
  {
    RunRefuses(init, run, m);
    LeakedExactly(After(init, run), m);
  }
}
