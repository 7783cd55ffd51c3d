/**
 Which spin locks each call takes, what it accesses under them and when it sleeps; why the
 locks cannot deadlock and guard what they are there for. A lock is only ever asked for while
 holding locks of a lower rank, nobody sleeps with one, and shared data is accessed only with
 its lock held, but for two reads the code makes without.
 */
module LockOrder {

  datatype Lock = TableLock | ModifyLock(b: nat) | ClaimLock(b: nat)

  /** The table lock comes first; the locks of mailboxes are never nested. */
  function Rank(l: Lock): nat { if l.TableLock? then 0 else 1 }

  /** Use(l) accesses what l guards: the table; the list, count, stop word and waiters of b; the
      claim count of b and those who wait for it. Peek(b) reads the count or the stop word of b
      without its lock. */
  datatype Op = Take(l: Lock) | Drop(l: Lock) | Use(l: Lock) | Peek(b: nat) | Nap

  // ---------------------------------------------------------------- what the operations do

  /** wait_event_..._locked: give the lock up, sleep, take it again and look, `naps` times. */
  function Waits(l: Lock, naps: nat): seq<Op> {
    if naps == 0 then [] else [Drop(l), Nap, Take(l), Use(l)] + Waits(l, naps - 1)
  }

  /** A critical section with naps. */
  function Locked(l: Lock, naps: nat): seq<Op> { [Take(l), Use(l)] + (Waits(l, naps) + [Drop(l)]) }

  /** A section on the table, with something inside. */
  function OnTable(inner: seq<Op>): seq<Op> {
    [Take(TableLock), Use(TableLock)] + (inner + [Drop(TableLock)])
  }

  /** get_mailbox_for_pid that hands out a mailbox, new or found: of one it found it reads the
      stop word, after the claim. */
  function GetMailbox(b: nat, found: bool): seq<Op> {
    OnTable(Locked(ClaimLock(b), 0) + (if found then [Peek(b)] else []))
  }

  /** get_mailbox_for_pid of a mailbox that is exiting: claimed and unclaimed again */
  function GetExiting(b: nat): seq<Op> {
    OnTable(Locked(ClaimLock(b), 0) + ([Peek(b)] + Locked(ClaimLock(b), 0)))
  }

  /** mailbox_add_message and mailbox_remove_message */
  function AddOrRemove(b: nat, naps: nat): seq<Op> { Locked(ModifyLock(b), naps) }

  /** __mailbox_stop */
  function Stop(b: nat): seq<Op> { Locked(ModifyLock(b), 0) }

  /** unclaim_mailbox */
  function Unclaim(b: nat): seq<Op> { Locked(ClaimLock(b), 0) }

  /** remove_mailbox_for_pid */
  function ExitHook(b: nat): seq<Op> { OnTable(Locked(ModifyLock(b), 0)) }

  /** mailbox_deletion_thread, polling `polls` times: unlink, stop, flush, wait for claims */
  function Deletion(b: nat, polls: nat, naps: nat, claimNaps: nat): seq<Op> {
    seq(polls, _ => Nap)
    + (OnTable([]) + (Stop(b) + (Locked(ModifyLock(b), naps) + Locked(ClaimLock(b), claimNaps))))
  }

  // ---------------------------------------------------------------- whole calls

  /** What a task can ask of the module, by the path the call takes through the code. */
  datatype Call =
    | InvalidPid
    | NoMailbox
    | Exiting(b: nat)
    | SendUnmade(b: nat, found: bool)
    | Send(b: nat, found: bool, naps: nat)
    | Receive(b: nat, found: bool, naps: nat)
    | ReceiveAndPutBack(b: nat, found: bool, naps: nat, backNaps: nat)
    | Count(b: nat, found: bool)
    | CountAndStop(b: nat, found: bool)
    | ExitWithout
    | Exit(b: nat)
    | Delete(b: nat, polls: nat, naps: nat, claimNaps: nat)

  /** The operations of a whole call. */
  function LocksOf(c: Call): seq<Op> {
    match c
    case InvalidPid => []
    case NoMailbox => OnTable([])
    case Exiting(b) => GetExiting(b)
    case SendUnmade(b, found) => GetMailbox(b, found) + Unclaim(b)
    case Send(b, found, naps) => GetMailbox(b, found) + (AddOrRemove(b, naps) + Unclaim(b))
    case Receive(b, found, naps) => GetMailbox(b, found) + (AddOrRemove(b, naps) + Unclaim(b))
    case ReceiveAndPutBack(b, found, naps, backNaps) =>
      GetMailbox(b, found) + (AddOrRemove(b, naps) + (AddOrRemove(b, backNaps) + Unclaim(b)))
    case Count(b, found) => GetMailbox(b, found) + ([Peek(b)] + Unclaim(b))
    case CountAndStop(b, found) => GetMailbox(b, found) + ([Peek(b)] + (Stop(b) + Unclaim(b)))
    case ExitWithout => OnTable([])
    case Exit(b) => ExitHook(b)
    case Delete(b, polls, naps, claimNaps) => Deletion(b, polls, naps, claimNaps)
  }

  /** The operations of one call after another. */
  function LocksOfAll(calls: seq<Call>): seq<Op> {
    if calls == [] then [] else LocksOf(calls[0]) + LocksOfAll(calls[1..])
  }

  // ---------------------------------------------------------------- discipline

  /** From `held` to `held'`, the operations take locks in rank order, drop the last one taken,
      sleep with none, and access what a lock guards only while it is held. */
  ghost predicate Leads(ops: seq<Op>, held: seq<Lock>, held': seq<Lock>)
    decreases |ops|
  {
    if ops == [] then held == held'
    else match ops[0]
      case Take(l) => (forall k :: k in held ==> Rank(k) < Rank(l)) && Leads(ops[1..], held + [l], held')
      case Drop(l) => held != [] && held[|held| - 1] == l && Leads(ops[1..], held[..|held| - 1], held')
      case Use(l) => l in held && Leads(ops[1..], held, held')
      case Peek(_) => Leads(ops[1..], held, held')
      case Nap => held == [] && Leads(ops[1..], held, held')
  }

  /** ... and end with no lock. */
  ghost predicate Disciplined(ops: seq<Op>, held: seq<Lock>) { Leads(ops, held, []) }

  /** One after the other. */
  lemma {:induction false} Compose(p: seq<Op>, q: seq<Op>, held: seq<Lock>, mid: seq<Lock>, end: seq<Lock>)
    requires Leads(p, held, mid) && Leads(q, mid, end)
    ensures Leads(p + q, held, end)
    decreases |p|
  {
    if p == [] {
      assert p + q == q;
    } else {
      assert (p + q)[0] == p[0] && (p + q)[1..] == p[1..] + q;
      match p[0]
      case Take(l) => Compose(p[1..], q, held + [l], mid, end);
      case Drop(l) => Compose(p[1..], q, held[..|held| - 1], mid, end);
      case _ => Compose(p[1..], q, held, mid, end);
    }
  }

  /** Nothing, an entry, an exit and an unlocked read. */
  lemma Pieces(l: Lock, held: seq<Lock>, b: nat)
    ensures Leads([], held, held) && Leads([Peek(b)], held, held) && Leads([Drop(l)], held + [l], held)
    ensures (forall k :: k in held ==> Rank(k) < Rank(l)) ==> Leads([Take(l), Use(l)], held, held + [l])
  {
    assert [Peek(b)][1..] == [] && [Drop(l)][1..] == [] && (held + [l])[..|held|] == held;
    assert [Take(l), Use(l)][1..] == [Use(l)] && [Use(l)][1..] == [];
    assert Leads([Use(l)], held + [l], held + [l]);
  }

  lemma {:induction false} WaitsLead(l: Lock, naps: nat)
    ensures Leads(Waits(l, naps), [l], [l])
  {
    Pieces(l, [], 0);
    assert [] + [l] == [l];
    if naps > 0 {
      WaitsLead(l, naps - 1);
      var nap := [Nap] + [Take(l), Use(l)];
      assert nap[1..] == [Take(l), Use(l)];
      assert Leads(nap, [], [l]);
      hide Leads;
      Compose([Drop(l)], nap, [l], [], [l]);
      Compose([Drop(l)] + nap, Waits(l, naps - 1), [l], [l], [l]);
      assert ([Drop(l)] + nap) + Waits(l, naps - 1) == Waits(l, naps);
    }
  }

  /** A section leads back to the locks it started with; one with naps starts with none. */
  lemma LockedLeads(l: Lock, naps: nat, held: seq<Lock>)
    requires if naps == 0 then forall k :: k in held ==> Rank(k) < Rank(l) else held == []
    ensures Leads(Locked(l, naps), held, held)
  {
    Pieces(l, held, 0);
    if naps > 0 { WaitsLead(l, naps); assert held + [l] == [l]; }
    hide Leads;
    Compose(Waits(l, naps), [Drop(l)], held + [l], held + [l], held);
    Compose([Take(l), Use(l)], Waits(l, naps) + [Drop(l)], held, held + [l], held);
  }

  lemma OnTableLeads(inner: seq<Op>)
    requires Leads(inner, [TableLock], [TableLock])
    ensures Leads(OnTable(inner), [], [])
  {
    Pieces(TableLock, [], 0);
    assert [] + [TableLock] == [TableLock];
    hide Leads;
    Compose(inner, [Drop(TableLock)], [TableLock], [TableLock], []);
    Compose([Take(TableLock), Use(TableLock)], inner + [Drop(TableLock)], [], [TableLock], []);
  }

  lemma {:induction false} PollingLeads(polls: nat)
    ensures Leads(seq(polls, _ => Nap), [], [])
    decreases polls
  {
    if polls > 0 {
      PollingLeads(polls - 1);
      assert seq(polls, _ => Nap)[1..] == seq(polls - 1, _ => Nap);
    }
  }

  /** Every operation of the module is disciplined. */
  lemma OperationsDisciplined(b: nat, found: bool, polls: nat, naps: nat, claimNaps: nat)
    ensures Disciplined(GetMailbox(b, found), []) && Disciplined(GetExiting(b), []) && Disciplined(OnTable([]), [])
    ensures Disciplined(AddOrRemove(b, naps), []) && Disciplined(Stop(b), []) && Disciplined(Unclaim(b), [])
    ensures Disciplined(ExitHook(b), []) && Disciplined(Deletion(b, polls, naps, claimNaps), [])
  {
    var claim, table := Locked(ClaimLock(b), 0), [TableLock];
    Pieces(TableLock, table, b);
    hide Leads;
    LockedLeads(ClaimLock(b), 0, table);
    LockedLeads(ModifyLock(b), 0, table);
    LockedLeads(ClaimLock(b), 0, []);
    LockedLeads(ModifyLock(b), 0, []);
    LockedLeads(ModifyLock(b), naps, []);
    LockedLeads(ClaimLock(b), claimNaps, []);
    hide Locked;
    Compose(claim, if found then [Peek(b)] else [], table, table, table);
    OnTableLeads(claim + (if found then [Peek(b)] else []));
    Compose([Peek(b)], claim, table, table, table);
    Compose(claim, [Peek(b)] + claim, table, table, table);
    OnTableLeads(claim + ([Peek(b)] + claim));
    OnTableLeads(Locked(ModifyLock(b), 0));
    OnTableLeads([]);
    hide OnTable;
    PollingLeads(polls);
    var flush, await := Locked(ModifyLock(b), naps), Locked(ClaimLock(b), claimNaps);
    Compose(flush, await, [], [], []);
    Compose(Stop(b), flush + await, [], [], []);
    Compose(OnTable([]), Stop(b) + (flush + await), [], [], []);
    Compose(seq(polls, _ => Nap), OnTable([]) + (Stop(b) + (flush + await)), [], [], []);
  }

  /** Every call, on every path, is disciplined. */
  lemma CallDisciplined(c: Call)
    ensures Disciplined(LocksOf(c), [])
  {
    NothingDisciplined();
    hide Disciplined;
    hide Locked;
    hide OnTable;
    match c
    case InvalidPid =>
    case NoMailbox => OperationsDisciplined(0, false, 0, 0, 0);
    case ExitWithout => OperationsDisciplined(0, false, 0, 0, 0);
    case Exiting(b) => OperationsDisciplined(b, false, 0, 0, 0);
    case Exit(b) => OperationsDisciplined(b, false, 0, 0, 0);
    case Delete(b, polls, naps, claimNaps) => OperationsDisciplined(b, false, polls, naps, claimNaps);
    case SendUnmade(b, found) => UnmadeDisciplined(b, found);
    case Send(b, found, naps) => ClaimedDisciplined(b, found, naps);
    case Receive(b, found, naps) => ClaimedDisciplined(b, found, naps);
    case ReceiveAndPutBack(b, found, naps, backNaps) => PutBackDisciplined(b, found, naps, backNaps);
    case Count(b, found) => CountDisciplined(b, found);
    case CountAndStop(b, found) => CountDisciplined(b, found);
  }

  lemma NothingDisciplined()
    ensures Disciplined([], [])
  {
  }

  lemma PutBackDisciplined(b: nat, found: bool, naps: nat, backNaps: nat)
    ensures Disciplined(LocksOf(ReceiveAndPutBack(b, found, naps, backNaps)), [])
  {
    hide Leads;
    OperationsDisciplined(b, found, 0, naps, 0);
    OperationsDisciplined(b, found, 0, backNaps, 0);
    Compose(AddOrRemove(b, backNaps), Unclaim(b), [], [], []);
    Compose(AddOrRemove(b, naps), AddOrRemove(b, backNaps) + Unclaim(b), [], [], []);
    Compose(GetMailbox(b, found), AddOrRemove(b, naps) + (AddOrRemove(b, backNaps) + Unclaim(b)), [], [], []);
  }

  lemma CountDisciplined(b: nat, found: bool)
    ensures Disciplined(LocksOf(Count(b, found)), []) && Disciplined(LocksOf(CountAndStop(b, found)), [])
  {
    Pieces(TableLock, [], b);
    hide Leads;
    OperationsDisciplined(b, found, 0, 0, 0);
    Compose([Peek(b)], Unclaim(b), [], [], []);
    Compose(GetMailbox(b, found), [Peek(b)] + Unclaim(b), [], [], []);
    Compose(Stop(b), Unclaim(b), [], [], []);
    Compose([Peek(b)], Stop(b) + Unclaim(b), [], [], []);
    Compose(GetMailbox(b, found), [Peek(b)] + (Stop(b) + Unclaim(b)), [], [], []);
  }

  lemma UnmadeDisciplined(b: nat, found: bool)
    ensures Disciplined(LocksOf(SendUnmade(b, found)), [])
  {
    hide Leads;
    OperationsDisciplined(b, found, 0, 0, 0);
    Compose(GetMailbox(b, found), Unclaim(b), [], [], []);
  }

  lemma ClaimedDisciplined(b: nat, found: bool, naps: nat)
    ensures Disciplined(GetMailbox(b, found) + (AddOrRemove(b, naps) + Unclaim(b)), [])
  {
    hide Leads;
    OperationsDisciplined(b, found, 0, naps, 0);
    Compose(AddOrRemove(b, naps), Unclaim(b), [], [], []);
    Compose(GetMailbox(b, found), AddOrRemove(b, naps) + Unclaim(b), [], [], []);
  }

  /** Every sequence of calls is disciplined. */
  lemma {:induction false} CallsDisciplined(calls: seq<Call>)
    ensures Disciplined(LocksOfAll(calls), [])
  {
    hide LocksOf;
    if calls != [] {
      CallDisciplined(calls[0]);
      CallsDisciplined(calls[1..]);
      Compose(LocksOf(calls[0]), LocksOfAll(calls[1..]), [], [], []);
    }
  }

  // ---------------------------------------------------------------- what is accessed

  predicate IsAccess(op: Op) { op.Use? || op.Peek? }

  /** The accesses among the operations, in order. */
  function Accesses(ops: seq<Op>): seq<Op> {
    if ops == [] then [] else (if IsAccess(ops[0]) then [ops[0]] else []) + Accesses(ops[1..])
  }

  function Times(op: Op, n: nat): seq<Op> { seq(n, _ => op) }

  lemma TimesConcat(op: Op, m: nat, n: nat)
    ensures Times(op, m) + Times(op, n) == Times(op, m + n)
  {
  }

  /** What a call has to access: the table and the claim count (and, of a mailbox it finds, the
      stop word, unlocked) to get its mailbox; the mailbox once, and again after every nap, to
      add or remove; the count, unlocked, and the stop word to manage; the claim count to leave. */
  function NeedsOf(c: Call): seq<Op> {
    match c
    case InvalidPid => []
    case NoMailbox => [Use(TableLock)]
    case Exiting(b) => [Use(TableLock), Use(ClaimLock(b)), Peek(b), Use(ClaimLock(b))]
    case SendUnmade(b, found) => Got(b, found) + [Use(ClaimLock(b))]
    case Send(b, found, naps) => Got(b, found) + Times(Use(ModifyLock(b)), naps + 1) + [Use(ClaimLock(b))]
    case Receive(b, found, naps) => Got(b, found) + Times(Use(ModifyLock(b)), naps + 1) + [Use(ClaimLock(b))]
    case ReceiveAndPutBack(b, found, naps, backNaps) =>
      Got(b, found) + Times(Use(ModifyLock(b)), naps + 1 + backNaps + 1) + [Use(ClaimLock(b))]
    case Count(b, found) => Got(b, found) + [Peek(b), Use(ClaimLock(b))]
    case CountAndStop(b, found) => Got(b, found) + [Peek(b), Use(ModifyLock(b)), Use(ClaimLock(b))]
    case ExitWithout => [Use(TableLock)]
    case Exit(b) => [Use(TableLock), Use(ModifyLock(b))]
    case Delete(b, _, naps, claimNaps) =>
      [Use(TableLock)] + Times(Use(ModifyLock(b)), 1 + naps + 1) + Times(Use(ClaimLock(b)), claimNaps + 1)
  }

  function Got(b: nat, found: bool): seq<Op> {
    [Use(TableLock), Use(ClaimLock(b))] + (if found then [Peek(b)] else [])
  }

  lemma {:induction false} AccessesConcat(p: seq<Op>, q: seq<Op>)
    ensures Accesses(p + q) == Accesses(p) + Accesses(q)
  {
    if p == [] {
      assert p + q == q;
    } else {
      AccessesConcat(p[1..], q);
      assert (p + q)[0] == p[0] && (p + q)[1..] == p[1..] + q;
      var a, b, c := if IsAccess(p[0]) then [p[0]] else [], Accesses(p[1..]), Accesses(q);
      assert a + (b + c) == (a + b) + c;
    }
  }

  lemma NoAccess(op: Op)
    ensures Accesses([op]) == if IsAccess(op) then [op] else []
  {
    assert [op][1..] == [];
  }

  lemma {:induction false} WaitsAccess(l: Lock, naps: nat)
    ensures Accesses(Waits(l, naps)) == Times(Use(l), naps)
  {
    if naps > 0 {
      WaitsAccess(l, naps - 1);
      var nap := [Drop(l), Nap, Take(l), Use(l)];
      AccessesConcat(nap, Waits(l, naps - 1));
      assert nap == [Drop(l)] + ([Nap] + ([Take(l)] + [Use(l)]));
      SingleAccesses(l);
      assert [Use(l)] + Times(Use(l), naps - 1) == Times(Use(l), naps);
    }
  }

  lemma SingleAccesses(l: Lock)
    ensures Accesses([Drop(l), Nap, Take(l), Use(l)]) == [Use(l)]
    ensures Accesses([Take(l), Use(l)]) == [Use(l)] && Accesses([Drop(l)]) == []
  {
    NoAccess(Drop(l));
    NoAccess(Take(l));
    NoAccess(Nap);
    NoAccess(Use(l));
    AccessesConcat([Take(l)], [Use(l)]);
    AccessesConcat([Nap], [Take(l)] + [Use(l)]);
    AccessesConcat([Drop(l)], [Nap] + ([Take(l)] + [Use(l)]));
    assert [Take(l), Use(l)] == [Take(l)] + [Use(l)];
    assert [Drop(l), Nap, Take(l), Use(l)] == [Drop(l)] + ([Nap] + ([Take(l)] + [Use(l)]));
  }

  lemma LockedAccesses(l: Lock, naps: nat)
    ensures Accesses(Locked(l, naps)) == Times(Use(l), naps + 1)
  {
    WaitsAccess(l, naps);
    SingleAccesses(l);
    hide Accesses;
    AccessesConcat(Waits(l, naps), [Drop(l)]);
    AccessesConcat([Take(l), Use(l)], Waits(l, naps) + [Drop(l)]);
    assert [Use(l)] + Times(Use(l), naps) == Times(Use(l), naps + 1);
  }

  lemma OnTableAccesses(inner: seq<Op>)
    ensures Accesses(OnTable(inner)) == [Use(TableLock)] + Accesses(inner)
  {
    SingleAccesses(TableLock);
    hide Accesses;
    AccessesConcat(inner, [Drop(TableLock)]);
    AccessesConcat([Take(TableLock), Use(TableLock)], inner + [Drop(TableLock)]);
  }

  lemma GotAccesses(b: nat, found: bool)
    ensures Accesses(GetMailbox(b, found)) == Got(b, found)
    ensures Accesses(Unclaim(b)) == [Use(ClaimLock(b))]
  {
    var claim := Locked(ClaimLock(b), 0);
    NoAccess(Peek(b));
    LockedAccesses(ClaimLock(b), 0);
    assert Times(Use(ClaimLock(b)), 1) == [Use(ClaimLock(b))];
    AccessesConcat(claim, if found then [Peek(b)] else []);
    OnTableAccesses(claim + (if found then [Peek(b)] else []));
    hide Accesses;
  }

  lemma {:induction false} PollingAccesses(polls: nat)
    ensures Accesses(seq(polls, _ => Nap)) == []
  {
    if polls > 0 {
      PollingAccesses(polls - 1);
      assert seq(polls, _ => Nap)[1..] == seq(polls - 1, _ => Nap);
    }
  }

  /** Every call, on every path, makes exactly the accesses it has to make, in that order. With
      CallDisciplined: each of them under its lock, but for the two unlocked reads. */
  lemma CallAccesses(c: Call)
    ensures Accesses(LocksOf(c)) == NeedsOf(c)
  {
    hide Accesses;
    hide Locked;
    NothingAccesses();
    match c
    case InvalidPid =>
    case NoMailbox => OnTableAccesses([]);
    case ExitWithout => OnTableAccesses([]);
    case Exiting(b) => ExitingAccesses(b);
    case Exit(b) => ExitAccesses(b);
    case SendUnmade(b, found) => UnmadeAccesses(b, found);
    case Send(b, found, naps) => ClaimedAccesses(b, found, naps);
    case Receive(b, found, naps) => ClaimedAccesses(b, found, naps);
    case ReceiveAndPutBack(b, found, naps, backNaps) => PutBackAccesses(b, found, naps, backNaps);
    case Count(b, found) => CountAccesses(b, found);
    case CountAndStop(b, found) => CountAccesses(b, found);
    case Delete(b, polls, naps, claimNaps) => DeletionAccesses(b, polls, naps, claimNaps);
  }

  lemma ExitAccesses(b: nat)
    ensures Accesses(LocksOf(Exit(b))) == NeedsOf(Exit(b))
  {
    hide Accesses;
    LockedAccesses(ModifyLock(b), 0);
    OnTableAccesses(Locked(ModifyLock(b), 0));
  }

  lemma UnmadeAccesses(b: nat, found: bool)
    ensures Accesses(LocksOf(SendUnmade(b, found))) == NeedsOf(SendUnmade(b, found))
  {
    hide Accesses;
    GotAccesses(b, found);
    AccessesConcat(GetMailbox(b, found), Unclaim(b));
  }

  lemma NothingAccesses()
    ensures Accesses([]) == []
  {
  }

  lemma ExitingAccesses(b: nat)
    ensures Accesses(GetExiting(b)) == NeedsOf(Exiting(b))
  {
    var claim := Locked(ClaimLock(b), 0);
    NoAccess(Peek(b));
    hide Accesses;
    LockedAccesses(ClaimLock(b), 0);
    AccessesConcat([Peek(b)], claim);
    AccessesConcat(claim, [Peek(b)] + claim);
    OnTableAccesses(claim + ([Peek(b)] + claim));
  }

  lemma ClaimedAccesses(b: nat, found: bool, naps: nat)
    ensures Accesses(LocksOf(Send(b, found, naps))) == NeedsOf(Send(b, found, naps))
  {
    hide Accesses;
    GotAccesses(b, found);
    LockedAccesses(ModifyLock(b), naps);
    AccessesConcat(AddOrRemove(b, naps), Unclaim(b));
    AccessesConcat(GetMailbox(b, found), AddOrRemove(b, naps) + Unclaim(b));
  }

  lemma PutBackAccesses(b: nat, found: bool, naps: nat, backNaps: nat)
    ensures var c := ReceiveAndPutBack(b, found, naps, backNaps); Accesses(LocksOf(c)) == NeedsOf(c)
  {
    hide Accesses;
    GotAccesses(b, found);
    LockedAccesses(ModifyLock(b), naps);
    LockedAccesses(ModifyLock(b), backNaps);
    AccessesConcat(AddOrRemove(b, backNaps), Unclaim(b));
    AccessesConcat(AddOrRemove(b, naps), AddOrRemove(b, backNaps) + Unclaim(b));
    AccessesConcat(GetMailbox(b, found), AddOrRemove(b, naps) + (AddOrRemove(b, backNaps) + Unclaim(b)));
    TimesConcat(Use(ModifyLock(b)), naps + 1, backNaps + 1);
  }

  lemma CountAccesses(b: nat, found: bool)
    ensures Accesses(LocksOf(Count(b, found))) == NeedsOf(Count(b, found))
    ensures Accesses(LocksOf(CountAndStop(b, found))) == NeedsOf(CountAndStop(b, found))
  {
    NoAccess(Peek(b));
    hide Accesses;
    GotAccesses(b, found);
    LockedAccesses(ModifyLock(b), 0);
    AccessesConcat([Peek(b)], Unclaim(b));
    AccessesConcat(GetMailbox(b, found), [Peek(b)] + Unclaim(b));
    AccessesConcat(Stop(b), Unclaim(b));
    AccessesConcat([Peek(b)], Stop(b) + Unclaim(b));
    AccessesConcat(GetMailbox(b, found), [Peek(b)] + (Stop(b) + Unclaim(b)));
  }

  lemma DeletionAccesses(b: nat, polls: nat, naps: nat, claimNaps: nat)
    ensures var c := Delete(b, polls, naps, claimNaps); Accesses(LocksOf(c)) == NeedsOf(c)
  {
    OnTableAccesses([]);
    NothingAccesses();
    hide Accesses;
    PollingAccesses(polls);
    LockedAccesses(ModifyLock(b), 0);
    LockedAccesses(ModifyLock(b), naps);
    LockedAccesses(ClaimLock(b), claimNaps);
    hide Locked;
    hide OnTable;
    var flush, await := Locked(ModifyLock(b), naps), Locked(ClaimLock(b), claimNaps);
    AccessesConcat(flush, await);
    AccessesConcat(Stop(b), flush + await);
    AccessesConcat(OnTable([]), Stop(b) + (flush + await));
    AccessesConcat(seq(polls, _ => Nap), OnTable([]) + (Stop(b) + (flush + await)));
    var use, claims := Use(ModifyLock(b)), Times(Use(ClaimLock(b)), claimNaps + 1);
    TimesConcat(use, 1, naps + 1);
    hide Times;
    assert Times(use, 1) + (Times(use, naps + 1) + claims) == Times(use, 1 + (naps + 1)) + claims;
    assert 1 + (naps + 1) == 1 + naps + 1;
  }

  // ---------------------------------------------------------------- tasks

  /** What a task still has to do, and the locks it holds. */
  datatype Task = Task(todo: seq<Op>, held: seq<Lock>)

  ghost predicate Free(ts: seq<Task>, l: Lock) {
    forall t :: 0 <= t < |ts| ==> l !in ts[t].held
  }

  /** A task can run unless it is done or spins on a lock that is held. */
  ghost predicate CanRun(ts: seq<Task>, t: nat)
    requires t < |ts|
  {
    ts[t].todo != [] && (ts[t].todo[0].Take? ==> Free(ts, ts[t].todo[0].l))
  }

  function Ran(task: Task): Task
    requires task.todo != [] && (task.todo[0].Drop? ==> task.held != [])
  {
    var rest := task.todo[1..];
    match task.todo[0]
    case Take(l) => Task(rest, task.held + [l])
    case Drop(_) => Task(rest, task.held[..|task.held| - 1])
    case _ => Task(rest, task.held)
  }

  ghost predicate Ordered(ts: seq<Task>) {
    && (forall t :: 0 <= t < |ts| ==> Disciplined(ts[t].todo, ts[t].held))
    && (forall t, u, l :: 0 <= t < |ts| && 0 <= u < |ts| && l in ts[t].held && l in ts[u].held ==> t == u)
  }

  /** Every step keeps the discipline and mutual exclusion. */
  lemma RunOrdered(ts: seq<Task>, t: nat)
    requires Ordered(ts) && t < |ts| && CanRun(ts, t)
    ensures ts[t].todo[0].Drop? ==> ts[t].held != []
    ensures Ordered(ts[t := Ran(ts[t])])
  {
  }

  ghost predicate Schedule(ts: seq<Task>, who: seq<nat>)
    decreases |who|
  {
    who == [] || (who[0] < |ts| && CanRun(ts, who[0])
                  && (ts[who[0]].todo[0].Drop? ==> ts[who[0]].held != [])
                  && Schedule(ts[who[0] := Ran(ts[who[0]])], who[1..]))
  }

  ghost function Later(ts: seq<Task>, who: seq<nat>): seq<Task>
    requires Schedule(ts, who)
    decreases |who|
  {
    if who == [] then ts else Later(ts[who[0] := Ran(ts[who[0]])], who[1..])
  }

  lemma {:induction false} ScheduleOrdered(ts: seq<Task>, who: seq<nat>)
    requires Ordered(ts) && Schedule(ts, who)
    ensures Ordered(Later(ts, who)) && |Later(ts, who)| == |ts|
    decreases |who|
  {
    hide Ordered;
    if who != [] {
      RunOrdered(ts, who[0]);
      ScheduleOrdered(ts[who[0] := Ran(ts[who[0]])], who[1..]);
    }
  }

  /** From a spinning task, follow the holders to one that can run. */
  lemma {:induction false} Unblocked(ts: seq<Task>, t: nat) returns (u: nat)
    requires Ordered(ts) && t < |ts| && ts[t].todo != []
    ensures u < |ts| && CanRun(ts, u)
    decreases if ts[t].todo[0].Take? then 2 - Rank(ts[t].todo[0].l) else 0
  {
    if CanRun(ts, t) {
      u := t;
    } else {
      var v :| 0 <= v < |ts| && ts[t].todo[0].l in ts[v].held;
      if CanRun(ts, v) {
        u := v;
      } else {
        u := Unblocked(ts, v);
      }
    }
  }

  /** Rank-ordered tasks that start with no lock never get stuck on spin locks, whatever the
      schedule; and whoever is about to sleep holds none. */
  lemma OrderedNoDeadlock(ts: seq<Task>, who: seq<nat>)
    requires forall t :: 0 <= t < |ts| ==> ts[t].held == [] && Disciplined(ts[t].todo, [])
    requires Schedule(ts, who)
    ensures var z := Later(ts, who);
            && |z| == |ts|
            && (forall t :: 0 <= t < |z| && z[t].todo != [] && z[t].todo[0].Nap? ==> z[t].held == [])
            && ((exists t :: 0 <= t < |z| && z[t].todo != []) ==> exists u :: 0 <= u < |z| && CanRun(z, u))
  {
    ScheduleOrdered(ts, who);
    var z := Later(ts, who);
    forall t | 0 <= t < |z| && z[t].todo != [] && z[t].todo[0].Nap? ensures z[t].held == [] {
      assert Disciplined(z[t].todo, z[t].held);
    }
    if t :| 0 <= t < |z| && z[t].todo != [] {
      var u := Unblocked(z, t);
    }
  }

  /** The task's next operation accesses what l guards. */
  predicate IsAbout(task: Task, l: Lock) { task.todo != [] && task.todo[0] == Use(l) }

  /** Tasks outside the module, each with its calls ahead of it. */
  function Loaded(programs: seq<seq<Call>>): (ts: seq<Task>)
    ensures |ts| == |programs| && forall t :: 0 <= t < |ts| ==> ts[t] == Task(LocksOfAll(programs[t]), [])
  {
    seq(|programs|, t requires 0 <= t < |programs| => Task(LocksOfAll(programs[t]), []))
  }

  /** No deadlock: any number of tasks, each making any calls on any mailboxes one after the
      other, never get stuck on spin locks, whatever the schedule: while a call is unfinished
      some task can run. Nobody sleeps with a lock, no lock has two holders, a task that is done
      holds none, and no two tasks are ever about to access what the same lock guards. */
  lemma NoDeadlock(programs: seq<seq<Call>>, who: seq<nat>)
    requires Schedule(Loaded(programs), who)
    ensures var z := Later(Loaded(programs), who);
            && |z| == |programs|
            && (forall t :: 0 <= t < |z| && z[t].todo != [] && z[t].todo[0].Nap? ==> z[t].held == [])
            && (forall t :: 0 <= t < |z| && z[t].todo == [] ==> z[t].held == [])
            && (forall t, u, l :: 0 <= t < |z| && 0 <= u < |z| && l in z[t].held && l in z[u].held ==> t == u)
            && (forall t, u, l :: 0 <= t < |z| && 0 <= u < |z| && IsAbout(z[t], l) && IsAbout(z[u], l) ==> t == u)
            && ((exists t :: 0 <= t < |z| && z[t].todo != []) ==> exists u :: 0 <= u < |z| && CanRun(z, u))
  {
    hide LocksOfAll;
    var ts := Loaded(programs);
    forall t | 0 <= t < |ts| ensures Disciplined(ts[t].todo, []) { CallsDisciplined(programs[t]); }
    assert Ordered(ts);
    OrderedNoDeadlock(ts, who);
    ScheduleOrdered(ts, who);
    var z := Later(ts, who);
    forall t | 0 <= t < |z| && z[t].todo == [] ensures z[t].held == [] {
      assert Disciplined(z[t].todo, z[t].held);
    }
    forall t, l | 0 <= t < |z| && IsAbout(z[t], l) ensures l in z[t].held {
      assert Disciplined(z[t].todo, z[t].held);
    }
  }
}
