/**
 The shared-memory pid allocator: one fixed array of nodes, threaded into a list of free
 nodes and a list of active ones. A link is an index into the array, NIL where the code has
 a null pointer. The semaphore makes each operation exclusive.
 */
module PidLists {
  const MAX_PIDS := 100
  const NIL := -1
  const NO_PID := -1

  /** Node indices, each once. */
  ghost predicate Nodes(nodes: seq<int>) {
    && (forall i :: 0 <= i < |nodes| ==> 0 <= nodes[i] < MAX_PIDS)
    && (forall i, j :: 0 <= i < j < |nodes| ==> nodes[i] != nodes[j])
  }

  ghost predicate NextAt(nodes: seq<int>, next: seq<int>, i: nat)
    requires Nodes(nodes) && |next| == MAX_PIDS && i < |nodes|
  {
    next[nodes[i]] == if i == |nodes| - 1 then NIL else nodes[i + 1]
  }

  ghost predicate PrevAt(nodes: seq<int>, prev: seq<int>, i: nat)
    requires Nodes(nodes) && |prev| == MAX_PIDS && i < |nodes|
  {
    prev[nodes[i]] == if i == 0 then NIL else nodes[i - 1]
  }

  ghost predicate Forward(nodes: seq<int>, next: seq<int>)
    requires Nodes(nodes) && |next| == MAX_PIDS
  {
    forall i :: 0 <= i < |nodes| ==> NextAt(nodes, next, i)
  }

  ghost predicate Backward(nodes: seq<int>, prev: seq<int>)
    requires Nodes(nodes) && |prev| == MAX_PIDS
  {
    forall i :: 0 <= i < |nodes| ==> PrevAt(nodes, prev, i)
  }

  /** nodes is a doubly linked list through next and prev. */
  ghost predicate Chained(nodes: seq<int>, next: seq<int>, prev: seq<int>) {
    && |next| == MAX_PIDS && |prev| == MAX_PIDS && Nodes(nodes)
    && Forward(nodes, next) && Backward(nodes, prev)
  }

  function Minus(s: seq<int>, k: nat): seq<int>
    requires k < |s|
  {
    s[..k] + s[k + 1..]
  }

  /** next and prev after the node at position k was taken out. */
  function UnlinkedNext(nodes: seq<int>, k: nat, next: seq<int>): seq<int>
    requires k < |nodes| && forall i :: 0 <= i < |nodes| ==> 0 <= nodes[i] < |next|
  {
    (if k > 0 then next[nodes[k - 1] := next[nodes[k]]] else next)[nodes[k] := NIL]
  }

  function UnlinkedPrev(nodes: seq<int>, k: nat, prev: seq<int>): seq<int>
    requires k < |nodes| && forall i :: 0 <= i < |nodes| ==> 0 <= nodes[i] < |prev|
  {
    (if k < |nodes| - 1 then prev[nodes[k + 1] := prev[nodes[k]]] else prev)[nodes[k] := NIL]
  }

  lemma MinusAt(s: seq<int>, k: nat, i: nat)
    requires k < |s| && i < |s| - 1
    ensures |Minus(s, k)| == |s| - 1 && Minus(s, k)[i] == if i < k then s[i] else s[i + 1]
  {
  }

  lemma MinusNodes(nodes: seq<int>, k: nat)
    requires Nodes(nodes) && k < |nodes|
    ensures Nodes(Minus(nodes, k))
  {
  }

  lemma UnlinkForward(nodes: seq<int>, k: nat, next: seq<int>)
    requires Nodes(nodes) && |next| == MAX_PIDS && Forward(nodes, next) && k < |nodes|
    ensures Nodes(Minus(nodes, k)) && Forward(Minus(nodes, k), UnlinkedNext(nodes, k, next))
  {
    MinusNodes(nodes, k);
    var r, next' := Minus(nodes, k), UnlinkedNext(nodes, k, next);
    forall i | 0 <= i < |r| ensures NextAt(r, next', i) {
      assert NextAt(nodes, next, k) && NextAt(nodes, next, if i < k then i else i + 1);
      MinusAt(nodes, k, i);
      if i < |r| - 1 { MinusAt(nodes, k, i + 1); }
      var a := if i < k then i else i + 1;
      assert r[i] == nodes[a] && nodes[a] != nodes[k];
      if i == k - 1 {
        assert next'[r[i]] == next[nodes[k]];
      } else {
        assert k > 0 ==> nodes[a] != nodes[k - 1];
        assert next'[r[i]] == next[nodes[a]];
      }
    }
  }

  lemma UnlinkBackward(nodes: seq<int>, k: nat, prev: seq<int>)
    requires Nodes(nodes) && |prev| == MAX_PIDS && Backward(nodes, prev) && k < |nodes|
    ensures Nodes(Minus(nodes, k)) && Backward(Minus(nodes, k), UnlinkedPrev(nodes, k, prev))
  {
    MinusNodes(nodes, k);
    var r, prev' := Minus(nodes, k), UnlinkedPrev(nodes, k, prev);
    forall i | 0 <= i < |r| ensures PrevAt(r, prev', i) {
      assert PrevAt(nodes, prev, k) && PrevAt(nodes, prev, if i < k then i else i + 1);
      MinusAt(nodes, k, i);
      if i > 0 { MinusAt(nodes, k, i - 1); }
      var a := if i < k then i else i + 1;
      assert r[i] == nodes[a] && nodes[a] != nodes[k];
      if i == k {
        assert prev'[r[i]] == prev[nodes[k]];
      } else {
        assert k < |nodes| - 1 ==> nodes[a] != nodes[k + 1];
        assert prev'[r[i]] == prev[nodes[a]];
      }
    }
  }

  lemma UnlinkChain(nodes: seq<int>, k: nat, next: seq<int>, prev: seq<int>)
    requires Chained(nodes, next, prev) && k < |nodes|
    ensures Chained(Minus(nodes, k), UnlinkedNext(nodes, k, next), UnlinkedPrev(nodes, k, prev))
  {
    UnlinkForward(nodes, k, next);
    UnlinkBackward(nodes, k, prev);
  }

  /** All that follows from taking a node out of one of two lists. */
  lemma UnlinkBoth(nodes: seq<int>, k: nat, others: seq<int>, next: seq<int>, prev: seq<int>)
    requires Chained(nodes, next, prev) && Chained(others, next, prev) && k < |nodes|
    requires Apart(nodes, others) || Apart(others, nodes)
    ensures Chained(Minus(nodes, k), UnlinkedNext(nodes, k, next), UnlinkedPrev(nodes, k, prev))
    ensures Chained(others, UnlinkedNext(nodes, k, next), UnlinkedPrev(nodes, k, prev))
    ensures Apart(nodes, others) ==> Apart(Minus(nodes, k), others)
    ensures Apart(others, nodes) ==> Apart(others, Minus(nodes, k))
    ensures var r := Minus(nodes, k);
            && |r| == |nodes| - 1
            && (r != [] ==> r[0] == if k == 0 then nodes[1] else nodes[0])
            && (r != [] ==> r[|r| - 1] == if k == |nodes| - 1 then nodes[k - 1] else nodes[|nodes| - 1])
  {
    UnlinkChain(nodes, k, next, prev);
    UnlinkFrame(nodes, k, others, next, prev);
  }

  function AppendedNext(nodes: seq<int>, node: int, next: seq<int>): seq<int>
    requires forall i :: 0 <= i < |nodes| ==> 0 <= nodes[i] < |next|
  {
    if nodes == [] then next else next[nodes[|nodes| - 1] := node]
  }

  function AppendedPrev(nodes: seq<int>, node: int, prev: seq<int>): seq<int>
    requires 0 <= node < |prev|
  {
    if nodes == [] then prev else prev[node := nodes[|nodes| - 1]]
  }

  lemma AppendChain(nodes: seq<int>, node: int, next: seq<int>, prev: seq<int>)
    requires Chained(nodes, next, prev) && 0 <= node < MAX_PIDS && node !in nodes
    requires next[node] == NIL && prev[node] == NIL
    ensures Chained(nodes + [node], AppendedNext(nodes, node, next), AppendedPrev(nodes, node, prev))
  {
    var r, next', prev' := nodes + [node], AppendedNext(nodes, node, next), AppendedPrev(nodes, node, prev);
    assert Nodes(r);
    forall i | 0 <= i < |r| ensures NextAt(r, next', i) && PrevAt(r, prev', i) {
      if i < |nodes| {
        assert NextAt(nodes, next, i) && PrevAt(nodes, prev, i);
        assert r[i] == nodes[i] && nodes[i] != node;
        if i < |nodes| - 1 { assert nodes[i] != nodes[|nodes| - 1] && r[i + 1] == nodes[i + 1]; }
      }
    }
  }

  /** A list is none the worse for changes to nodes it does not have. */
  lemma FrameChain(nodes: seq<int>, next: seq<int>, prev: seq<int>, next': seq<int>, prev': seq<int>)
    requires Chained(nodes, next, prev) && |next'| == MAX_PIDS && |prev'| == MAX_PIDS
    requires forall i :: 0 <= i < |nodes| ==> next'[nodes[i]] == next[nodes[i]] && prev'[nodes[i]] == prev[nodes[i]]
    ensures Chained(nodes, next', prev')
  {
    forall i | 0 <= i < |nodes| ensures NextAt(nodes, next', i) && PrevAt(nodes, prev', i) {
      assert NextAt(nodes, next, i) && PrevAt(nodes, prev, i);
    }
  }

  /** Taking a node out of one list leaves the other list alone. */
  lemma UnlinkFrame(nodes: seq<int>, k: nat, others: seq<int>, next: seq<int>, prev: seq<int>)
    requires Chained(nodes, next, prev) && Chained(others, next, prev) && k < |nodes|
    requires Apart(nodes, others) || Apart(others, nodes)
    ensures Chained(others, UnlinkedNext(nodes, k, next), UnlinkedPrev(nodes, k, prev))
  {
    FrameChain(others, next, prev, UnlinkedNext(nodes, k, next), UnlinkedPrev(nodes, k, prev));
  }

  lemma AppendFrame(nodes: seq<int>, node: int, others: seq<int>, next: seq<int>, prev: seq<int>)
    requires Chained(nodes, next, prev) && Chained(others, next, prev) && 0 <= node < MAX_PIDS && node !in others
    requires Apart(nodes, others) || Apart(others, nodes)
    ensures Chained(others, AppendedNext(nodes, node, next), AppendedPrev(nodes, node, prev))
  {
    FrameChain(others, next, prev, AppendedNext(nodes, node, next), AppendedPrev(nodes, node, prev));
  }

  /** The pids of the given nodes. */
  function PidsOf(nodes: seq<int>, pid: seq<int>): (r: seq<int>)
    requires forall i :: 0 <= i < |nodes| ==> 0 <= nodes[i] < |pid|
    ensures |r| == |nodes| && forall i :: 0 <= i < |r| ==> r[i] == pid[nodes[i]]
  {
    seq(|nodes|, i requires 0 <= i < |nodes| => pid[nodes[i]])
  }

  // ---------------------------------------------------------------- moving a node between lists

  /** frees and actives split the nodes. */
  ghost predicate Split(frees: seq<int>, actives: seq<int>) {
    Apart(frees, actives) && forall k :: 0 <= k < MAX_PIDS ==> k in frees || k in actives
  }

  /** Free nodes carry no pid. */
  ghost predicate Blank(frees: seq<int>, pid: seq<int>)
    requires Nodes(frees) && |pid| == MAX_PIDS
  {
    forall i :: 0 <= i < |frees| ==> pid[frees[i]] == NO_PID
  }

  ghost predicate Distinct(pids: seq<int>) {
    forall i, j :: 0 <= i < j < |pids| ==> pids[i] != pids[j]
  }

  /** All that follows from moving the first free node to the end of the active list. */
  lemma Activated(frees: seq<int>, nodes: seq<int>, pid: seq<int>, p: int)
    requires Nodes(frees) && Nodes(nodes) && frees != [] && Split(frees, nodes) && |pid| == MAX_PIDS
    requires Blank(frees, pid) && Distinct(PidsOf(nodes, pid)) && p !in PidsOf(nodes, pid)
    ensures frees[0] !in frees[1..] && frees[0] !in nodes
    ensures Split(frees[1..], nodes + [frees[0]]) && Nodes(frees[1..]) && Nodes(nodes + [frees[0]])
    ensures var pid' := pid[frees[0] := p];
            && Blank(frees[1..], pid')
            && PidsOf(nodes + [frees[0]], pid') == PidsOf(nodes, pid) + [p]
            && Distinct(PidsOf(nodes, pid) + [p])
  {
  }

  /** All that follows from moving the active node at position k to the end of the free list. */
  lemma Retired(nodes: seq<int>, k: nat, frees: seq<int>, pid: seq<int>)
    requires Nodes(frees) && Nodes(nodes) && k < |nodes| && Split(frees, nodes) && |pid| == MAX_PIDS
    requires Blank(frees, pid) && Distinct(PidsOf(nodes, pid))
    ensures 0 <= nodes[k] < MAX_PIDS && nodes[k] !in Minus(nodes, k) && nodes[k] !in frees
    ensures Split(frees + [nodes[k]], Minus(nodes, k)) && Nodes(Minus(nodes, k)) && Nodes(frees + [nodes[k]])
    ensures var pid' := pid[nodes[k] := NO_PID];
            && Blank(frees + [nodes[k]], pid')
            && PidsOf(Minus(nodes, k), pid') == Minus(PidsOf(nodes, pid), k)
            && Distinct(Minus(PidsOf(nodes, pid), k))
  {
  }

  /** A list handle. */
  class PidList {
    var head: int
    var tail: int
    var count: int
    ghost var nodes: seq<int>

    ghost predicate Valid()
      reads this
    {
      && count == |nodes|
      && (if nodes == [] then head == NIL && tail == NIL else head == nodes[0] && tail == nodes[|nodes| - 1])
    }

    constructor ()
      ensures Valid() && nodes == []
    {
      head, tail, count := NIL, NIL, 0;
      nodes := [];
    }
  }

  ghost predicate Covers(s: seq<int>, n: nat) {
    forall k :: 0 <= k < n ==> k in s
  }

  lemma MinusCovers(s: seq<int>, k: nat, n: nat)
    requires k < |s| && Covers(s, n + 1) && s[k] == n
    ensures Covers(Minus(s, k), n)
  {
    forall m | 0 <= m < n ensures m in Minus(s, k) {
      assert m in s;
      var i :| 0 <= i < |s| && s[i] == m;
      MinusAt(s, k, if i < k then i else i - 1);
    }
  }

  /** It takes at least n numbers to have every index below n. */
  lemma {:induction false} CoverIsLong(s: seq<int>, n: nat)
    requires Covers(s, n)
    ensures |s| >= n
    decreases n
  {
    if n > 0 {
      assert n - 1 in s;
      var k :| 0 <= k < |s| && s[k] == n - 1;
      MinusCovers(s, k, n - 1);
      CoverIsLong(Minus(s, k), n - 1);
    }
  }

  ghost predicate DistinctBelow(s: seq<int>, n: nat) {
    && (forall i :: 0 <= i < |s| ==> 0 <= s[i] < n)
    && (forall i, j :: 0 <= i < j < |s| ==> s[i] != s[j])
  }

  /** At most n different numbers are below n. */
  lemma {:induction false} DistinctIsShort(s: seq<int>, n: nat)
    requires DistinctBelow(s, n)
    ensures |s| <= n
    decreases n
  {
    assert s != [] ==> 0 <= s[0] < n;
    if n > 0 && n - 1 in s {
      var k :| 0 <= k < |s| && s[k] == n - 1;
      DistinctIsShort(Minus(s, k), n - 1);
    } else if n > 0 {
      forall i | 0 <= i < |s| ensures s[i] != n - 1 { assert s[i] in s; }
      DistinctIsShort(s, n - 1);
    }
  }

  ghost predicate Apart(a: seq<int>, c: seq<int>) {
    forall i, j :: 0 <= i < |a| && 0 <= j < |c| ==> a[i] != c[j]
  }

  lemma ApartAppend(a: seq<int>, c: seq<int>, n: int)
    requires Apart(a, c) && n !in a && n !in c
    ensures Apart(a + [n], c) && Apart(a, c + [n])
  {
  }

  /** Where a node stands, and what its links are. */
  lemma NodeFacts(nodes: seq<int>, k: nat, next: seq<int>, prev: seq<int>)
    requires Chained(nodes, next, prev) && k < |nodes|
    ensures forall i :: 0 <= i < |nodes| ==> 0 <= nodes[i] < MAX_PIDS
    ensures nodes[k] == nodes[0] <==> k == 0
    ensures nodes[k] == nodes[|nodes| - 1] <==> k == |nodes| - 1
    ensures next[nodes[k]] == if k == |nodes| - 1 then NIL else nodes[k + 1]
    ensures prev[nodes[k]] == if k == 0 then NIL else nodes[k - 1]
    ensures k > 0 ==> nodes[k - 1] != nodes[k]
    ensures k < |nodes| - 1 ==> nodes[k + 1] != nodes[k]
  {
    assert NextAt(nodes, next, k) && PrevAt(nodes, prev, k);
  }

  class Region {
    const next: array<int>
    const prev: array<int>
    const pid: array<int>
    const free: PidList
    const active: PidList

    ghost function Repr(): set<object> {
      {this, next, prev, pid, free, active}
    }

    ghost predicate Shape()
    {
      && next != prev && prev != pid && next != pid && free != active
      && next.Length == MAX_PIDS && prev.Length == MAX_PIDS && pid.Length == MAX_PIDS
    }

    /** The lists are well formed and split the nodes between them. */
    ghost predicate Linked()
      reads this, next, prev, free, active
    {
      && Shape()
      && free.Valid() && active.Valid()
      && Chained(free.nodes, next[..], prev[..]) && Chained(active.nodes, next[..], prev[..])
      && Apart(free.nodes, active.nodes)
    }

    ghost predicate Valid()
      reads this, next, prev, pid, free, active
    {
      && Linked()
      && Split(free.nodes, active.nodes)
      && Blank(free.nodes, pid[..]) && Distinct(PidsOf(active.nodes, pid[..]))
    }

    /** The active pids, in list order. */
    ghost function Pids(): (r: seq<int>)
      requires Linked()
      reads this, next, prev, pid, free, active
      ensures |r| == |active.nodes| && forall i :: 0 <= i < |r| ==> r[i] == pid[active.nodes[i]]
    {
      PidsOf(active.nodes, pid[..])
    }

    /** Every node is in exactly one list, so the counts add up. */
    lemma Partition()
      requires Valid()
      ensures free.count + active.count == MAX_PIDS
      ensures forall k :: 0 <= k < MAX_PIDS ==> (k in free.nodes <==> k !in active.nodes)
      ensures forall i, j :: 0 <= i < j < |Pids()| ==> Pids()[i] != Pids()[j]
    {
      var s := free.nodes + active.nodes;
      assert DistinctBelow(s, MAX_PIDS);
      DistinctIsShort(s, MAX_PIDS);
      assert Covers(s, MAX_PIDS);
      CoverIsLong(s, MAX_PIDS);
    }

    /** The list set-up of pidlist_init: every node free, in index order. */
    constructor ()
      ensures Valid() && fresh(Repr()) && active.nodes == []
      ensures |free.nodes| == MAX_PIDS && forall i :: 0 <= i < MAX_PIDS ==> free.nodes[i] == i
    {
      next := new int[MAX_PIDS];
      prev := new int[MAX_PIDS];
      pid := new int[MAX_PIDS];
      free := new PidList();
      active := new PidList();
      new;
      InitialiseNodes();
    }

    /** initialize_pid_node */
    method InitialiseNode(i: int)
      requires Linked() && 0 <= i < MAX_PIDS && i !in free.nodes && i !in active.nodes
      modifies next, prev, pid
      ensures Linked() && next[i] == NIL && prev[i] == NIL
      ensures pid[..] == old(pid[..])[i := NO_PID]
    {
      next[i] := NIL;
      prev[i] := NIL;
      pid[i] := NO_PID;
      FrameChain(free.nodes, old(next[..]), old(prev[..]), next[..], prev[..]);
      FrameChain(active.nodes, old(next[..]), old(prev[..]), next[..], prev[..]);
    }

    method InitialiseNodes()
      requires Shape() && free.Valid() && active.Valid() && free.nodes == [] && active.nodes == []
      modifies next, prev, pid, free
      ensures Valid() && active.nodes == []
      ensures |free.nodes| == MAX_PIDS && forall i :: 0 <= i < MAX_PIDS ==> free.nodes[i] == i
    {
      for i := 0 to MAX_PIDS
        invariant Linked() && active.nodes == []
        invariant |free.nodes| == i && forall j :: 0 <= j < i ==> free.nodes[j] == j
        invariant forall j :: 0 <= j < i ==> pid[j] == NO_PID
      {
        InitialiseNode(i);
        AddToTail(free, i);
      }
      forall k | 0 <= k < MAX_PIDS ensures k in free.nodes { assert free.nodes[k] == k; }
    }

    // -------------------------------------------------------------- list surgery

    /** The four cases of remove_from_list: the neighbours, or the handle, skip the node. */
    method Unhook(list: PidList, node: int, ghost k: nat)
      requires Linked() && (list == free || list == active)
      requires k < |list.nodes| && list.nodes[k] == node
      modifies next, prev, list`head, list`tail
      ensures var nodes := list.nodes;
              && 0 <= node < MAX_PIDS
              && next[..] == (if k > 0 then old(next[..])[nodes[k - 1] := old(next[node])] else old(next[..]))
              && prev[..] == (if k < |nodes| - 1 then old(prev[..])[nodes[k + 1] := old(prev[node])] else old(prev[..]))
              && list.head == (if k > 0 then nodes[0] else if |nodes| == 1 then NIL else nodes[1])
              && list.tail == (if k < |nodes| - 1 then nodes[|nodes| - 1] else if k == 0 then NIL else nodes[k - 1])
    {
      hide Chained;
      hide Apart;
      NodeFacts(list.nodes, k, next[..], prev[..]);
      if node == list.head && node == list.tail {
        list.head := NIL;
        list.tail := NIL;
      } else if node == list.head && node != list.tail {
        list.head := next[list.head];
        prev[list.head] := NIL;
      } else if node != list.head && node == list.tail {
        list.tail := prev[list.tail];
        next[list.tail] := NIL;
      } else {
        next[prev[node]] := next[node];
        prev[next[node]] := prev[node];
      }
    }

    /** The rest of remove_from_list: the node's own links and the count. */
    method Detach(list: PidList, node: int, ghost k: nat)
      requires Linked() && (list == free || list == active)
      requires k < |list.nodes| && list.nodes[k] == node
      modifies next, prev, list`head, list`tail, list`count
      ensures 0 <= node < MAX_PIDS && forall i :: 0 <= i < |list.nodes| ==> 0 <= list.nodes[i] < MAX_PIDS
      ensures next[..] == UnlinkedNext(list.nodes, k, old(next[..]))
      ensures prev[..] == UnlinkedPrev(list.nodes, k, old(prev[..]))
      ensures var nodes := list.nodes;
              && list.head == (if k > 0 then nodes[0] else if |nodes| == 1 then NIL else nodes[1])
              && list.tail == (if k < |nodes| - 1 then nodes[|nodes| - 1] else if k == 0 then NIL else nodes[k - 1])
              && list.count == old(list.count) - 1
    {
      hide Chained;
      hide Apart;
      NodeFacts(list.nodes, k, next[..], prev[..]);
      Unhook(list, node, k);
      ghost var next1, prev1 := next[..], prev[..];
      next[node] := NIL;
      prev[node] := NIL;
      list.count := list.count - 1;
      assert next[..] == next1[node := NIL] && prev[..] == prev1[node := NIL];
    }

    /** remove_from_list */
    method RemoveFromList(list: PidList, node: int, ghost k: nat)
      requires Linked() && (list == free || list == active)
      requires k < |list.nodes| && list.nodes[k] == node
      modifies next, prev, list
      ensures Linked()
      ensures list.nodes == Minus(old(list.nodes), k)
      ensures next[node] == NIL && prev[node] == NIL
    {
      hide Chained;
      hide Apart;
      hide Minus;
      UnlinkBoth(list.nodes, k, if list == free then active.nodes else free.nodes, next[..], prev[..]);
      Detach(list, node, k);
      assert next[..][node] == NIL && prev[..][node] == NIL;
      list.nodes := Minus(list.nodes, k);
    }

    /** add_to_tail */
    method AddToTail(list: PidList, node: int)
      requires Linked() && (list == free || list == active)
      requires 0 <= node < MAX_PIDS && node !in free.nodes && node !in active.nodes
      requires next[node] == NIL && prev[node] == NIL
      modifies next, prev, list
      ensures Linked()
      ensures list.nodes == old(list.nodes) + [node]
    {
      hide Chained;
      hide Apart;
      ghost var nodes := list.nodes;
      if nodes != [] { NodeFacts(nodes, |nodes| - 1, next[..], prev[..]); }
      if list.head == NIL {
        list.head := node;
        list.tail := node;
      } else {
        prev[node] := list.tail;
        next[list.tail] := node;
        list.tail := node;
      }
      list.count := list.count + 1;
      list.nodes := list.nodes + [node];
      assert next[..] == AppendedNext(nodes, node, old(next[..]));
      assert prev[..] == AppendedPrev(nodes, node, old(prev[..]));
      AppendChain(nodes, node, old(next[..]), old(prev[..]));
      ghost var other := if list == free then active else free;
      AppendFrame(nodes, node, other.nodes, old(next[..]), old(prev[..]));
      ApartAppend(old(free.nodes), old(active.nodes), node);
    }

    /** remove_from_head: NIL if the list is empty. */
    method RemoveFromHead(list: PidList) returns (node: int)
      requires Linked() && (list == free || list == active)
      modifies next, prev, list
      ensures Linked()
      ensures old(list.nodes) == [] ==> node == NIL && list.nodes == []
      ensures old(list.nodes) != [] ==>
                && node == old(list.nodes)[0] && list.nodes == old(list.nodes)[1..]
                && 0 <= node < MAX_PIDS && next[node] == NIL && prev[node] == NIL
    {
      if list.nodes != [] { NodeFacts(list.nodes, 0, next[..], prev[..]); }
      if list.head == NIL {
        return NIL;
      }
      node := list.head;
      RemoveFromList(list, node, 0);
      assert Minus(old(list.nodes), 0) == old(list.nodes)[1..];
    }

    /** One hop along the active list, from the node at position k. */
    method Hop(node: int, ghost k: nat) returns (after: int)
      requires Linked() && k < |active.nodes| && node == active.nodes[k]
      ensures after == if k == |active.nodes| - 1 then NIL else active.nodes[k + 1]
    {
      NodeFacts(active.nodes, k, next[..], prev[..]);
      after := next[node];
    }

    /** The active list is made of nodes of the region. */
    lemma InRange()
      requires Linked()
      ensures forall i :: 0 <= i < |active.nodes| ==> 0 <= active.nodes[i] < MAX_PIDS
    {
    }

    /** find_node on the active list: the first node with this pid, or NIL. */
    method FindNode(p: int) returns (node: int, ghost k: nat)
      requires Linked()
      ensures node == NIL ==> p !in Pids()
      ensures node != NIL ==> k < |active.nodes| && active.nodes[k] == node && Pids()[k] == p
    {
      hide Chained;
      hide Apart;
      node := active.head;
      k := 0;
      InRange();
      while node != NIL && pid[node] != p
        invariant 0 <= k <= |active.nodes|
        invariant node == if k == |active.nodes| then NIL else active.nodes[k]
        invariant node == NIL || 0 <= node < MAX_PIDS
        invariant forall i :: 0 <= i < k ==> Pids()[i] != p
        decreases |active.nodes| - k
      {
        node := Hop(node, k);
        k := k + 1;
      }
    }

    // -------------------------------------------------------------- the operations

    /** pidlist_add_pid: adding is idempotent, and fails exactly when all nodes hold others. */
    method AddPid(p: int) returns (r: int)
      requires Valid()
      modifies next, prev, pid, free, active
      ensures Valid()
      ensures r == if p in old(Pids()) || |old(Pids())| < MAX_PIDS then 0 else -1
      ensures Pids() == if p in old(Pids()) || r == -1 then old(Pids()) else old(Pids()) + [p]
    {
      Partition();
      hide Chained;
      hide Apart;
      hide Split;
      hide Blank;
      hide Distinct;
      var node, k := FindNode(p);
      if node != NIL {
        return 0;
      }
      ghost var frees, nodes := free.nodes, active.nodes;
      node := RemoveFromHead(free);
      if node == NIL {
        return -1;
      }
      Activated(frees, nodes, old(pid[..]), p);
      pid[node] := p;
      assert pid[..] == old(pid[..])[node := p];
      AddToTail(active, node);
      r := 0;
    }

    /** pidlist_remove_pid: that pid leaves, the others keep their order. */
    method RemovePid(p: int)
      requires Valid()
      modifies next, prev, pid, free, active
      ensures Valid()
      ensures p !in old(Pids()) ==> Pids() == old(Pids())
      ensures p in old(Pids()) ==>
                exists k :: 0 <= k < |old(Pids())| && old(Pids())[k] == p && Pids() == Minus(old(Pids()), k)
    {
      Partition();
      hide Chained;
      hide Apart;
      hide Split;
      hide Blank;
      hide Distinct;
      hide Minus;
      var node, k := FindNode(p);
      if node == NIL {
        return;
      }
      ghost var nodes, frees := active.nodes, free.nodes;
      Retired(nodes, k, frees, pid[..]);
      RemoveFromList(active, node, k);
      pid[node] := NO_PID;
      assert pid[..] == old(pid[..])[node := NO_PID];
      AddToTail(free, node);
    }

    /** pidlist_get_count */
    method GetCount() returns (n: int)
      requires Valid()
      ensures n == |Pids()|
    {
      n := active.count;
    }

    /** pidlist_get_random, for the index the random number picked: an active pid, or -1 when
        there is none. */
    method GetRandom(index: nat) returns (p: int)
      requires Valid() && (index < |Pids()| || index == 0)
      ensures if Pids() == [] then p == NO_PID else p == Pids()[index]
    {
      hide Chained;
      hide Apart;
      hide Split;
      hide Blank;
      hide Distinct;
      var i, node := 0, active.head;
      InRange();
      while node != NIL && i < index
        invariant 0 <= i <= index && i <= |active.nodes|
        invariant node == if i == |active.nodes| then NIL else active.nodes[i]
        invariant node == NIL || 0 <= node < MAX_PIDS
        decreases index - i
      {
        node := Hop(node, i);
        i := i + 1;
      }
      p := if node == NIL then NO_PID else pid[node];
    }

    /** pidlist_get_first; the code dereferences the head, so there must be one. */
    method GetFirst() returns (p: int)
      requires Valid() && Pids() != []
      ensures p == Pids()[0]
    {
      NodeFacts(active.nodes, 0, next[..], prev[..]);
      p := pid[active.head];
    }

    /** The clean-up loop of the allocator's test: it ends, and then every node is free. */
    method FreeAll()
      requires Valid()
      modifies next, prev, pid, free, active
      ensures Valid() && Pids() == [] && free.count == MAX_PIDS
    {
      hide Chained;
      hide Apart;
      hide Split;
      hide Blank;
      hide Distinct;
      var n := GetCount();
      while n > 0
        invariant Valid() && n == |Pids()|
        decreases n
      {
        var p := GetFirst();
        assert p in Pids();
        RemovePid(p);
        n := GetCount();
      }
      Partition();
    }
  }
}
