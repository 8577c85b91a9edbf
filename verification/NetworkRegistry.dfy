/**
 Bringing the network registry to a requested node-to-safe assignment: which nodes to remove and which to
 add is decided from one reading of the registry, then two contract calls are made.
 */
module NetworkRegistry {
  import opened HoprTypes

  // A node that is not registered has no entry; reading it gives the zero address.
  type Registry = map<Address, Address>

  datatype Entry = Entry(safe: Address, node: Address)

  function SafeOf(reg: Registry, node: Address): Address {
    if node in reg then reg[node] else 0
  }

  function Assign(reg: Registry, node: Address, safe: Address): Registry {
    if safe == 0 then reg - {node} else reg[node := safe]
  }

  // ---------- the contract's calls, None standing for a revert ----------

  function ManagerDeregister(reg: Registry, nodes: seq<Address>): Option<Registry> {
    if nodes == [] then Some(reg)
    else
      match ManagerDeregister(reg, nodes[..|nodes| - 1])
      case None => None
      case Some(before) =>
        var node := nodes[|nodes| - 1];
        if SafeOf(before, node) == 0 then None else Some(before - {node})
  }

  function ManagerRegister(reg: Registry, entries: seq<Entry>): Option<Registry> {
    if entries == [] then Some(reg)
    else
      match ManagerRegister(reg, entries[..|entries| - 1])
      case None => None
      case Some(before) =>
        var e := entries[|entries| - 1];
        if SafeOf(before, e.node) != 0 then None else Some(Assign(before, e.node, e.safe))
  }

  // ---------- what is to be removed and added ----------

  predicate Mismatched(reg: Registry, e: Entry) {
    SafeOf(reg, e.node) != 0 && SafeOf(reg, e.node) != e.safe
  }

  predicate Pending(reg: Registry, e: Entry) {
    SafeOf(reg, e.node) == 0 || SafeOf(reg, e.node) != e.safe
  }

  function ToRemove(reg: Registry, requests: seq<Entry>): seq<Address> {
    if requests == [] then []
    else
      var e := requests[|requests| - 1];
      ToRemove(reg, requests[..|requests| - 1]) + if Mismatched(reg, e) then [e.node] else []
  }

  function ToAdd(reg: Registry, requests: seq<Entry>): seq<Entry> {
    if requests == [] then []
    else
      var e := requests[|requests| - 1];
      ToAdd(reg, requests[..|requests| - 1]) + if Pending(reg, e) then [e] else []
  }

  datatype Reconciled = Reverted(reg: Registry) | Done(reg: Registry, removed: nat, added: nat)

  // A revert of the second call leaves the first one's removals in place.
  function Reconcile(reg: Registry, requests: seq<Entry>): Reconciled {
    var toRemove, toAdd := ToRemove(reg, requests), ToAdd(reg, requests);
    match ManagerDeregister(reg, toRemove)
    case None => Reverted(reg)
    case Some(cleared) =>
      match ManagerRegister(cleared, toAdd)
      case None => Reverted(cleared)
      case Some(final) => Done(final, |toRemove|, |toAdd|)
  }

  // ---------- lemmas ----------

  ghost predicate NoRepeats(nodes: seq<Address>) {
    forall i, j :: 0 <= i < j < |nodes| ==> nodes[i] != nodes[j]
  }

  lemma NoRepeatsAppend(nodes: seq<Address>, last: Address)
    ensures NoRepeats(nodes + [last]) <==> NoRepeats(nodes) && last !in nodes
  {
    var all := nodes + [last];
    assert forall i :: 0 <= i < |nodes| ==> all[i] == nodes[i];
    if last in nodes {
      var i :| 0 <= i < |nodes| && nodes[i] == last;
      assert all[i] == all[|nodes|];
    }
  }

  function NodeSet(nodes: seq<Address>): set<Address> {
    set n | n in nodes
  }

  lemma DeregisterOneMore(reg: Registry, nodes: seq<Address>, last: Address)
    ensures var r := ManagerDeregister(reg, nodes);
      ManagerDeregister(reg, nodes + [last]) ==
        if r.Some? && SafeOf(r.value, last) != 0 then Some(r.value - {last}) else None
  {
    assert (nodes + [last])[..|nodes|] == nodes;
  }

  ghost predicate AllRegistered(reg: Registry, nodes: seq<Address>) {
    forall n :: n in nodes ==> SafeOf(reg, n) != 0
  }

  /** Deregistering succeeds exactly for distinct registered nodes, and removes just them. */
  lemma {:induction false} DeregisterExactly(reg: Registry, nodes: seq<Address>)
    ensures ManagerDeregister(reg, nodes).Some? <==> NoRepeats(nodes) && AllRegistered(reg, nodes)
    ensures ManagerDeregister(reg, nodes).Some? ==> ManagerDeregister(reg, nodes).value == reg - NodeSet(nodes)
    decreases |nodes|
  {
    if nodes == [] {
      assert reg - NodeSet([]) == reg;
    } else {
      var front, last := nodes[..|nodes| - 1], nodes[|nodes| - 1];
      assert nodes == front + [last];
      DeregisterExactly(reg, front);
      DeregisterOneMore(reg, front, last);
      NoRepeatsAppend(front, last);
      hide ManagerDeregister;
      hide NoRepeats;
      assert NodeSet(nodes) == NodeSet(front) + {last};
      assert AllRegistered(reg, nodes) <==> AllRegistered(reg, front) && SafeOf(reg, last) != 0;
      hide AllRegistered;
      var left := reg - NodeSet(front);
      assert SafeOf(left, last) != 0 <==> SafeOf(reg, last) != 0 && last !in front;
      assert left - {last} == reg - NodeSet(nodes);
    }
  }

  lemma {:induction false} InToRemove(reg: Registry, requests: seq<Entry>, n: Address)
    ensures n in ToRemove(reg, requests) <==> exists i :: 0 <= i < |requests| && requests[i].node == n && Mismatched(reg, requests[i])
    decreases |requests|
  {
    if requests != [] {
      InToRemove(reg, requests[..|requests| - 1], n);
    }
  }

  ghost predicate NoMismatchTwice(reg: Registry, requests: seq<Entry>) {
    forall i, j :: 0 <= i < j < |requests| && Mismatched(reg, requests[i]) && Mismatched(reg, requests[j]) ==>
      requests[i].node != requests[j].node
  }

  lemma NoMismatchTwiceSplits(reg: Registry, requests: seq<Entry>)
    requires requests != []
    ensures var front, last := requests[..|requests| - 1], requests[|requests| - 1];
      NoMismatchTwice(reg, requests) <==>
        NoMismatchTwice(reg, front) && (Mismatched(reg, last) ==> last.node !in ToRemove(reg, front))
  {
    var front, last := requests[..|requests| - 1], requests[|requests| - 1];
    InToRemove(reg, front, last.node);
    hide Mismatched;
    hide ToRemove;
    assert forall i :: 0 <= i < |front| ==> front[i] == requests[i];
  }

  lemma {:induction false} ToRemoveRepeats(reg: Registry, requests: seq<Entry>)
    ensures NoRepeats(ToRemove(reg, requests)) <==> NoMismatchTwice(reg, requests)
    decreases |requests|
  {
    if requests != [] {
      var front, last := requests[..|requests| - 1], requests[|requests| - 1];
      ToRemoveRepeats(reg, front);
      NoMismatchTwiceSplits(reg, requests);
      NoRepeatsAppend(ToRemove(reg, front), last.node);
      hide NoRepeats;
      hide NoMismatchTwice;
      hide Mismatched;
      assert ToRemove(reg, requests) == ToRemove(reg, front) + if Mismatched(reg, last) then [last.node] else [];
      assert ToRemove(reg, front) + [] == ToRemove(reg, front);
    }
  }

  /** The safe of the last pending request for a node. */
  function LastSafe(reg: Registry, requests: seq<Entry>, n: Address): Option<Address> {
    if requests == [] then None
    else
      var e := requests[|requests| - 1];
      if Pending(reg, e) && e.node == n then Some(e.safe) else LastSafe(reg, requests[..|requests| - 1], n)
  }

  predicate SameNodePending(reg: Registry, d: Entry, e: Entry) {
    Pending(reg, d) && Pending(reg, e) && d.node == e.node
  }

  /** No pending request with a real safe is followed by another pending one for the same node. */
  ghost predicate NoAddConflict(reg: Registry, requests: seq<Entry>) {
    forall i, j :: (0 <= i < j < |requests| && SameNodePending(reg, requests[i], requests[j])) ==> requests[i].safe == 0
  }

  /** Some pending request asks for a real safe for the node. */
  ghost predicate AsksForSafe(reg: Registry, requests: seq<Entry>, n: Address) {
    exists i :: 0 <= i < |requests| && Pending(reg, requests[i]) && requests[i].node == n && requests[i].safe != 0
  }

  lemma AsksForSafeSplits(reg: Registry, requests: seq<Entry>, n: Address)
    requires requests != []
    ensures var front, last := requests[..|requests| - 1], requests[|requests| - 1];
      AsksForSafe(reg, requests, n) <==>
        AsksForSafe(reg, front, n) || (Pending(reg, last) && last.node == n && last.safe != 0)
  {
    hide Pending;
    var front := requests[..|requests| - 1];
    assert forall i :: 0 <= i < |front| ==> front[i] == requests[i];
  }

  lemma NoAddConflictSplits(reg: Registry, requests: seq<Entry>)
    requires requests != []
    ensures var front, last := requests[..|requests| - 1], requests[|requests| - 1];
      NoAddConflict(reg, requests) <==>
        NoAddConflict(reg, front) && (Pending(reg, last) ==> !AsksForSafe(reg, front, last.node))
  {
    hide Pending;
    var front := requests[..|requests| - 1];
    assert forall i :: 0 <= i < |front| ==> front[i] == requests[i];
  }

  lemma {:induction false} LastSafeIsReal(reg: Registry, requests: seq<Entry>, n: Address)
    requires NoAddConflict(reg, requests)
    ensures AsksForSafe(reg, requests, n) <==> LastSafe(reg, requests, n).Some? && LastSafe(reg, requests, n).value != 0
    decreases |requests|
  {
    hide Pending;
    if requests != [] {
      var front := requests[..|requests| - 1];
      NoAddConflictSplits(reg, requests);
      AsksForSafeSplits(reg, requests, n);
      LastSafeIsReal(reg, front, n);
      hide NoAddConflict;
      hide AsksForSafe;
    }
  }

  /** Registering what is pending succeeds exactly without conflicts, and the last request for a node stands. */
  lemma {:induction false} RegisterExactly(reg: Registry, cleared: Registry, requests: seq<Entry>)
    requires forall e :: e in requests && Pending(reg, e) ==> SafeOf(cleared, e.node) == 0
    ensures var r := ManagerRegister(cleared, ToAdd(reg, requests));
      && (r.Some? <==> NoAddConflict(reg, requests))
      && (r.Some? ==> HasLastSafes(reg, requests, cleared, r.value))
    decreases |requests|
  {
    if requests != [] {
      hide Pending;
      hide NoAddConflict;
      hide AsksForSafe;
      var front, last := requests[..|requests| - 1], requests[|requests| - 1];
      RegisterExactly(reg, cleared, front);
      NoAddConflictSplits(reg, requests);
      if NoAddConflict(reg, front) {
        LastSafeIsReal(reg, front, last.node);
      }
      hide ManagerRegister;
      var before := ToAdd(reg, front);
      if Pending(reg, last) {
        assert last in requests;
        RegisterOneMore(cleared, before, last);
        if ManagerRegister(cleared, before).Some? {
          LastSafeOneMore(reg, requests, cleared, ManagerRegister(cleared, before).value);
        }
      } else {
        assert before + [] == before;
      }
    }
  }

  lemma RegisterOneMore(cleared: Registry, before: seq<Entry>, e: Entry)
    ensures var r := ManagerRegister(cleared, before);
      ManagerRegister(cleared, before + [e]) ==
        if r.Some? && SafeOf(r.value, e.node) == 0 then Some(Assign(r.value, e.node, e.safe)) else None
  {
    assert (before + [e])[..|before|] == before;
  }

  lemma LastSafeOneMore(reg: Registry, requests: seq<Entry>, cleared: Registry, done: Registry)
    requires requests != [] && Pending(reg, requests[|requests| - 1])
    requires HasLastSafes(reg, requests[..|requests| - 1], cleared, done)
    ensures var e := requests[|requests| - 1];
      && SafeOf(done, e.node) == OrElse(LastSafe(reg, requests[..|requests| - 1], e.node), SafeOf(cleared, e.node))
      && (SafeOf(done, e.node) == 0 ==> HasLastSafes(reg, requests, cleared, Assign(done, e.node, e.safe)))
  {
  }

  /** Every node has the safe of its last pending request, or what it had. */
  ghost predicate HasLastSafes(reg: Registry, requests: seq<Entry>, before: Registry, after: Registry) {
    forall n :: SafeOf(after, n) == OrElse(LastSafe(reg, requests, n), SafeOf(before, n))
  }

  function OrElse(o: Option<Address>, default: Address): Address {
    if o.Some? then o.value else default
  }

  lemma RemovedIsCleared(reg: Registry, requests: seq<Entry>, cleared: Registry)
    requires ManagerDeregister(reg, ToRemove(reg, requests)) == Some(cleared)
    ensures forall e :: e in requests && Pending(reg, e) ==> SafeOf(cleared, e.node) == 0
    ensures forall n :: LastSafe(reg, requests, n) == None ==> SafeOf(cleared, n) == SafeOf(reg, n)
  {
    var nodes := ToRemove(reg, requests);
    DeregisterExactly(reg, nodes);
    forall e | e in requests && Pending(reg, e) ensures SafeOf(cleared, e.node) == 0 {
      var i :| 0 <= i < |requests| && requests[i] == e;
      InToRemove(reg, requests, e.node);
    }
    forall n | LastSafe(reg, requests, n) == None ensures SafeOf(cleared, n) == SafeOf(reg, n) {
      NotRequestedNotRemoved(reg, requests, n);
    }
  }

  lemma {:induction false} NotRequestedNotRemoved(reg: Registry, requests: seq<Entry>, n: Address)
    requires LastSafe(reg, requests, n) == None
    ensures n !in ToRemove(reg, requests)
    ensures forall e :: e in requests && e.node == n ==> !Pending(reg, e)
    decreases |requests|
  {
    if requests != [] {
      NotRequestedNotRemoved(reg, requests[..|requests| - 1], n);
    }
  }

  /** Two pending requests for one node clash unless the node is free and the earlier one asks for no safe. */
  ghost predicate Clashing(reg: Registry, requests: seq<Entry>) {
    exists i, j :: 0 <= i < j < |requests| && SameNodePending(reg, requests[i], requests[j])
      && !(SafeOf(reg, requests[i].node) == 0 && requests[i].safe == 0)
  }

  lemma ClashingIsEither(reg: Registry, requests: seq<Entry>)
    ensures Clashing(reg, requests) <==> !(NoMismatchTwice(reg, requests) && NoAddConflict(reg, requests))
  {
    if !NoMismatchTwice(reg, requests) {
      var i, j :| 0 <= i < j < |requests| && Mismatched(reg, requests[i]) && Mismatched(reg, requests[j])
        && requests[i].node == requests[j].node;
      assert SameNodePending(reg, requests[i], requests[j]);
    }
    if Clashing(reg, requests) {
      var i, j :| 0 <= i < j < |requests| && SameNodePending(reg, requests[i], requests[j])
        && !(SafeOf(reg, requests[i].node) == 0 && requests[i].safe == 0);
      if SafeOf(reg, requests[i].node) != 0 {
        assert Mismatched(reg, requests[i]) && Mismatched(reg, requests[j]);
      }
    }
  }

  /**
   For any requests, also with repeated nodes and zero safes: the two calls succeed exactly if no two pending
   requests clash. Then every node has the safe of its last pending request or is as it was.
   */
  lemma ReconcilesExactly(reg: Registry, requests: seq<Entry>)
    ensures Reconcile(reg, requests).Done? <==> !Clashing(reg, requests)
    ensures Reconcile(reg, requests).Done? ==> HasLastSafes(reg, requests, reg, Reconcile(reg, requests).reg)
  {
    var nodes := ToRemove(reg, requests);
    DeregisterExactly(reg, nodes);
    ToRemoveRepeats(reg, requests);
    forall n | n in nodes ensures SafeOf(reg, n) != 0 {
      InToRemove(reg, requests, n);
    }
    ClashingIsEither(reg, requests);
    hide Clashing;
    hide NoMismatchTwice;
    hide NoRepeats;
    hide NoAddConflict;
    if ManagerDeregister(reg, nodes).Some? {
      var cleared := ManagerDeregister(reg, nodes).value;
      RemovedIsCleared(reg, requests, cleared);
      RegisterExactly(reg, cleared, requests);
    }
  }

  /**
   A failure of the first call leaves the registry as it was, one of the second leaves the mismatched nodes
   removed.
   */
  lemma FailureLeaves(reg: Registry, requests: seq<Entry>)
    requires Reconcile(reg, requests).Reverted?
    ensures
      if NoMismatchTwice(reg, requests) then
        forall n :: SafeOf(Reconcile(reg, requests).reg, n) == if IsMismatched(reg, requests, n) then 0 else SafeOf(reg, n)
      else Reconcile(reg, requests).reg == reg
  {
    var nodes := ToRemove(reg, requests);
    DeregisterExactly(reg, nodes);
    ToRemoveRepeats(reg, requests);
    forall n ensures n in nodes <==> IsMismatched(reg, requests, n) {
      InToRemove(reg, requests, n);
    }
    forall n | n in nodes ensures SafeOf(reg, n) != 0 {
      InToRemove(reg, requests, n);
    }
  }

  ghost predicate IsMismatched(reg: Registry, requests: seq<Entry>, n: Address) {
    exists i :: 0 <= i < |requests| && requests[i].node == n && Mismatched(reg, requests[i])
  }

  function MismatchedAt(reg: Registry, requests: seq<Entry>): set<nat> {
    set i | 0 <= i < |requests| && Mismatched(reg, requests[i])
  }

  function PendingAt(reg: Registry, requests: seq<Entry>): set<nat> {
    set i | 0 <= i < |requests| && Pending(reg, requests[i])
  }

  lemma {:induction false} RemovedCount(reg: Registry, requests: seq<Entry>)
    ensures |ToRemove(reg, requests)| == |MismatchedAt(reg, requests)|
    decreases |requests|
  {
    if requests != [] {
      hide Mismatched;
      var n := |requests| - 1;
      RemovedCount(reg, requests[..n]);
      assert MismatchedAt(reg, requests)
          == MismatchedAt(reg, requests[..n]) + if Mismatched(reg, requests[n]) then {n} else {};
    }
  }

  lemma {:induction false} AddedCount(reg: Registry, requests: seq<Entry>)
    ensures |ToAdd(reg, requests)| == |PendingAt(reg, requests)|
    decreases |requests|
  {
    if requests != [] {
      hide Pending;
      var n := |requests| - 1;
      AddedCount(reg, requests[..n]);
      assert PendingAt(reg, requests) == PendingAt(reg, requests[..n]) + if Pending(reg, requests[n]) then {n} else {};
    }
  }

  ghost predicate WellRequested(requests: seq<Entry>) {
    && (forall i :: 0 <= i < |requests| ==> requests[i].safe != 0)
    && (forall i, j :: 0 <= i < j < |requests| ==> requests[i].node != requests[j].node)
  }

  lemma {:induction false} LastSafeOfDistinct(reg: Registry, requests: seq<Entry>, n: Address)
    requires WellRequested(requests)
    ensures forall i :: 0 <= i < |requests| && requests[i].node == n ==>
      LastSafe(reg, requests, n) == if Pending(reg, requests[i]) then Some(requests[i].safe) else None
    ensures NotRequested(requests, n) ==> LastSafe(reg, requests, n) == None
    decreases |requests|
  {
    if requests != [] {
      LastSafeOfDistinct(reg, requests[..|requests| - 1], n);
    }
  }

  ghost predicate NotRequested(requests: seq<Entry>, n: Address) {
    forall i :: 0 <= i < |requests| ==> requests[i].node != n
  }

  /** Distinct nodes with real safes: the registry ends as requested on them and unchanged elsewhere. */
  lemma ReachesRequested(reg: Registry, requests: seq<Entry>)
    requires WellRequested(requests)
    ensures var r := Reconcile(reg, requests);
      && r == Done(r.reg, |MismatchedAt(reg, requests)|, |PendingAt(reg, requests)|)
      && (forall i :: 0 <= i < |requests| ==> SafeOf(r.reg, requests[i].node) == requests[i].safe)
      && (forall n :: NotRequested(requests, n) ==> SafeOf(r.reg, n) == SafeOf(reg, n))
  {
    ReconcilesExactly(reg, requests);
    RemovedCount(reg, requests);
    AddedCount(reg, requests);
    CountsInResult(reg, requests);
    assert !Clashing(reg, requests);
    hide Reconcile;
    var after := Reconcile(reg, requests).reg;
    forall i | 0 <= i < |requests| ensures SafeOf(after, requests[i].node) == requests[i].safe {
      LastSafeOfDistinct(reg, requests, requests[i].node);
    }
    forall n | NotRequested(requests, n) ensures SafeOf(after, n) == SafeOf(reg, n) {
      LastSafeOfDistinct(reg, requests, n);
    }
  }

  lemma CountsInResult(reg: Registry, requests: seq<Entry>)
    ensures var r := Reconcile(reg, requests);
      r.Done? ==> r.removed == |ToRemove(reg, requests)| && r.added == |ToAdd(reg, requests)|
  {
  }

  lemma {:induction false} NothingToDo(reg: Registry, requests: seq<Entry>)
    requires forall i :: 0 <= i < |requests| ==> !Pending(reg, requests[i])
    ensures ToRemove(reg, requests) == [] && ToAdd(reg, requests) == []
    decreases |requests|
  {
    if requests != [] {
      NothingToDo(reg, requests[..|requests| - 1]);
      assert !Pending(reg, requests[|requests| - 1]);
    }
  }

  /** Running it a second time changes nothing and reports that. */
  lemma SecondRunIsIdle(reg: Registry, requests: seq<Entry>)
    requires WellRequested(requests)
    ensures var once := Reconcile(reg, requests).reg;
      Reconcile(once, requests) == Done(once, 0, 0)
  {
    ReachesRequested(reg, requests);
    var once := Reconcile(reg, requests).reg;
    NothingToDo(once, requests);
  }

  // ---------- deregistration ----------

  function Registered(reg: Registry, nodes: seq<Address>): seq<Address> {
    if nodes == [] then []
    else
      var last := nodes[|nodes| - 1];
      Registered(reg, nodes[..|nodes| - 1]) + if SafeOf(reg, last) != 0 then [last] else []
  }

  ghost predicate NoRegisteredTwice(reg: Registry, nodes: seq<Address>) {
    forall i, j :: 0 <= i < j < |nodes| && SafeOf(reg, nodes[i]) != 0 ==> nodes[i] != nodes[j]
  }

  lemma NoRegisteredTwiceSplits(reg: Registry, nodes: seq<Address>)
    requires nodes != []
    ensures var front, last := nodes[..|nodes| - 1], nodes[|nodes| - 1];
      NoRegisteredTwice(reg, nodes) <==> NoRegisteredTwice(reg, front) && (SafeOf(reg, last) != 0 ==> last !in front)
  {
    hide SafeOf;
    var front, last := nodes[..|nodes| - 1], nodes[|nodes| - 1];
    assert forall i :: 0 <= i < |front| ==> front[i] == nodes[i];
  }

  lemma {:induction false} RegisteredAre(reg: Registry, nodes: seq<Address>)
    ensures forall n :: n in Registered(reg, nodes) <==> n in nodes && SafeOf(reg, n) != 0
    ensures NoRepeats(Registered(reg, nodes)) <==> NoRegisteredTwice(reg, nodes)
    decreases |nodes|
  {
    if nodes != [] {
      hide SafeOf;
      hide NoRepeats;
      hide NoRegisteredTwice;
      var front, last := nodes[..|nodes| - 1], nodes[|nodes| - 1];
      RegisteredAre(reg, front);
      NoRegisteredTwiceSplits(reg, nodes);
      NoRepeatsAppend(Registered(reg, front), last);
      assert nodes == front + [last];
      assert Registered(reg, front) + [] == Registered(reg, front);
    }
  }

  /** Deregistering works exactly if no registered node is named twice; then all named nodes are gone and no others. */
  lemma DeregistersExactly(reg: Registry, nodes: seq<Address>)
    ensures var r := ManagerDeregister(reg, Registered(reg, nodes));
      && (r.Some? <==> NoRegisteredTwice(reg, nodes))
      && (r.Some? ==> forall n :: SafeOf(r.value, n) == if n in nodes then 0 else SafeOf(reg, n))
  {
    RegisteredAre(reg, nodes);
    DeregisterExactly(reg, Registered(reg, nodes));
  }
}
