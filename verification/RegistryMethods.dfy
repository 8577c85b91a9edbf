/** The registry contract as an object, and the operator's two commands that work on it. */
module RegistryMethods {
  import opened HoprTypes
  import Spec = NetworkRegistry

  class HoprNetworkRegistry {
    var nodeRegisteredToAccount: Spec.Registry
    var eligible: set<Address>

    constructor ()
      ensures nodeRegisteredToAccount == map[] && eligible == {}
    {
      nodeRegisteredToAccount, eligible := map[], {};
    }

    // A call that reverts leaves no trace.
    method ManagerDeregister(nodes: seq<Address>) returns (mined: bool)
      modifies this`nodeRegisteredToAccount
      ensures var r := Spec.ManagerDeregister(old(nodeRegisteredToAccount), nodes);
        mined == r.Some? && nodeRegisteredToAccount == if mined then r.value else old(nodeRegisteredToAccount)
    {
      var reg := nodeRegisteredToAccount;
      mined := true;
      for i := 0 to |nodes|
        invariant nodeRegisteredToAccount == old(nodeRegisteredToAccount)
        invariant Spec.ManagerDeregister(nodeRegisteredToAccount, nodes[..i]) == Some(reg)
      {
        assert nodes[..i + 1][..i] == nodes[..i];
        if Spec.SafeOf(reg, nodes[i]) == 0 {
          RevertedStaysReverted(nodeRegisteredToAccount, nodes, i + 1);
          return false;
        }
        reg := reg - {nodes[i]};
      }
      assert nodes[..|nodes|] == nodes;
      nodeRegisteredToAccount := reg;
    }

    method ManagerRegister(safes: seq<Address>, nodes: seq<Address>) returns (mined: bool)
      requires |safes| == |nodes|
      modifies this`nodeRegisteredToAccount
      ensures var r := Spec.ManagerRegister(old(nodeRegisteredToAccount), Zip(safes, nodes));
        mined == r.Some? && nodeRegisteredToAccount == if mined then r.value else old(nodeRegisteredToAccount)
    {
      var reg := nodeRegisteredToAccount;
      ghost var entries := Zip(safes, nodes);
      mined := true;
      for i := 0 to |nodes|
        invariant nodeRegisteredToAccount == old(nodeRegisteredToAccount)
        invariant Spec.ManagerRegister(nodeRegisteredToAccount, entries[..i]) == Some(reg)
      {
        assert entries[..i + 1][..i] == entries[..i];
        if Spec.SafeOf(reg, nodes[i]) != 0 {
          RefusedStaysRefused(nodeRegisteredToAccount, entries, i + 1);
          return false;
        }
        reg := Spec.Assign(reg, nodes[i], safes[i]);
      }
      assert entries[..|nodes|] == entries;
      nodeRegisteredToAccount := reg;
    }

    method ManagerForceSync(safes: seq<Address>)
      modifies this`eligible
      ensures eligible == old(eligible) + set s | s in safes
    {
      for i := 0 to |safes|
        invariant eligible == old(eligible) + set s | s in safes[..i]
      {
        eligible := eligible + {safes[i]};
      }
      assert safes[..|safes|] == safes;
    }
  }

  function Zip(safes: seq<Address>, nodes: seq<Address>): (entries: seq<Spec.Entry>)
    requires |safes| == |nodes|
    ensures |entries| == |nodes|
  {
    seq(|nodes|, i requires 0 <= i < |nodes| => Spec.Entry(safes[i], nodes[i]))
  }

  lemma {:induction false} RevertedStaysReverted(reg: Spec.Registry, nodes: seq<Address>, i: nat)
    requires i <= |nodes| && Spec.ManagerDeregister(reg, nodes[..i]) == None
    ensures Spec.ManagerDeregister(reg, nodes) == None
    decreases |nodes| - i
  {
    if i == |nodes| {
      assert nodes[..i] == nodes;
    } else {
      assert nodes[..i + 1][..i] == nodes[..i];
      RevertedStaysReverted(reg, nodes, i + 1);
    }
  }

  lemma {:induction false} RefusedStaysRefused(reg: Spec.Registry, entries: seq<Spec.Entry>, i: nat)
    requires i <= |entries| && Spec.ManagerRegister(reg, entries[..i]) == None
    ensures Spec.ManagerRegister(reg, entries) == None
    decreases |entries| - i
  {
    if i == |entries| {
      assert entries[..i] == entries;
    } else {
      assert entries[..i + 1][..i] == entries[..i];
      RefusedStaysRefused(reg, entries, i + 1);
    }
  }

  method RegisteredSafes(registry: HoprNetworkRegistry, nodes: seq<Address>) returns (safes: seq<Address>)
    ensures |safes| == |nodes|
    ensures forall i :: 0 <= i < |nodes| ==> safes[i] == Spec.SafeOf(registry.nodeRegisteredToAccount, nodes[i])
  {
    safes := seq(|nodes|, i requires 0 <= i < |nodes| reads registry => Spec.SafeOf(registry.nodeRegisteredToAccount, nodes[i]));
  }

  /** One reading of the registry, then at most two calls and the eligibility of what was added. */
  method RegisterSafesAndNodes(registry: HoprNetworkRegistry, safes: seq<Address>, nodes: seq<Address>)
    returns (counts: Option<(nat, nat)>)
    requires |safes| == |nodes|
    modifies registry
    ensures var before, requests := old(registry.nodeRegisteredToAccount), Zip(safes, nodes);
      var r := Spec.Reconcile(before, requests);
      && registry.nodeRegisteredToAccount == r.reg
      && counts == (if r.Done? then Some((r.removed, r.added)) else None)
      && registry.eligible == old(registry.eligible)
         + if r.Done? then (set e | e in Spec.ToAdd(before, requests) :: e.safe) else {}
  {
    ghost var before, requests := registry.nodeRegisteredToAccount, Zip(safes, nodes);
    var registered := RegisteredSafes(registry, nodes);
    var nodesToRemove, safesToAdd, nodesToAdd := [], [], [];
    for i := 0 to |registered|
      invariant registry.nodeRegisteredToAccount == before && registry.eligible == old(registry.eligible)
      invariant |safesToAdd| == |nodesToAdd|
      invariant nodesToRemove == Spec.ToRemove(before, requests[..i])
      invariant Zip(safesToAdd, nodesToAdd) == Spec.ToAdd(before, requests[..i])
    {
      assert requests[..i + 1][..i] == requests[..i];
      ZipAppend(safesToAdd, nodesToAdd, safes[i], nodes[i]);
      if registered[i] == 0 {
        safesToAdd := safesToAdd + [safes[i]];
        nodesToAdd := nodesToAdd + [nodes[i]];
      } else if registered[i] != safes[i] {
        nodesToRemove := nodesToRemove + [nodes[i]];
        safesToAdd := safesToAdd + [safes[i]];
        nodesToAdd := nodesToAdd + [nodes[i]];
      }
    }
    assert requests[..|requests|] == requests;
    if nodesToRemove != [] {
      var removed := registry.ManagerDeregister(nodesToRemove);
      if !removed {
        return None;
      }
    }
    var added := registry.ManagerRegister(safesToAdd, nodesToAdd);
    if !added {
      return None;
    }
    registry.ManagerForceSync(safesToAdd);
    SafesOfZip(safesToAdd, nodesToAdd);
    counts := Some((|nodesToRemove|, |nodesToAdd|));
  }

  lemma ZipAppend(safes: seq<Address>, nodes: seq<Address>, safe: Address, node: Address)
    requires |safes| == |nodes|
    ensures Zip(safes + [safe], nodes + [node]) == Zip(safes, nodes) + [Spec.Entry(safe, node)]
  {
  }

  lemma SafesOfZip(safes: seq<Address>, nodes: seq<Address>)
    requires |safes| == |nodes|
    ensures (set s | s in safes) == (set e | e in Zip(safes, nodes) :: e.safe)
  {
    forall s | s in safes ensures s in (set e | e in Zip(safes, nodes) :: e.safe) {
      var i :| 0 <= i < |safes| && safes[i] == s;
      assert Zip(safes, nodes)[i].safe == s;
      assert Zip(safes, nodes)[i] in Zip(safes, nodes);
    }
  }

  method DeregisterNodes(registry: HoprNetworkRegistry, nodes: seq<Address>) returns (count: Option<nat>)
    modifies registry`nodeRegisteredToAccount
    ensures var before := old(registry.nodeRegisteredToAccount);
      var r := Spec.ManagerDeregister(before, Spec.Registered(before, nodes));
      if r.Some? then count == Some(|Spec.Registered(before, nodes)|) && registry.nodeRegisteredToAccount == r.value
      else count == None && registry.nodeRegisteredToAccount == before
  {
    ghost var before := registry.nodeRegisteredToAccount;
    var registered := RegisteredSafes(registry, nodes);
    var nodesToRemove := [];
    for i := 0 to |registered|
      invariant registry.nodeRegisteredToAccount == before
      invariant nodesToRemove == Spec.Registered(before, nodes[..i])
    {
      assert nodes[..i + 1][..i] == nodes[..i];
      if registered[i] != 0 {
        nodesToRemove := nodesToRemove + [nodes[i]];
      }
    }
    assert nodes[..|nodes|] == nodes;
    if nodesToRemove != [] {
      var removed := registry.ManagerDeregister(nodesToRemove);
      if !removed {
        return None;
      }
    }
    count := Some(|nodesToRemove|);
  }
}
