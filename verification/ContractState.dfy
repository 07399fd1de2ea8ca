/** Verifier keys and the maintenance authority of a contract state: installing them at deployment, checking them later. */
module ContractState {
  import opened Results
  import opened HexUtils

  type CircuitId = string
  type VerifierKey = seq<byte>
  type SigningKey = string

  /** A maintenance authority of one member with threshold one. */
  datatype Authority = Authority(key: SigningKey, counter: nat)

  datatype Listed = Listed(id: CircuitId, key: VerifierKey)

  type Operations = map<CircuitId, VerifierKey>

  // Installing keys

  /** The table after installing the listed keys in order, and the first listed circuit it does not have. */
  function Install(ops: Operations, listed: seq<Listed>): (Operations, Option<CircuitId>) {
    if listed == [] then (ops, None)
    else if listed[0].id !in ops then (ops, Some(listed[0].id))
    else Install(ops[listed[0].id := listed[0].key], listed[1..])
  }

  /** The contract state the ledger works on. `operation(id)` hands out a copy and `setOperation` puts it back. */
  class LedgerContractState {
    var operations: Operations
    var maintenanceAuthority: Authority

    constructor (operations: Operations, authority: Authority)
      ensures this.operations == operations && this.maintenanceAuthority == authority
    {
      this.operations := operations;
      this.maintenanceAuthority := authority;
    }

    /** Fails at the first circuit that the state does not have; the keys before it stay installed. */
    method AddVerifierKeys(listed: seq<Listed>) returns (undefinedCircuit: Option<CircuitId>)
      modifies this`operations
      ensures (operations, undefinedCircuit) == Install(old(operations), listed)
    {
      for i := 0 to |listed|
        invariant Install(operations, listed[i..]) == Install(old(operations), listed)
      {
        if listed[i].id !in operations {
          return Some(listed[i].id);
        }
        operations := operations[listed[i].id := listed[i].key];
        assert listed[i..][1..] == listed[i + 1..];
      }
      undefinedCircuit := None;
    }

    method AddMaintenanceAuthority(key: SigningKey)
      modifies this`maintenanceAuthority
      ensures maintenanceAuthority == Authority(key, 0)
    {
      maintenanceAuthority := NextAuthority(key, None);
    }

    /** The contract state that goes into a deployment; `Some` is the circuit whose absence makes it fail. */
    method PrepareDeploy(listed: seq<Listed>, key: SigningKey) returns (undefinedCircuit: Option<CircuitId>)
      modifies this
      ensures (operations, undefinedCircuit) == Install(old(operations), listed)
      ensures maintenanceAuthority == if undefinedCircuit.None? then Authority(key, 0) else old(maintenanceAuthority)
    {
      undefinedCircuit := AddVerifierKeys(listed);
      if undefinedCircuit.None? {
        AddMaintenanceAuthority(key);
      }
    }

    /** Throws, listing the circuits, unless every listed key is the one deployed. */
    method VerifyContractState(listed: seq<Listed>) returns (mismatched: seq<CircuitId>)
      ensures mismatched == Mismatches(operations, listed)
    {
      mismatched := [];
      assert listed[..|listed|] == listed;
      for i := 0 to |listed|
        invariant mismatched == Mismatches(operations, listed[..i])
      {
        MismatchesSnoc(operations, listed[..i], listed[i]);
        assert listed[..i] + [listed[i]] == listed[..i + 1];
        if listed[i].id !in operations || !VerifierKeysEqual(listed[i].key, operations[listed[i].id]) {
          mismatched := mismatched + [listed[i].id];
        }
      }
    }
  }

  /** A new authority counts one more than the state it replaces, or starts at zero. */
  function NextAuthority(key: SigningKey, replaced: Option<Authority>): Authority {
    Authority(key, if replaced.Some? then replaced.value.counter + 1 else 0)
  }

  // Checking keys

  predicate Holds(ops: Operations, l: Listed) {
    l.id in ops && ops[l.id] == l.key
  }

  /** The circuits, in listed order, whose key is not the one in the table. */
  function Mismatches(ops: Operations, listed: seq<Listed>): seq<CircuitId> {
    if listed == [] then []
    else (if Holds(ops, listed[0]) then [] else [listed[0].id]) + Mismatches(ops, listed[1..])
  }

  lemma {:induction false} MismatchesSnoc(ops: Operations, front: seq<Listed>, last: Listed)
    ensures Mismatches(ops, front + [last]) == Mismatches(ops, front) + if Holds(ops, last) then [] else [last.id]
    ensures Holds(ops, last) <==> !(last.id !in ops || !VerifierKeysEqual(last.key, ops[last.id]))
  {
    if last.id in ops {
      VerifierKeysEqualIff(last.key, ops[last.id]);
    }
    if front == [] {
      assert front + [last] == [last];
    } else {
      assert (front + [last])[1..] == front[1..] + [last];
      MismatchesSnoc(ops, front[1..], last);
    }
  }

  lemma {:induction false} NoMismatchIff(ops: Operations, listed: seq<Listed>)
    ensures Mismatches(ops, listed) == [] <==> forall i :: 0 <= i < |listed| ==> Holds(ops, listed[i])
  {
    if listed != [] {
      NoMismatchIff(ops, listed[1..]);
      assert forall i :: 0 < i < |listed| ==> listed[i] == listed[1..][i - 1];
    }
  }

  // What installing does

  /** Whether a later entry of the list names the same circuit. */
  predicate Repeated(listed: seq<Listed>, i: nat)
    requires i < |listed|
  {
    exists j :: i < j < |listed| && listed[j].id == listed[i].id
  }

  /**
    Installing succeeds exactly when the state has every listed circuit. It never adds or drops a circuit, leaves the
    unlisted ones alone, and of several entries for a circuit the last one counts.
   */
  lemma {:induction false} InstallMeaning(ops: Operations, listed: seq<Listed>)
    ensures Install(ops, listed).1.None? <==> forall i :: 0 <= i < |listed| ==> listed[i].id in ops
    ensures Install(ops, listed).0.Keys == ops.Keys
    ensures forall id :: id in ops && (forall i :: 0 <= i < |listed| ==> listed[i].id != id) ==> Install(ops, listed).0[id] == ops[id]
    ensures Install(ops, listed).1.None? ==>
              forall i :: 0 <= i < |listed| && !Repeated(listed, i) ==> Holds(Install(ops, listed).0, listed[i])
  {
    if listed != [] && listed[0].id in ops {
      var rest := listed[1..];
      InstallMeaning(ops[listed[0].id := listed[0].key], rest);
      assert forall i :: 0 < i < |listed| ==> listed[i] == rest[i - 1];
      forall i | 0 <= i < |listed| && !Repeated(listed, i) && Install(ops, listed).1.None?
        ensures Holds(Install(ops, listed).0, listed[i])
      {
        if i > 0 {
          assert !Repeated(rest, i - 1);
        }
      }
    }
  }

  /** On failure the reported circuit is the first one missing, and the keys before it are installed. */
  lemma {:induction false} InstallFails(ops: Operations, listed: seq<Listed>)
    requires Install(ops, listed).1.Some?
    ensures exists k :: 0 <= k < |listed| && FailsAt(ops, listed, k)
  {
    if listed[0].id !in ops {
      assert listed[..0] == [];
      assert FailsAt(ops, listed, 0);
    } else {
      InstallFails(ops[listed[0].id := listed[0].key], listed[1..]);
      var k :| 0 <= k < |listed[1..]| && FailsAt(ops[listed[0].id := listed[0].key], listed[1..], k);
      assert listed[..k + 1] == [listed[0]] + listed[1..][..k];
      assert forall i :: 0 < i < k + 1 ==> listed[i] == listed[1..][i - 1];
      assert FailsAt(ops, listed, k + 1);
    }
  }

  predicate FailsAt(ops: Operations, listed: seq<Listed>, k: nat)
    requires k < |listed|
  {
    && listed[k].id !in ops && (forall i :: 0 <= i < k ==> listed[i].id in ops)
    && Install(ops, listed) == (Install(ops, listed[..k]).0, Some(listed[k].id))
  }

  /** Entries for the same circuit carry the same key. */
  predicate Consistent(listed: seq<Listed>) {
    forall i, j :: 0 <= i < j < |listed| && listed[i].id == listed[j].id ==> listed[i].key == listed[j].key
  }

  /** The last entry for a circuit. */
  lemma {:induction false} LastEntry(listed: seq<Listed>, i: nat) returns (k: nat)
    requires i < |listed|
    ensures i <= k < |listed| && listed[k].id == listed[i].id && !Repeated(listed, k)
    decreases |listed| - i
  {
    if Repeated(listed, i) {
      var j :| i < j < |listed| && listed[j].id == listed[i].id;
      k := LastEntry(listed, j);
    } else {
      k := i;
    }
  }

  /** A state just prepared with a list of keys passes the check against that list exactly when the list is consistent. */
  lemma DeployThenVerify(ops: Operations, listed: seq<Listed>)
    requires forall i :: 0 <= i < |listed| ==> listed[i].id in ops
    ensures Mismatches(Install(ops, listed).0, listed) == [] <==> Consistent(listed)
  {
    var after := Install(ops, listed).0;
    InstallMeaning(ops, listed);
    NoMismatchIff(after, listed);
    forall i | 0 <= i < |listed| ensures Consistent(listed) ==> Holds(after, listed[i]) {
      var k := LastEntry(listed, i);
      assert Holds(after, listed[k]);
    }
    if Mismatches(after, listed) == [] {
      forall i, j | 0 <= i < j < |listed| && listed[i].id == listed[j].id ensures listed[i].key == listed[j].key {
        assert Holds(after, listed[i]) && Holds(after, listed[j]);
      }
    }
  }

  predicate DistinctIds(listed: seq<Listed>) {
    forall i, j :: 0 <= i < j < |listed| ==> listed[i].id != listed[j].id
  }

  /** With distinct circuit ids every listed operation holds its key, the others are unchanged, and the check accepts. */
  lemma DeployThenFind(ops: Operations, listed: seq<Listed>)
    requires DistinctIds(listed) && Install(ops, listed).1.None?
    ensures var after := Install(ops, listed).0;
      && after.Keys == ops.Keys
      && (forall i :: 0 <= i < |listed| ==> Holds(after, listed[i]))
      && (forall id :: id in ops && (forall i :: 0 <= i < |listed| ==> listed[i].id != id) ==> after[id] == ops[id])
      && Mismatches(after, listed) == []
  {
    InstallMeaning(ops, listed);
    DeployThenVerify(ops, listed);
    NoMismatchIff(Install(ops, listed).0, listed);
  }
}
