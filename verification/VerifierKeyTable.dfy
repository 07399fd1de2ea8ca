/** The verifier keys of a contract on the chain: one update after another, and updates of many clients at once. */
module VerifierKeyTable {
  import opened Results
  import opened ContractState
  import opened Lifecycle
  import opened AuthoritySafety
  import opened Sequential

  // One after another

  /** An insertion or removal and what the node makes of it. */
  datatype KeyStep = KeyStep(wish: Wish, verdict: Verdict)

  predicate KeySteps(steps: seq<KeyStep>) {
    forall i :: 0 <= i < |steps| ==> !steps[i].wish.ReplaceWith?
  }

  function ServeKeys(p: Protocol, s: World, c: ClientId, a: Address, steps: seq<KeyStep>): World
    decreases |steps|
  {
    if steps == [] then s else ServeKeys(p, ServeMaintain(p, s, c, a, steps[0].wish, steps[0].verdict), c, a, steps[1..])
  }

  predicate Succeeds(ops: Operations, step: KeyStep) {
    && step.verdict.SucceedEntirely?
    && (step.wish.Insert? ==> step.wish.id !in ops) && (step.wish.Remove? ==> step.wish.id in ops)
  }

  /** The table after the steps that succeed. */
  function FoldKeys(ops: Operations, steps: seq<KeyStep>): Operations
    decreases |steps|
  {
    if steps == [] then ops
    else
      var wish := steps[0].wish;
      var next :=
        if !Succeeds(ops, steps[0]) then ops
        else if wish.Insert? then ops[wish.id := wish.key]
        else if wish.Remove? then ops - {wish.id}
        else ops;
      FoldKeys(next, steps[1..])
  }

  /**
    The table on the chain is the fold of the successful steps; the authority's key, the other contracts and the local
    stores stay as they were.
   */
  lemma {:induction false} TableIsFold(p: Protocol, s: World, c: ClientId, a: Address, steps: seq<KeyStep>)
    requires KeySteps(steps) && a in s.chain && StoredKey(s, c, a) == Some(s.chain[a].authority.key)
    ensures var t := ServeKeys(p, s, c, a, steps);
      && a in t.chain && t.chain[a].operations == FoldKeys(s.chain[a].operations, steps)
      && t.chain[a].authority.key == s.chain[a].authority.key && t.chain == s.chain[a := t.chain[a]]
      && t.stores == s.stores
    decreases |steps|
  {
    if steps != [] {
      TableIsFold(p, ServeMaintain(p, s, c, a, steps[0].wish, steps[0].verdict), c, a, steps[1..]);
    }
  }

  /** A defined key survives every step but its own successful removal; no insertion overwrites it. */
  lemma {:induction false} KeysStayUntilRemoved(ops: Operations, steps: seq<KeyStep>, id: CircuitId)
    requires KeySteps(steps) && id in ops
    requires forall i :: 0 <= i < |steps| ==> steps[i].wish != Wish.Remove(id)
    ensures id in FoldKeys(ops, steps) && FoldKeys(ops, steps)[id] == ops[id]
    decreases |steps|
  {
    if steps != [] {
      assert steps[0].wish != Wish.Remove(id);
      var wish := steps[0].wish;
      var next :=
        if !Succeeds(ops, steps[0]) then ops
        else if wish.Insert? then ops[wish.id := wish.key]
        else ops - {wish.id};
      KeysStayUntilRemoved(next, steps[1..], id);
    }
  }

  /** Removing a key and inserting it again restores the table. */
  lemma RemoveThenInsert(p: Protocol, s: World, c: ClientId, a: Address, id: CircuitId)
    requires a in s.chain && StoredKey(s, c, a) == Some(s.chain[a].authority.key) && id in s.chain[a].operations
    ensures var removal := KeyStep(Wish.Remove(id), SucceedEntirely);
      var insertion := KeyStep(Insert(id, s.chain[a].operations[id]), SucceedEntirely);
      var t := ServeKeys(p, s, c, a, [removal, insertion]);
      a in t.chain && t.chain[a].operations == s.chain[a].operations
  {
    var ops := s.chain[a].operations;
    var removal, insertion := KeyStep(Wish.Remove(id), SucceedEntirely), KeyStep(Insert(id, ops[id]), SucceedEntirely);
    TableIsFold(p, s, c, a, [removal, insertion]);
    assert [removal, insertion][1..] == [insertion];
    assert FoldKeys(ops, [removal, insertion]) == FoldKeys(ops - {id}, [insertion]);
    assert FoldKeys(ops - {id}, [insertion]) == (ops - {id})[id := ops[id]];
    assert (ops - {id})[id := ops[id]] == ops;
  }

  // Many at once

  /** Settling transaction `i` puts a key where one is defined. */
  predicate Overwrites(s: World, i: nat, verdict: Verdict) {
    && Open(s, i) && s.txs[i].body.Maintain? && s.txs[i].body.update.InsertKey?
    && Ruling(s.chain, s.txs[i].body, verdict).SucceedEntirely?
    && s.txs[i].body.address in s.chain && s.txs[i].body.update.id in s.chain[s.txs[i].body.address].operations
  }

  /** An insertion built on the present counter was built on the present table. */
  predicate UpToDateBody(chain: Chain, body: Body) {
    body.Maintain? && body.update.InsertKey? && body.address in chain && body.counter == chain[body.address].authority.counter
    ==> body.update.id !in chain[body.address].operations
  }

  predicate UpToDateTask(chain: Chain, t: Task) {
    && (t.stage.Built? ==> UpToDateBody(chain, t.stage.body))
    && (t.stage.Read? ==>
          && (t.request.MaintainContract? ==> Permitted(t.request.wish, t.stage.contract))
          && (t.request.address in chain && t.stage.contract.authority.counter == chain[t.request.address].authority.counter
              ==> t.stage.contract.operations == chain[t.request.address].operations))
  }

  ghost predicate UpToDate(s: World) {
    && (forall i :: 0 <= i < |s.txs| ==> UpToDateBody(s.chain, s.txs[i].body))
    && (forall id :: id in s.tasks ==> UpToDateTask(s.chain, s.tasks[id]))
  }

  /** Where a settlement changes a table it raises the counter. */
  lemma TableChangesRaiseCounter(p: Protocol, chain: Chain, body: Body, verdict: Verdict, data: nat, a: Address)
    requires BodyOk(chain, body) && p.keyBump > 0 && a in chain
    ensures var after := Settled(p, chain, body, verdict, data);
      && a in after && chain[a].authority.counter <= after[a].authority.counter
      && (chain[a].authority.counter == after[a].authority.counter ==> chain[a].operations == after[a].operations)
  {
  }

  lemma UpToDateSettle(p: Protocol, s: World, i: nat, verdict: Verdict, data: nat)
    requires Inv(s) && UpToDate(s) && p.keyBump > 0 && Open(s, i)
    ensures UpToDate(SettleTx(p, s, i, verdict, data))
  {
    var t := SettleTx(p, s, i, verdict, data);
    assert BodyOk(s.chain, s.txs[i].body);
    forall j | 0 <= j < |t.txs| ensures UpToDateBody(t.chain, t.txs[j].body) {
      BodyStaysUpToDate(p, s.chain, s.txs[i].body, verdict, data, s.txs[j].body);
    }
    forall id | id in t.tasks ensures UpToDateTask(t.chain, t.tasks[id]) {
      var task := s.tasks[id];
      assert UpToDateTask(s.chain, task) && TaskOk(s.chain, task);
      if task.stage.Built? {
        BodyStaysUpToDate(p, s.chain, s.txs[i].body, verdict, data, task.stage.body);
      }
      if task.request.address in s.chain {
        TableChangesRaiseCounter(p, s.chain, s.txs[i].body, verdict, data, task.request.address);
      }
    }
  }

  lemma BodyStaysUpToDate(p: Protocol, chain: Chain, settled: Body, verdict: Verdict, data: nat, body: Body)
    requires BodyOk(chain, settled) && BodyOk(chain, body) && UpToDateBody(chain, body) && p.keyBump > 0
    ensures UpToDateBody(Settled(p, chain, settled, verdict, data), body)
  {
    if body.Maintain? {
      TableChangesRaiseCounter(p, chain, settled, verdict, data, body.address);
    }
  }

  predicate ActionUpToDate(chain: Chain, t: Task, action: Action) {
    match action
    case GoTo(stage) => UpToDateTask(chain, t.(stage := stage))
    case Submit(body, _) => UpToDateBody(chain, body)
    case StoreKey(_, rest) => rest.Some? ==> UpToDateTask(chain, t.(stage := rest.value))
    case StoreState(_, _, rest) => rest.Some? ==> UpToDateTask(chain, t.(stage := rest.value))
    case _ => true
  }

  lemma NextUpToDate(p: Protocol, s: World, t: Task, sampled: SigningKey)
    requires UpToDateTask(s.chain, t)
    ensures ActionUpToDate(s.chain, t, Next(p, s, t, sampled))
  {
  }

  lemma PerformUpToDate(s: World, id: TaskId, action: Action)
    requires UpToDate(s) && id in s.tasks && ActionUpToDate(s.chain, s.tasks[id], action)
    ensures UpToDate(Perform(s, id, action))
  {
  }

  lemma {:induction false} AlwaysUpToDate(p: Protocol, es: seq<Event>)
    requires p.keyBump > 0
    ensures Inv(Run(p, INITIAL, es)) && UpToDate(Run(p, INITIAL, es))
  {
    if es != [] {
      var front, e := es[..|es| - 1], es[|es| - 1];
      var s := Run(p, INITIAL, front);
      AlwaysUpToDate(p, front);
      ApplyKeeps(p, s, e);
      if e.Settle? && Open(s, e.tx) {
        UpToDateSettle(p, s, e.tx, e.verdict, e.data);
      } else if e.Advance? && e.task in s.tasks {
        NextUpToDate(p, s, s.tasks[e.task], e.sampled);
        PerformUpToDate(s, e.task, Next(p, s, s.tasks[e.task], e.sampled));
      }
    }
  }

  // When updates leave the counter alone

  function Insertion(s: World, c: ClientId, a: Address, id: CircuitId, key: VerifierKey): Body
    requires a in s.chain && StoredKey(s, c, a).Some?
  {
    Maintain(a, s.chain[a].authority.counter, StoredKey(s, c, a).value, InsertKey(id, key))
  }

  function Sending(task: TaskId, c: ClientId, a: Address, id: CircuitId, key: VerifierKey): seq<Event> {
    [Start(task, c, MaintainContract(a, Insert(id, key))), Advance(task, ""), Advance(task, ""), Advance(task, "")]
  }

  lemma Sends(p: Protocol, s: World, task: TaskId, c: ClientId, a: Address, id: CircuitId, key: VerifierKey)
    requires task !in s.tasks && a in s.chain && id !in s.chain[a].operations && StoredKey(s, c, a).Some?
    ensures Run(p, s, Sending(task, c, a, id, key))
            == During(Pending(s, Insertion(s, c, a, id, key)), task, c, MaintainContract(a, Insert(id, key)), Waiting(|s.txs|, NotRun))
  {
    var r := MaintainContract(a, Insert(id, key));
    var start, step := Start(task, c, r), Advance(task, "");
    Run3(p, s, start, step, step);
    RunSnoc(p, s, [start, step, step], step);
    assert [start, step, step] + [step] == Sending(task, c, a, id, key);
    BuildsUpdate(p, s, task, c, a, Insert(id, key), "");
    AdvanceAlone(p, s, task, c, r, Built(Insertion(s, c, a, id, key), NotRun), "");
  }

  /** Both insertions have been sent on the same chain. */
  ghost predicate BothSent(s: World, t: World, c: ClientId, a: Address, id: CircuitId, k1: VerifierKey, k2: VerifierKey)
    requires a in s.chain && StoredKey(s, c, a).Some?
  {
    t.chain == s.chain && t.txs == s.txs + [Tx(Insertion(s, c, a, id, k1), None), Tx(Insertion(s, c, a, id, k2), None)]
  }

  lemma SendsTwice(p: Protocol, s: World, c: ClientId, a: Address, id: CircuitId, k1: VerifierKey, k2: VerifierKey)
    requires s.tasks == map[] && a in s.chain && id !in s.chain[a].operations && StoredKey(s, c, a).Some?
    ensures BothSent(s, Run(p, s, Sending(1, c, a, id, k1) + Sending(2, c, a, id, k2)), c, a, id, k1, k2)
  {
    var first, second := Sending(1, c, a, id, k1), Sending(2, c, a, id, k2);
    Sends(p, s, 1, c, a, id, k1);
    var s1 := Run(p, s, first);
    assert StoredKey(s1, c, a) == StoredKey(s, c, a) && s1.chain == s.chain;
    assert Insertion(s1, c, a, id, k2) == Insertion(s, c, a, id, k2);
    Sends(p, s1, 2, c, a, id, k2);
    RunConcat(p, s, first, second);
  }

  lemma SettlesOver(p: Protocol, s: World, t: World, c: ClientId, a: Address, id: CircuitId, k1: VerifierKey, k2: VerifierKey)
    requires p.keyBump == 0 && a in s.chain && StoredKey(s, c, a) == Some(s.chain[a].authority.key)
    requires BothSent(s, t, c, a, id, k1, k2)
    ensures Overwrites(Apply(p, t, Settle(|s.txs|, SucceedEntirely, 0)), |s.txs| + 1, SucceedEntirely)
  {
    assert t.txs[|s.txs|] == Tx(Insertion(s, c, a, id, k1), None);
    assert t.txs[|s.txs| + 1] == Tx(Insertion(s, c, a, id, k2), None);
  }

  /** Two insertions for a circuit, both sent before the first is settled. */
  lemma SecondOverwrites(p: Protocol, s: World, c: ClientId, a: Address, id: CircuitId, k1: VerifierKey, k2: VerifierKey)
    requires p.keyBump == 0 && s.tasks == map[] && a in s.chain && id !in s.chain[a].operations
    requires StoredKey(s, c, a) == Some(s.chain[a].authority.key)
    ensures var es := Sending(1, c, a, id, k1) + Sending(2, c, a, id, k2) + [Settle(|s.txs|, SucceedEntirely, 0)];
      Overwrites(Run(p, s, es), |s.txs| + 1, SucceedEntirely)
  {
    var sent := Sending(1, c, a, id, k1) + Sending(2, c, a, id, k2);
    SendsTwice(p, s, c, a, id, k1, k2);
    SettlesOver(p, s, Run(p, s, sent), c, a, id, k1, k2);
    RunSnoc(p, s, sent, Settle(|s.txs|, SucceedEntirely, 0));
  }

  /** Some run overwrites a defined key exactly when the node leaves the counter alone on verifier-key updates. */
  lemma OverwriteIff(p: Protocol)
    ensures (exists es, i, verdict :: Overwrites(Run(p, INITIAL, es), i, verdict)) <==> p.keyBump == 0
  {
    if p.keyBump == 0 {
      var r := DeployContract("a", "k", map[], 0, None, "");
      var deploy := Block(0, "c", r, 0, SucceedEntirely, 0, "");
      DeployRefines(p, INITIAL, 0, "c", r, SucceedEntirely, "");
      var s := Run(p, INITIAL, deploy);
      assert s.chain["a"] == Contract(Authority("k", 0), map[], 0);
      assert StoredKey(s, "c", "a") == Some("k");
      SecondOverwrites(p, s, "c", "a", "x", [], [0]);
      var es := Sending(1, "c", "a", "x", []) + Sending(2, "c", "a", "x", [0]) + [Settle(|s.txs|, SucceedEntirely, 0)];
      RunConcat(p, INITIAL, deploy, es);
      assert Overwrites(Run(p, INITIAL, deploy + es), |s.txs| + 1, SucceedEntirely);
    } else {
      forall es, i, verdict ensures !Overwrites(Run(p, INITIAL, es), i, verdict) {
        AlwaysUpToDate(p, es);
      }
    }
  }
}
