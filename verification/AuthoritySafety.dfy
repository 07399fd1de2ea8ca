/** The maintenance counter over all interleavings of all clients. */
module AuthoritySafety {
  import opened Results
  import opened ContractState
  import opened Lifecycle

  // Every counter that is held anywhere was the chain's counter at some time, so it is at most the present one.

  predicate BodyOk(chain: Chain, body: Body) {
    match body
    case Maintain(address, counter, _, update) =>
      && address in chain && counter <= chain[address].authority.counter
      && (update.ReplaceAuthority? ==> update.authority.counter == counter + 1)
    case Deploy(_, contract) => contract.authority.counter == 0
    case Call(_, _) => true
  }

  predicate TaskOk(chain: Chain, t: Task) {
    match t.stage
    case Read(contract) =>
      var address := t.request.address;
      address in chain && contract.authority.counter <= chain[address].authority.counter
    case Built(body, _) => BodyOk(chain, body)
    case _ => true
  }

  ghost predicate Inv(s: World) {
    && (forall i :: 0 <= i < |s.txs| ==> BodyOk(s.chain, s.txs[i].body))
    && (forall id :: id in s.tasks ==> TaskOk(s.chain, s.tasks[id]))
  }

  ghost predicate ChainGrows(a: Chain, b: Chain) {
    forall address :: address in a ==> address in b && a[address].authority.counter <= b[address].authority.counter
  }

  /** Transactions are never withdrawn, and a verdict is final. */
  ghost predicate TxsGrow(a: seq<Tx>, b: seq<Tx>) {
    && |a| <= |b|
    && forall i :: 0 <= i < |a| ==> b[i].body == a[i].body && (a[i].verdict.Some? ==> b[i] == a[i])
  }

  lemma SettledGrows(p: Protocol, chain: Chain, body: Body, verdict: Verdict, data: nat)
    requires BodyOk(chain, body)
    ensures ChainGrows(chain, Settled(p, chain, body, verdict, data))
  {
  }

  lemma SettleKeeps(p: Protocol, s: World, i: nat, verdict: Verdict, data: nat)
    requires Inv(s) && Open(s, i)
    ensures var t := SettleTx(p, s, i, verdict, data); Inv(t) && ChainGrows(s.chain, t.chain) && TxsGrow(s.txs, t.txs)
  {
    SettledGrows(p, s.chain, s.txs[i].body, verdict, data);
  }

  /** What a task builds is in order when what it read is. */
  predicate ActionOk(chain: Chain, t: Task, action: Action) {
    match action
    case GoTo(stage) => TaskOk(chain, t.(stage := stage))
    case Submit(body, _) => BodyOk(chain, body)
    case StoreKey(_, rest) => rest.Some? ==> TaskOk(chain, t.(stage := rest.value))
    case StoreState(_, _, rest) => rest.Some? ==> TaskOk(chain, t.(stage := rest.value))
    case _ => true
  }

  lemma NextOk(p: Protocol, s: World, t: Task, sampled: SigningKey)
    requires TaskOk(s.chain, t)
    ensures ActionOk(s.chain, t, Next(p, s, t, sampled))
  {
  }

  lemma PerformKeeps(s: World, id: TaskId, action: Action)
    requires Inv(s) && id in s.tasks && ActionOk(s.chain, s.tasks[id], action)
    ensures var t := Perform(s, id, action); Inv(t) && t.chain == s.chain && TxsGrow(s.txs, t.txs)
  {
  }

  /** Every event keeps the invariant, raises counters only, and keeps transactions and verdicts. */
  lemma ApplyKeeps(p: Protocol, s: World, e: Event)
    requires Inv(s)
    ensures Inv(Apply(p, s, e)) && ChainGrows(s.chain, Apply(p, s, e).chain) && TxsGrow(s.txs, Apply(p, s, e).txs)
  {
    match e
    case Start(id, client, request) =>
    case Advance(id, sampled) =>
      if id in s.tasks {
        NextOk(p, s, s.tasks[id], sampled);
        PerformKeeps(s, id, Next(p, s, s.tasks[id], sampled));
      }
    case Settle(i, verdict, data) =>
      if Open(s, i) {
        SettleKeeps(p, s, i, verdict, data);
      }
    case Crash(client) =>
  }

  lemma {:induction false} RunKeeps(p: Protocol, s: World, es: seq<Event>)
    requires Inv(s)
    ensures Inv(Run(p, s, es)) && ChainGrows(s.chain, Run(p, s, es).chain) && TxsGrow(s.txs, Run(p, s, es).txs)
  {
    if es != [] {
      RunKeeps(p, s, es[..|es| - 1]);
      ApplyKeeps(p, Run(p, s, es[..|es| - 1]), es[|es| - 1]);
    }
  }

  /** Along every run the counter of every contract only grows, and contracts stay on the chain. */
  lemma CounterNeverDecreases(p: Protocol, before: seq<Event>, after: seq<Event>)
    ensures ChainGrows(Run(p, INITIAL, before).chain, Run(p, INITIAL, before + after).chain)
  {
    RunKeeps(p, INITIAL, before);
    RunKeeps(p, Run(p, INITIAL, before), after);
    RunConcat(p, INITIAL, before, after);
  }

  // Replacements

  predicate Succeeded(s: World, i: nat) {
    i < |s.txs| && s.txs[i].verdict == Some(SucceedEntirely)
  }

  /** Transaction `i` replaces an authority and this settlement applies it. */
  predicate Replaces(p: Protocol, s: World, i: nat, verdict: Verdict, data: nat) {
    && Open(s, i) && s.txs[i].body.Maintain? && s.txs[i].body.update.ReplaceAuthority?
    && Succeeded(SettleTx(p, s, i, verdict, data), i)
  }

  /** An applied replacement installs the authority it carries, one above the counter it was built on. */
  lemma ReplacementRaisesByOne(p: Protocol, es: seq<Event>, i: nat, verdict: Verdict, data: nat)
    requires Replaces(p, Run(p, INITIAL, es), i, verdict, data)
    ensures var s, t := Run(p, INITIAL, es), SettleTx(p, Run(p, INITIAL, es), i, verdict, data);
      var body := s.txs[i].body;
      && body.address in s.chain && body.address in t.chain
      && t.chain[body.address].authority == body.update.authority
      && t.chain[body.address].authority.counter == body.counter + 1 == s.chain[body.address].authority.counter + 1
      && body.signer == s.chain[body.address].authority.key
      && t.chain == s.chain[body.address := t.chain[body.address]]
  {
    RunKeeps(p, INITIAL, es);
  }

  /** Carries a counter that is behind the chain's. */
  predicate Behind(chain: Chain, body: Body) {
    body.Maintain? && body.address in chain && body.counter < chain[body.address].authority.counter
  }

  lemma BehindStays(before: Chain, after: Chain, body: Body)
    requires Behind(before, body) && ChainGrows(before, after)
    ensures Behind(after, body)
  {
  }

  lemma BehindIsRefused(p: Protocol, s: World, e: Event, j: nat)
    requires j < |Apply(p, s, e).txs|
    requires j < |s.txs| ==> Behind(s.chain, s.txs[j].body) && !Succeeded(s, j)
    ensures !Succeeded(Apply(p, s, e), j)
  {
  }

  /** A transaction that is behind and has not succeeded never will. */
  lemma {:induction false} BehindNeverSucceeds(p: Protocol, s: World, es: seq<Event>, j: nat)
    requires Inv(s) && j < |Run(p, s, es).txs| && Behind(s.chain, Run(p, s, es).txs[j].body)
    requires j < |s.txs| ==> s.txs[j].verdict != Some(SucceedEntirely)
    ensures !Succeeded(Run(p, s, es), j)
  {
    if es != [] {
      var front := es[..|es| - 1];
      var mid := Run(p, s, front);
      RunKeeps(p, s, front);
      ApplyKeeps(p, mid, es[|es| - 1]);
      if j < |mid.txs| {
        BehindNeverSucceeds(p, s, front, j);
        BehindStays(s.chain, mid.chain, mid.txs[j].body);
      }
      BehindIsRefused(p, mid, es[|es| - 1], j);
    }
  }

  /**
    No update built before an applied replacement applies after it. `j` is any other update for the contract that
    carries a counter read before the replacement was settled, whether already sent, or sent later by a task under way.
   */
  lemma StaleUpdatesNeverApply(p: Protocol, before: seq<Event>, i: nat, verdict: Verdict, data: nat, after: seq<Event>, j: nat)
    requires Replaces(p, Run(p, INITIAL, before), i, verdict, data)
    requires var s, end := Run(p, INITIAL, before), Run(p, INITIAL, before + [Settle(i, verdict, data)] + after);
      && j != i && j < |end.txs| && end.txs[j].body.Maintain?
      && end.txs[j].body.address == s.txs[i].body.address && end.txs[j].body.address in s.chain
      && end.txs[j].body.counter <= s.chain[end.txs[j].body.address].authority.counter
      && !Succeeded(s, j)
    ensures !Succeeded(Run(p, INITIAL, before + [Settle(i, verdict, data)] + after), j)
  {
    var e := Settle(i, verdict, data);
    var s := Run(p, INITIAL, before);
    var t := Apply(p, s, e);
    RunKeeps(p, INITIAL, before);
    ReplacementRaisesByOne(p, before, i, verdict, data);
    RunSnoc(p, INITIAL, before, e);
    RunKeeps(p, INITIAL, before + [e]);
    RunConcat(p, INITIAL, before + [e], after);
    BehindNeverSucceeds(p, t, after, j);
  }

  /** In particular every update already sent and every update a task has built or is about to build from what it read. */
  lemma HeldCountersAreCurrentOrBehind(p: Protocol, es: seq<Event>)
    ensures var s := Run(p, INITIAL, es);
      && (forall i :: 0 <= i < |s.txs| && s.txs[i].body.Maintain? ==> HeldCounter(s.chain, s.txs[i].body.address, s.txs[i].body.counter))
      && (forall id :: id in s.tasks && s.tasks[id].stage.Built? && s.tasks[id].stage.body.Maintain? ==>
            HeldCounter(s.chain, s.tasks[id].stage.body.address, s.tasks[id].stage.body.counter))
      && (forall id :: id in s.tasks && s.tasks[id].stage.Read? ==>
            HeldCounter(s.chain, s.tasks[id].request.address, s.tasks[id].stage.contract.authority.counter))
  {
    RunKeeps(p, INITIAL, es);
  }

  predicate HeldCounter(chain: Chain, address: Address, counter: nat) {
    address in chain && counter <= chain[address].authority.counter
  }

  // What builders read

  predicate ContractAt(p: Protocol, es: seq<Event>, k: nat, a: Address, contract: Contract)
    requires k <= |es|
  {
    a in Run(p, INITIAL, es[..k]).chain && Run(p, INITIAL, es[..k]).chain[a] == contract
  }

  /** The update is one for this contract: keys go in where there is none and out where there is one. */
  predicate MadeFor(contract: Contract, update: Update) {
    match update
    case ReplaceAuthority(authority) => authority.counter == contract.authority.counter + 1
    case InsertKey(id, _) => id !in contract.operations
    case RemoveKey(id) => id in contract.operations
  }

  /** After `k` events the contract had the counter of this update, and the update is one for the contract as it was. */
  predicate UpdateAt(p: Protocol, es: seq<Event>, k: nat, a: Address, counter: nat, update: Update)
    requires k <= |es|
  {
    var chain := Run(p, INITIAL, es[..k]).chain;
    a in chain && chain[a].authority.counter == counter && MadeFor(chain[a], update)
  }

  predicate KeyAt(p: Protocol, es: seq<Event>, k: nat, a: Address, key: SigningKey)
    requires k <= |es|
  {
    exists c :: c in Run(p, INITIAL, es[..k]).stores && StoredKey(Run(p, INITIAL, es[..k]), c, a) == Some(key)
  }

  /** The update was made for the contract of some time, with its counter, and then or later some client held the key. */
  ghost predicate WasRead(p: Protocol, es: seq<Event>, body: Body) {
    body.Maintain? ==>
      exists k, m :: 0 <= k <= m <= |es| && UpdateAt(p, es, k, body.address, body.counter, body.update)
                     && KeyAt(p, es, m, body.address, body.signer)
  }

  ghost predicate WasContract(p: Protocol, es: seq<Event>, a: Address, contract: Contract) {
    exists k :: 0 <= k <= |es| && ContractAt(p, es, k, a, contract)
  }

  ghost predicate TaskRead(p: Protocol, es: seq<Event>, t: Task) {
    match t.stage
    case Read(contract) =>
      && WasContract(p, es, t.request.address, contract)
      && (t.request.MaintainContract? ==> MadeFor(contract, UpdateFor(t.request.wish, contract)))
    case Built(body, _) => WasRead(p, es, body)
    case _ => true
  }

  ghost predicate AllRead(p: Protocol, es: seq<Event>, s: World) {
    && (forall i :: 0 <= i < |s.txs| ==> WasRead(p, es, s.txs[i].body))
    && (forall id :: id in s.tasks ==> TaskRead(p, es, s.tasks[id]))
  }

  lemma ContractBefore(p: Protocol, es: seq<Event>, e: Event, k: nat)
    requires k <= |es|
    ensures forall a, c :: ContractAt(p, es, k, a, c) ==> ContractAt(p, es + [e], k, a, c)
    ensures forall a, n, u :: UpdateAt(p, es, k, a, n, u) ==> UpdateAt(p, es + [e], k, a, n, u)
  {
    assert (es + [e])[..k] == es[..k];
  }

  lemma KeyBefore(p: Protocol, es: seq<Event>, e: Event, k: nat, a: Address, key: SigningKey)
    requires k <= |es| && KeyAt(p, es, k, a, key)
    ensures KeyAt(p, es + [e], k, a, key)
  {
    assert (es + [e])[..k] == es[..k];
  }

  lemma ReadBefore(p: Protocol, es: seq<Event>, e: Event, body: Body)
    requires WasRead(p, es, body)
    ensures WasRead(p, es + [e], body)
  {
    if body.Maintain? {
      var k, m :| 0 <= k <= m <= |es| && UpdateAt(p, es, k, body.address, body.counter, body.update)
        && KeyAt(p, es, m, body.address, body.signer);
      ContractBefore(p, es, e, k);
      KeyBefore(p, es, e, m, body.address, body.signer);
    }
  }

  lemma TaskReadBefore(p: Protocol, es: seq<Event>, e: Event, t: Task)
    requires TaskRead(p, es, t)
    ensures TaskRead(p, es + [e], t)
  {
    if t.stage.Read? {
      var k :| 0 <= k <= |es| && ContractAt(p, es, k, t.request.address, t.stage.contract);
      ContractBefore(p, es, e, k);
    } else if t.stage.Built? {
      ReadBefore(p, es, e, t.stage.body);
    }
  }

  ghost predicate ActionRead(p: Protocol, es: seq<Event>, t: Task, action: Action) {
    match action
    case GoTo(stage) => TaskRead(p, es, t.(stage := stage))
    case Submit(body, _) => WasRead(p, es, body)
    case StoreKey(_, rest) => rest.Some? ==> TaskRead(p, es, t.(stage := rest.value))
    case StoreState(_, _, rest) => rest.Some? ==> TaskRead(p, es, t.(stage := rest.value))
    case _ => true
  }

  lemma StageRead(p: Protocol, es: seq<Event>, t: Task, sampled: SigningKey)
    requires TaskRead(p, es, t)
    ensures ActionRead(p, es, t, Next(p, Run(p, INITIAL, es), t, sampled))
  {
    var s := Run(p, INITIAL, es);
    if t.stage.Started? && t.request.address in s.chain {
      ContractNow(p, es, t.request.address);
    }
    if t.stage.Read? && t.request.MaintainContract? && StoredKey(s, t.client, t.request.address).Some? {
      BuiltRead(p, es, t);
    }
  }

  lemma ContractNow(p: Protocol, es: seq<Event>, a: Address)
    requires a in Run(p, INITIAL, es).chain
    ensures WasContract(p, es, a, Run(p, INITIAL, es).chain[a])
  {
    assert es[..|es|] == es;
    assert ContractAt(p, es, |es|, a, Run(p, INITIAL, es).chain[a]);
  }

  lemma KeyNow(p: Protocol, es: seq<Event>, c: ClientId, a: Address)
    requires StoredKey(Run(p, INITIAL, es), c, a).Some?
    ensures KeyAt(p, es, |es|, a, StoredKey(Run(p, INITIAL, es), c, a).value)
  {
    assert es[..|es|] == es;
    assert c in Run(p, INITIAL, es).stores;
  }

  /** The update built from what was read of the chain earlier and of the store now. */
  lemma BuiltRead(p: Protocol, es: seq<Event>, t: Task)
    requires t.stage.Read? && t.request.MaintainContract? && TaskRead(p, es, t)
    requires StoredKey(Run(p, INITIAL, es), t.client, t.request.address).Some?
    ensures var contract := t.stage.contract;
      var key := StoredKey(Run(p, INITIAL, es), t.client, t.request.address).value;
      WasRead(p, es, Maintain(t.request.address, contract.authority.counter, key, UpdateFor(t.request.wish, contract)))
  {
    var a, contract := t.request.address, t.stage.contract;
    var k :| 0 <= k <= |es| && ContractAt(p, es, k, a, contract);
    KeyNow(p, es, t.client, a);
    assert UpdateAt(p, es, k, a, contract.authority.counter, UpdateFor(t.request.wish, contract));
  }

  lemma EventRead(p: Protocol, es: seq<Event>, e: Event)
    requires AllRead(p, es, Run(p, INITIAL, es))
    ensures AllRead(p, es, Apply(p, Run(p, INITIAL, es), e))
  {
    var s := Run(p, INITIAL, es);
    if e.Advance? && e.task in s.tasks {
      StageRead(p, es, s.tasks[e.task], e.sampled);
    }
  }

  /**
    Every update was made for the contract as it was read, one circuit to insert that it did not have or one to remove
    that it had, with its counter, and then signed with a key a client held.
   */
  lemma {:induction false} UpdatesAreBuiltFromReads(p: Protocol, es: seq<Event>)
    ensures AllRead(p, es, Run(p, INITIAL, es))
  {
    if es != [] {
      var front, e := es[..|es| - 1], es[|es| - 1];
      assert front + [e] == es;
      UpdatesAreBuiltFromReads(p, front);
      EventRead(p, front, e);
      var t := Run(p, INITIAL, es);
      forall i | 0 <= i < |t.txs| ensures WasRead(p, es, t.txs[i].body) {
        ReadBefore(p, front, e, t.txs[i].body);
      }
      forall id | id in t.tasks ensures TaskRead(p, es, t.tasks[id]) {
        TaskReadBefore(p, front, e, t.tasks[id]);
      }
    }
  }
}
