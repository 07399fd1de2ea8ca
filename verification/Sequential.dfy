/** One request at a time: what each function does when nothing runs beside it, as one step of the same system. */
module Sequential {
  import opened Results
  import opened ContractState
  import opened Lifecycle

  /** The transaction `body` is sent and settled. */
  function Sent(p: Protocol, s: World, body: Body, verdict: Verdict, data: nat): World {
    s.(chain := Settled(p, s.chain, body, verdict, data), txs := s.txs + [Tx(body, Some(Ruling(s.chain, body, verdict)))])
  }

  function WithKey(s: World, c: ClientId, a: Address, key: SigningKey): World {
    var store := StoreOf(s, c);
    s.(stores := s.stores[c := store.(keys := store.keys[a := key])])
  }

  function WithState(s: World, c: ClientId, slot: StateId, value: PrivateState): World {
    var store := StoreOf(s, c);
    s.(stores := s.stores[c := store.(states := store.states[slot := value])])
  }

  /** `None`: the function throws before it sends anything. */
  function UpdateBody(s: World, c: ClientId, a: Address, wish: Wish): Option<Body> {
    if a !in s.chain || !Permitted(wish, s.chain[a]) || StoredKey(s, c, a).None? then None
    else Some(Maintain(a, s.chain[a].authority.counter, StoredKey(s, c, a).value, UpdateFor(wish, s.chain[a])))
  }

  function ServeMaintain(p: Protocol, s: World, c: ClientId, a: Address, wish: Wish, verdict: Verdict): World {
    var body := UpdateBody(s, c, a, wish);
    if body.None? then s
    else
      var t := Sent(p, s, body.value, verdict, 0);
      if wish.ReplaceWith? && Ruling(s.chain, body.value, verdict).SucceedEntirely? then WithKey(t, c, a, wish.newKey) else t
  }

  function DeployBody(r: Request): Body
    requires r.DeployContract?
  {
    Deploy(r.address, Contract(NextAuthority(r.key, None), r.operations, r.data))
  }

  function ServeDeploy(p: Protocol, s: World, c: ClientId, r: Request, verdict: Verdict): World
    requires r.DeployContract?
  {
    var t := Sent(p, s, DeployBody(r), verdict, 0);
    if !Ruling(s.chain, DeployBody(r), verdict).SucceedEntirely? then t
    else if r.slot.Some? then WithKey(WithState(t, c, r.slot.value, r.constructed), c, r.address, r.key)
    else WithKey(t, c, r.address, r.key)
  }

  /** The private state a call starts from, and the one it ends with; `None`: it throws before it sends anything. */
  function RunCall(p: Protocol, s: World, c: ClientId, r: Request): (ran: Option<Ran>)
    requires r.CallContract?
    ensures ran.Some? ==> ran.value.Ran?
  {
    if r.address !in s.chain then None
    else
      var contract := s.chain[r.address];
      var before := if r.slot.Some? then StoredState(s, c, r.slot.value) else None;
      if r.slot.Some? && (before.None? || !p.truthy(before.value)) then None
      else
        var next := p.run(r.circuit, contract.data, before);
        if next.None? || r.circuit !in contract.operations then None else Some(Ran(contract.data, before, next.value))
  }

  function ServeCall(p: Protocol, s: World, c: ClientId, r: Request, verdict: Verdict, data: nat): World
    requires r.CallContract?
  {
    var ran := RunCall(p, s, c, r);
    var body := Call(r.address, r.circuit);
    if ran.None? then s
    else
      var t := Sent(p, s, body, verdict, data);
      if r.slot.Some? && Ruling(s.chain, body, verdict).SucceedEntirely? then WithState(t, c, r.slot.value, ran.value.next) else t
  }

  function FindWithKey(s: World, c: ClientId, r: Request, sampled: SigningKey): World
    requires r.FindContract?
  {
    if r.given.Some? then WithKey(s, c, r.address, r.given.value)
    else if StoredKey(s, c, r.address).Some? then s
    else WithKey(s, c, r.address, sampled)
  }

  function FindEnd(s: World, c: ClientId, r: Request): World
    requires r.FindContract?
  {
    if r.slot.Some? && r.initial.Some? then WithState(s, c, r.slot.value, r.initial.value) else s
  }

  function ServeFind(s: World, c: ClientId, r: Request, sampled: SigningKey): World
    requires r.FindContract?
  {
    if r.address !in s.chain || Mismatches(s.chain[r.address].operations, r.listed) != [] then s
    else FindEnd(FindWithKey(s, c, r, sampled), c, r)
  }

  // The same, event by event

  function Block(id: TaskId, c: ClientId, r: Request, tx: nat, verdict: Verdict, data: nat, sampled: SigningKey): seq<Event> {
    var step := Advance(id, sampled);
    match r
    case MaintainContract(_, _) => [Start(id, c, r), step, step, step, Settle(tx, verdict, data), step]
    case DeployContract(_, _, _, _, _, _) => [Start(id, c, r), step, Settle(tx, verdict, data), step, step]
    case FindContract(_, _, _, _, _) => [Start(id, c, r), step, step, step, step]
    case CallContract(_, _, _) => [Start(id, c, r), step, step, step, Settle(tx, verdict, data), step]
  }

  lemma Run3(p: Protocol, s: World, a: Event, b: Event, c: Event)
    ensures Run(p, s, [a, b]) == Apply(p, Apply(p, s, a), b)
    ensures Run(p, s, [a, b, c]) == Apply(p, Apply(p, Apply(p, s, a), b), c)
  {
    RunSnoc(p, s, [], a);
    RunSnoc(p, s, [a], b);
    RunSnoc(p, s, [a, b], c);
    assert [] + [a] == [a] && [a] + [b] == [a, b] && [a, b] + [c] == [a, b, c];
  }

  lemma Run5(p: Protocol, s: World, a: Event, b: Event, c: Event, d: Event, e: Event)
    ensures Run(p, s, [a, b, c, d, e]) == Apply(p, Apply(p, Apply(p, Apply(p, Apply(p, s, a), b), c), d), e)
  {
    RunSnoc(p, s, [], a);
    RunSnoc(p, s, [a], b);
    RunSnoc(p, s, [a, b], c);
    RunSnoc(p, s, [a, b, c], d);
    RunSnoc(p, s, [a, b, c, d], e);
    assert [] + [a] == [a] && [a] + [b] == [a, b] && [a, b] + [c] == [a, b, c] && [a, b, c] + [d] == [a, b, c, d];
    assert [a, b, c, d] + [e] == [a, b, c, d, e];
  }

  lemma Run6(p: Protocol, s: World, a: Event, b: Event, c: Event, d: Event, e: Event, f: Event)
    ensures Run(p, s, [a, b, c, d, e, f]) == Apply(p, Apply(p, Apply(p, Apply(p, Apply(p, Apply(p, s, a), b), c), d), e), f)
  {
    Run5(p, s, a, b, c, d, e);
    RunSnoc(p, s, [a, b, c, d, e], f);
    assert [a, b, c, d, e] + [f] == [a, b, c, d, e, f];
  }

  /** The world with one task in it besides what there was. */
  function During(s: World, id: TaskId, c: ClientId, r: Request, stage: Stage): World {
    s.(tasks := s.tasks[id := Task(c, r, stage)])
  }

  function Pending(s: World, body: Body): World {
    s.(txs := s.txs + [Tx(body, None)])
  }

  function Resumed(s: World, id: TaskId, c: ClientId, r: Request, rest: Option<Stage>): World {
    if rest.Some? then During(s, id, c, r, rest.value) else s
  }

  function Outcome(s: World, id: TaskId, c: ClientId, r: Request, stage: Stage, action: Action): World {
    match action
    case Stay => During(s, id, c, r, stage)
    case Leave => s
    case GoTo(next) => During(s, id, c, r, next)
    case Submit(body, ran) => During(Pending(s, body), id, c, r, Waiting(|s.txs|, ran))
    case StoreKey(key, rest) => Resumed(WithKey(s, c, r.address, key), id, c, r, rest)
    case StoreState(slot, value, rest) => Resumed(WithState(s, c, slot, value), id, c, r, rest)
  }

  lemma PerformAlone(s: World, id: TaskId, c: ClientId, r: Request, stage: Stage, action: Action)
    requires id !in s.tasks
    ensures Perform(During(s, id, c, r, stage), id, action) == Outcome(s, id, c, r, stage, action)
  {
    assert During(s, id, c, r, stage).tasks - {id} == s.tasks;
  }

  lemma AdvanceAlone(p: Protocol, s: World, id: TaskId, c: ClientId, r: Request, stage: Stage, sampled: SigningKey)
    requires id !in s.tasks
    ensures Apply(p, During(s, id, c, r, stage), Advance(id, sampled))
            == Outcome(s, id, c, r, stage, Next(p, s, Task(c, r, stage), sampled))
  {
    PerformAlone(s, id, c, r, stage, Next(p, s, Task(c, r, stage), sampled));
  }

  lemma SettleAlone(p: Protocol, s: World, id: TaskId, c: ClientId, r: Request, body: Body, ran: Ran, verdict: Verdict, data: nat)
    ensures Apply(p, During(Pending(s, body), id, c, r, Waiting(|s.txs|, ran)), Settle(|s.txs|, verdict, data))
            == During(Sent(p, s, body, verdict, data), id, c, r, Waiting(|s.txs|, ran))
  {
    assert Pending(s, body).txs[|s.txs| := Tx(body, Some(Ruling(s.chain, body, verdict)))] == Sent(p, s, body, verdict, data).txs;
  }

  /** Sending the built transaction, its settlement, and what the sender does next. */
  lemma SendAlone(p: Protocol, s: World, id: TaskId, c: ClientId, r: Request, body: Body, ran: Ran,
                  verdict: Verdict, data: nat, sampled: SigningKey)
    requires id !in s.tasks
    ensures var w := During(s, id, c, r, Built(body, ran));
      var step := Advance(id, sampled);
      var t := Sent(p, s, body, verdict, data);
      Apply(p, Apply(p, Apply(p, w, step), Settle(|s.txs|, verdict, data)), step)
      == if Ruling(s.chain, body, verdict).SucceedEntirely? then Outcome(t, id, c, r, Waiting(|s.txs|, ran), Finish(r, ran)) else t
  {
    var t := Sent(p, s, body, verdict, data);
    AdvanceAlone(p, s, id, c, r, Built(body, ran), sampled);
    SettleAlone(p, s, id, c, r, body, ran, verdict, data);
    AdvanceAlone(p, t, id, c, r, Waiting(|s.txs|, ran), sampled);
  }

  /** A task that is gone takes no steps, and there is nothing to settle. */
  lemma NothingLeft(p: Protocol, s: World, id: TaskId, sampled: SigningKey, verdict: Verdict, data: nat)
    requires id !in s.tasks
    ensures Apply(p, s, Advance(id, sampled)) == s && Apply(p, s, Settle(|s.txs|, verdict, data)) == s
  {
  }

  /** After its start and two steps a maintenance task has built its update, or is gone. */
  lemma BuildsUpdate(p: Protocol, s: World, id: TaskId, c: ClientId, a: Address, wish: Wish, sampled: SigningKey)
    requires id !in s.tasks
    ensures var r, step := MaintainContract(a, wish), Advance(id, sampled);
      var body := UpdateBody(s, c, a, wish);
      Apply(p, Apply(p, Apply(p, s, Start(id, c, r)), step), step)
      == if body.None? then s else During(s, id, c, r, Built(body.value, NotRun))
  {
    var r := MaintainContract(a, wish);
    AdvanceAlone(p, s, id, c, r, Started, sampled);
    if a in s.chain && Permitted(wish, s.chain[a]) {
      AdvanceAlone(p, s, id, c, r, Read(s.chain[a]), sampled);
    } else {
      NothingLeft(p, s, id, sampled, SucceedEntirely, 0);
    }
  }

  lemma BuildsCall(p: Protocol, s: World, id: TaskId, c: ClientId, r: Request, sampled: SigningKey)
    requires id !in s.tasks && r.CallContract?
    ensures var step, ran := Advance(id, sampled), RunCall(p, s, c, r);
      Apply(p, Apply(p, Apply(p, s, Start(id, c, r)), step), step)
      == if ran.None? then s else During(s, id, c, r, Built(Call(r.address, r.circuit), ran.value))
  {
    AdvanceAlone(p, s, id, c, r, Started, sampled);
    if r.address in s.chain {
      AdvanceAlone(p, s, id, c, r, Read(s.chain[r.address]), sampled);
    } else {
      NothingLeft(p, s, id, sampled, SucceedEntirely, 0);
    }
  }

  /** A maintenance request served alone is its run of the system. */
  lemma MaintainRefines(p: Protocol, s: World, id: TaskId, c: ClientId, a: Address, wish: Wish, verdict: Verdict, sampled: SigningKey)
    requires id !in s.tasks
    ensures Run(p, s, Block(id, c, MaintainContract(a, wish), |s.txs|, verdict, 0, sampled)) == ServeMaintain(p, s, c, a, wish, verdict)
  {
    var r := MaintainContract(a, wish);
    var step := Advance(id, sampled);
    Run6(p, s, Start(id, c, r), step, step, step, Settle(|s.txs|, verdict, 0), step);
    BuildsUpdate(p, s, id, c, a, wish, sampled);
    var body := UpdateBody(s, c, a, wish);
    if body.Some? {
      SendAlone(p, s, id, c, r, body.value, NotRun, verdict, 0, sampled);
    } else {
      NothingLeft(p, s, id, sampled, verdict, 0);
    }
  }

  lemma CallRefines(p: Protocol, s: World, id: TaskId, c: ClientId, r: Request, verdict: Verdict, data: nat, sampled: SigningKey)
    requires id !in s.tasks && r.CallContract?
    ensures Run(p, s, Block(id, c, r, |s.txs|, verdict, data, sampled)) == ServeCall(p, s, c, r, verdict, data)
  {
    var step := Advance(id, sampled);
    Run6(p, s, Start(id, c, r), step, step, step, Settle(|s.txs|, verdict, data), step);
    BuildsCall(p, s, id, c, r, sampled);
    var ran := RunCall(p, s, c, r);
    if ran.Some? {
      SendAlone(p, s, id, c, r, Call(r.address, r.circuit), ran.value, verdict, data, sampled);
    } else {
      NothingLeft(p, s, id, sampled, verdict, data);
    }
  }

  lemma DeployRefines(p: Protocol, s: World, id: TaskId, c: ClientId, r: Request, verdict: Verdict, sampled: SigningKey)
    requires id !in s.tasks && r.DeployContract?
    ensures Run(p, s, Block(id, c, r, |s.txs|, verdict, 0, sampled)) == ServeDeploy(p, s, c, r, verdict)
  {
    var step := Advance(id, sampled);
    var t := Sent(p, s, DeployBody(r), verdict, 0);
    Run5(p, s, Start(id, c, r), step, Settle(|s.txs|, verdict, 0), step, step);
    SendAlone(p, s, id, c, r, DeployBody(r), NotRun, verdict, 0, sampled);
    if Ruling(s.chain, DeployBody(r), verdict).SucceedEntirely? {
      DeployStores(p, t, id, c, r, Waiting(|s.txs|, NotRun), sampled);
    } else {
      NothingLeft(p, t, id, sampled, verdict, 0);
    }
  }

  /** The two stores a successful deployment makes, one step each. */
  lemma DeployStores(p: Protocol, t: World, id: TaskId, c: ClientId, r: Request, stage: Stage, sampled: SigningKey)
    requires id !in t.tasks && r.DeployContract?
    ensures Apply(p, Outcome(t, id, c, r, stage, Finish(r, NotRun)), Advance(id, sampled))
            == WithKey(if r.slot.Some? then WithState(t, c, r.slot.value, r.constructed) else t, c, r.address, r.key)
  {
    if r.slot.Some? {
      AdvanceAlone(p, WithState(t, c, r.slot.value, r.constructed), id, c, r, KeyPending, sampled);
    }
  }

  lemma KeyedAlone(p: Protocol, s: World, id: TaskId, c: ClientId, r: Request, sampled: SigningKey)
    requires id !in s.tasks && r.FindContract?
    ensures Apply(p, During(s, id, c, r, Keyed), Advance(id, sampled)) == FindEnd(s, c, r)
    ensures Apply(p, FindEnd(s, c, r), Advance(id, sampled)) == FindEnd(s, c, r)
  {
    AdvanceAlone(p, s, id, c, r, Keyed, sampled);
  }

  lemma FindKey(p: Protocol, s: World, id: TaskId, c: ClientId, r: Request, sampled: SigningKey)
    requires id !in s.tasks && r.FindContract? && r.address in s.chain
    ensures var step := Advance(id, sampled);
      Apply(p, Apply(p, Apply(p, During(s, id, c, r, Read(s.chain[r.address])), step), step), step)
      == FindEnd(FindWithKey(s, c, r, sampled), c, r)
  {
    AdvanceAlone(p, s, id, c, r, Read(s.chain[r.address]), sampled);
    KeyedAlone(p, FindWithKey(s, c, r, sampled), id, c, r, sampled);
    if r.given.None? && StoredKey(s, c, r.address).None? {
      AdvanceAlone(p, s, id, c, r, FreshKey(sampled), sampled);
    }
  }

  /** A find returns once the contract is deployed; until then it waits. */
  lemma FindRefines(p: Protocol, s: World, id: TaskId, c: ClientId, r: Request, sampled: SigningKey,
                    tx: nat, verdict: Verdict, data: nat)
    requires id !in s.tasks && r.FindContract? && r.address in s.chain
    ensures Run(p, s, Block(id, c, r, tx, verdict, data, sampled)) == ServeFind(s, c, r, sampled)
  {
    var step := Advance(id, sampled);
    Run5(p, s, Start(id, c, r), step, step, step, step);
    AdvanceAlone(p, s, id, c, r, Started, sampled);
    if Mismatches(s.chain[r.address].operations, r.listed) == [] {
      FindKey(p, s, id, c, r, sampled);
    } else {
      NothingLeft(p, s, id, sampled, verdict, data);
    }
  }

  // What they achieve

  /** A fully successful deployment leaves the same key on the chain and in the store, and the constructed private state. */
  lemma DeployIff(p: Protocol, s: World, c: ClientId, r: Request, verdict: Verdict)
    requires r.DeployContract?
    ensures var t := ServeDeploy(p, s, c, r, verdict);
      if r.address !in s.chain && verdict.SucceedEntirely? then
        && t.chain == s.chain[r.address := Contract(Authority(r.key, 0), r.operations, r.data)]
        && StoredKey(t, c, r.address) == Some(t.chain[r.address].authority.key)
        && (r.slot.Some? ==> StoredState(t, c, r.slot.value) == Some(r.constructed))
        && (r.slot.None? ==> StoreOf(t, c).states == StoreOf(s, c).states)
      else t.chain == s.chain && t.stores == s.stores
  {
  }
}
