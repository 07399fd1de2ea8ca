/**
  Deploying, finding, calling and maintaining contracts, as a transition system: the chain with the transactions sent
  to it, the local stores of every client, and their calls under way, each one a `Task`. A task moves from one `await`
  to the next, tasks of all clients interleave freely, the node settles transactions in any order, and a client can
  crash at any point.
 */
module Lifecycle {
  import opened Results
  import opened ContractState

  type Address = string
  type ClientId = string
  type TaskId = nat
  type StateId = string
  type PrivateState = string

  datatype Contract = Contract(authority: Authority, operations: Operations, data: nat)

  /**
    What the system is parametric in: by how much the node raises the counter for a verifier-key update, what running a
    circuit on public and private state gives, and which private states JavaScript takes for true.
   */
  datatype Protocol = Protocol(
    keyBump: nat,
    run: (CircuitId, nat, Option<PrivateState>) -> Option<PrivateState>,
    truthy: PrivateState -> bool)

  // Transactions and the node

  datatype Update =
    | ReplaceAuthority(authority: Authority)
    | InsertKey(id: CircuitId, key: VerifierKey)
    | RemoveKey(id: CircuitId)

  datatype Body =
    | Deploy(address: Address, contract: Contract)
    | Maintain(address: Address, counter: nat, signer: SigningKey, update: Update)
    | Call(address: Address, circuit: CircuitId)

  datatype Verdict = SucceedEntirely | FailFallible | FailEntirely

  datatype Tx = Tx(body: Body, verdict: Option<Verdict>)

  type Chain = map<Address, Contract>

  /** The node's rule: a maintenance update needs the current counter and the current authority's signature. */
  predicate Applicable(chain: Chain, body: Body) {
    match body
    case Deploy(address, _) => address !in chain
    case Maintain(address, counter, signer, _) =>
      address in chain && counter == chain[address].authority.counter && signer == chain[address].authority.key
    case Call(address, circuit) => address in chain && circuit in chain[address].operations
  }

  function Maintained(p: Protocol, c: Contract, update: Update): Contract {
    match update
    case ReplaceAuthority(authority) => c.(authority := authority)
    case InsertKey(id, key) =>
      c.(operations := c.operations[id := key], authority := Authority(c.authority.key, c.authority.counter + p.keyBump))
    case RemoveKey(id) =>
      c.(operations := c.operations - {id}, authority := Authority(c.authority.key, c.authority.counter + p.keyBump))
  }

  function Applied(p: Protocol, chain: Chain, body: Body, data: nat): Chain
    requires Applicable(chain, body)
  {
    match body
    case Deploy(address, contract) => chain[address := contract]
    case Maintain(address, _, _, update) => chain[address := Maintained(p, chain[address], update)]
    case Call(address, _) => chain[address := chain[address].(data := data)]
  }

  /** The node may refuse a transaction for reasons of its own, but never accepts one that is not applicable. */
  function Ruling(chain: Chain, body: Body, verdict: Verdict): Verdict {
    if Applicable(chain, body) then verdict else FailEntirely
  }

  /** A call that fails in its fallible part may still have changed the public state. */
  function Settled(p: Protocol, chain: Chain, body: Body, verdict: Verdict, data: nat): Chain {
    var ruling := Ruling(chain, body, verdict);
    if ruling.SucceedEntirely? then Applied(p, chain, body, data)
    else if ruling.FailFallible? && body.Call? then Applied(p, chain, body, data)
    else chain
  }

  // Clients

  datatype Wish = ReplaceWith(newKey: SigningKey) | Insert(id: CircuitId, key: VerifierKey) | Remove(id: CircuitId)

  datatype Request =
    | MaintainContract(address: Address, wish: Wish)
    | DeployContract(address: Address, key: SigningKey, operations: Operations, data: nat, slot: Option<StateId>,
                     constructed: PrivateState)
    | FindContract(address: Address, listed: seq<Listed>, given: Option<SigningKey>, slot: Option<StateId>,
                   initial: Option<PrivateState>)
    | CallContract(address: Address, circuit: CircuitId, slot: Option<StateId>)

  /** What a circuit run started from and ended with. */
  datatype Ran = NotRun | Ran(data: nat, before: Option<PrivateState>, next: PrivateState)

  datatype Stage =
    | Started
    | Read(contract: Contract)
    | Built(body: Body, ran: Ran)
    | Waiting(tx: nat, ran: Ran)
    | KeyPending                   // deploy: the private state is stored, the key is not yet
    | FreshKey(sampled: SigningKey)  // find: no key was found, a sampled one is about to be stored
    | Keyed                        // find: the key is settled, the private state is not

  datatype Task = Task(client: ClientId, request: Request, stage: Stage)

  datatype Store = Store(keys: map<Address, SigningKey>, states: map<StateId, PrivateState>)

  datatype World = World(chain: Chain, txs: seq<Tx>, stores: map<ClientId, Store>, tasks: map<TaskId, Task>)

  function StoreOf(s: World, c: ClientId): Store {
    if c in s.stores then s.stores[c] else Store(map[], map[])
  }

  function Lookup<K, V>(m: map<K, V>, k: K): Option<V> {
    if k in m then Some(m[k]) else None
  }

  function StoredKey(s: World, c: ClientId, a: Address): Option<SigningKey> {
    Lookup(StoreOf(s, c).keys, a)
  }

  function StoredState(s: World, c: ClientId, id: StateId): Option<PrivateState> {
    Lookup(StoreOf(s, c).states, id)
  }

  /** What a task does between two `await`s. */
  datatype Action =
    | Stay
    | Leave
    | GoTo(stage: Stage)
    | Submit(body: Body, ran: Ran)
    | StoreKey(key: SigningKey, rest: Option<Stage>)
    | StoreState(id: StateId, value: PrivateState, rest: Option<Stage>)

  function Opening(request: Request): Stage {
    match request
    case DeployContract(address, key, operations, data, _, _) =>
      Built(Deploy(address, Contract(NextAuthority(key, None), operations, data)), NotRun)
    case _ => Started
  }

  /** The guards of the verifier-key functions: insert only where undefined, remove only where defined. */
  predicate Permitted(wish: Wish, c: Contract) {
    match wish
    case ReplaceWith(_) => true
    case Insert(id, _) => id !in c.operations
    case Remove(id) => id in c.operations
  }

  function UpdateFor(wish: Wish, c: Contract): Update {
    match wish
    case ReplaceWith(newKey) => ReplaceAuthority(NextAuthority(newKey, Some(c.authority)))
    case Insert(id, key) => InsertKey(id, key)
    case Remove(id) => RemoveKey(id)
  }

  function ReadChain(s: World, r: Request): Action {
    match r
    case MaintainContract(address, wish) =>
      if address in s.chain && Permitted(wish, s.chain[address]) then GoTo(Read(s.chain[address])) else Leave
    case FindContract(address, listed, _, _, _) =>
      if address !in s.chain then Stay  // watches for the deployment
      else if Mismatches(s.chain[address].operations, listed) != [] then Leave
      else GoTo(Read(s.chain[address]))
    case CallContract(address, _, _) => if address in s.chain then GoTo(Read(s.chain[address])) else Leave
    case DeployContract(_, _, _, _, _, _) => Leave
  }

  function ReadStore(p: Protocol, s: World, t: Task, c: Contract, sampled: SigningKey): Action {
    var store := StoreOf(s, t.client);
    match t.request
    case MaintainContract(address, wish) =>
      if address !in store.keys then Leave
      else GoTo(Built(Maintain(address, c.authority.counter, store.keys[address], UpdateFor(wish, c)), NotRun))
    case FindContract(address, _, given, _, _) =>
      if given.Some? then StoreKey(given.value, Some(Keyed))
      else if address in store.keys then GoTo(Keyed)
      else GoTo(FreshKey(sampled))
    case CallContract(address, circuit, slot) =>
      var before := if slot.Some? then Lookup(store.states, slot.value) else None;
      if slot.Some? && (before.None? || !p.truthy(before.value)) then Leave
      else
        var next := p.run(circuit, c.data, before);
        if next.None? || circuit !in c.operations then Leave
        else GoTo(Built(Call(address, circuit), Ran(c.data, before, next.value)))
    case DeployContract(_, _, _, _, _, _) => Leave
  }

  /** After a transaction that succeeded entirely. */
  function Finish(r: Request, ran: Ran): Action {
    match r
    case MaintainContract(_, ReplaceWith(newKey)) => StoreKey(newKey, None)
    case MaintainContract(_, _) => Leave
    case DeployContract(_, key, _, _, slot, constructed) =>
      if slot.Some? then StoreState(slot.value, constructed, Some(KeyPending)) else StoreKey(key, None)
    case CallContract(_, _, slot) =>
      if slot.Some? && ran.Ran? then StoreState(slot.value, ran.next, None) else Leave
    case FindContract(_, _, _, _, _) => Leave
  }

  function FindState(r: Request): Action {
    if r.FindContract? && r.slot.Some? && r.initial.Some? then StoreState(r.slot.value, r.initial.value, None) else Leave
  }

  function Next(p: Protocol, s: World, t: Task, sampled: SigningKey): Action {
    match t.stage
    case Started => ReadChain(s, t.request)
    case Read(contract) => ReadStore(p, s, t, contract, sampled)
    case Built(body, ran) => Submit(body, ran)
    case Waiting(tx, ran) =>
      if tx >= |s.txs| || s.txs[tx].verdict.None? then Stay
      else if s.txs[tx].verdict != Some(SucceedEntirely) then Leave
      else Finish(t.request, ran)
    case KeyPending => if t.request.DeployContract? then StoreKey(t.request.key, None) else Leave
    case FreshKey(key) => StoreKey(key, Some(Keyed))
    case Keyed => FindState(t.request)
  }

  // Runs

  datatype Event =
    | Start(task: TaskId, client: ClientId, request: Request)
    | Advance(task: TaskId, sampled: SigningKey)  // `sampled` is what sampling would give
    | Settle(tx: nat, verdict: Verdict, data: nat)
    | Crash(client: ClientId)

  function Proceed(tasks: map<TaskId, Task>, id: TaskId, rest: Option<Stage>): map<TaskId, Task>
    requires id in tasks
  {
    if rest.Some? then tasks[id := tasks[id].(stage := rest.value)] else tasks - {id}
  }

  function Perform(s: World, id: TaskId, action: Action): World
    requires id in s.tasks
  {
    var c := s.tasks[id].client;
    var store := StoreOf(s, c);
    match action
    case Stay => s
    case Leave => s.(tasks := s.tasks - {id})
    case GoTo(stage) => s.(tasks := Proceed(s.tasks, id, Some(stage)))
    case Submit(body, ran) =>
      s.(txs := s.txs + [Tx(body, None)], tasks := Proceed(s.tasks, id, Some(Waiting(|s.txs|, ran))))
    case StoreKey(key, rest) =>
      s.(stores := s.stores[c := store.(keys := store.keys[s.tasks[id].request.address := key])], tasks := Proceed(s.tasks, id, rest))
    case StoreState(slot, value, rest) =>
      s.(stores := s.stores[c := store.(states := store.states[slot := value])], tasks := Proceed(s.tasks, id, rest))
  }

  predicate Open(s: World, i: nat) {
    i < |s.txs| && s.txs[i].verdict.None?
  }

  function SettleTx(p: Protocol, s: World, i: nat, verdict: Verdict, data: nat): World
    requires Open(s, i)
  {
    var body := s.txs[i].body;
    s.(chain := Settled(p, s.chain, body, verdict, data), txs := s.txs[i := Tx(body, Some(Ruling(s.chain, body, verdict)))])
  }

  /** One event. An event that is not enabled changes nothing. */
  function Apply(p: Protocol, s: World, e: Event): World {
    match e
    case Start(id, client, request) =>
      if id in s.tasks then s else s.(tasks := s.tasks[id := Task(client, request, Opening(request))])
    case Advance(id, sampled) =>
      if id !in s.tasks then s else Perform(s, id, Next(p, s, s.tasks[id], sampled))
    case Settle(i, verdict, data) => if Open(s, i) then SettleTx(p, s, i, verdict, data) else s
    case Crash(client) => s.(tasks := map id | id in s.tasks && s.tasks[id].client != client :: s.tasks[id])
  }

  function Run(p: Protocol, s: World, es: seq<Event>): World {
    if es == [] then s else Apply(p, Run(p, s, es[..|es| - 1]), es[|es| - 1])
  }

  const INITIAL := World(map[], [], map[], map[])

  lemma {:induction false} RunConcat(p: Protocol, s: World, a: seq<Event>, b: seq<Event>)
    ensures Run(p, s, a + b) == Run(p, Run(p, s, a), b)
  {
    if b == [] {
      assert a + b == a;
    } else {
      var front := b[..|b| - 1];
      assert (a + b)[..|a + b| - 1] == a + front;
      RunConcat(p, s, a, front);
    }
  }

  lemma RunSnoc(p: Protocol, s: World, es: seq<Event>, e: Event)
    ensures Run(p, s, es + [e]) == Apply(p, Run(p, s, es), e)
  {
    assert (es + [e])[..|es|] == es;
  }

  // What a task has sent is what it was asked for

  predicate Matches(request: Request, body: Body) {
    match request
    case MaintainContract(address, wish) =>
      body.Maintain? && body.address == address
      && (match wish
          case ReplaceWith(newKey) => body.update == ReplaceAuthority(Authority(newKey, body.counter + 1))
          case Insert(id, key) => body.update == InsertKey(id, key)
          case Remove(id) => body.update == RemoveKey(id))
    case DeployContract(address, key, operations, data, _, _) =>
      body == Deploy(address, Contract(Authority(key, 0), operations, data))
    case CallContract(address, circuit, _) => body == Call(address, circuit)
    case FindContract(_, _, _, _, _) => false
  }

  predicate TaskLinked(txs: seq<Tx>, t: Task) {
    match t.stage
    case Built(body, _) => Matches(t.request, body)
    case Waiting(tx, _) => tx < |txs| && Matches(t.request, txs[tx].body)
    case KeyPending => t.request.DeployContract?
    case FreshKey(_) => t.request.FindContract?
    case Keyed => t.request.FindContract?
    case _ => !t.request.DeployContract?
  }

  /** Tasks wait for their own transactions, each for another one. */
  ghost predicate Linked(s: World) {
    && (forall id :: id in s.tasks ==> TaskLinked(s.txs, s.tasks[id]))
    && (forall i, j :: i in s.tasks && j in s.tasks && i != j && s.tasks[i].stage.Waiting? && s.tasks[j].stage.Waiting? ==>
          s.tasks[i].stage.tx != s.tasks[j].stage.tx)
  }

  predicate ActionLinked(txs: seq<Tx>, t: Task, action: Action) {
    match action
    case GoTo(stage) => TaskLinked(txs, t.(stage := stage)) && !stage.Waiting?
    case Submit(body, _) => Matches(t.request, body)
    case StoreKey(_, rest) => rest.Some? ==> TaskLinked(txs, t.(stage := rest.value)) && !rest.value.Waiting?
    case StoreState(_, _, rest) => rest.Some? ==> TaskLinked(txs, t.(stage := rest.value)) && !rest.value.Waiting?
    case _ => true
  }

  lemma NextLinked(p: Protocol, s: World, t: Task, sampled: SigningKey)
    requires TaskLinked(s.txs, t)
    ensures ActionLinked(s.txs, t, Next(p, s, t, sampled))
  {
  }

  lemma PerformLinked(s: World, id: TaskId, action: Action)
    requires Linked(s) && id in s.tasks && ActionLinked(s.txs, s.tasks[id], action)
    ensures Linked(Perform(s, id, action))
  {
  }

  lemma ApplyLinked(p: Protocol, s: World, e: Event)
    requires Linked(s)
    ensures Linked(Apply(p, s, e))
  {
    if e.Advance? && e.task in s.tasks {
      NextLinked(p, s, s.tasks[e.task], e.sampled);
      PerformLinked(s, e.task, Next(p, s, s.tasks[e.task], e.sampled));
    }
  }
}
