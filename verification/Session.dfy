/** One client calling the contract functions one after another, on its provider and the node, in place. */
module Session {
  import opened Results
  import opened ContractState
  import opened Lifecycle
  import opened Sequential
  import opened InsertionMap
  import HexUtils

  /**
    The provider that keeps private states and signing keys in memory, each in a table of entries in insertion order.
    What the tables mean is a finite map, which is what every contract speaks of.
   */
  class InMemoryPrivateStateProvider {
    var record: Table<PrivateState>
    var signingKeys: Table<SigningKey>

    ghost predicate Valid()
      reads this
    {
      InsertionMap.Valid(record) && InsertionMap.Valid(signingKeys)
    }

    ghost function States(): map<StateId, PrivateState>
      reads this
    {
      AsMap(record)
    }

    ghost function Keys(): map<Address, SigningKey>
      reads this
    {
      AsMap(signingKeys)
    }

    constructor ()
      ensures Valid() && States() == map[] && Keys() == map[]
    {
      record := [];
      signingKeys := [];
    }

    method Set(key: StateId, state: PrivateState)
      requires Valid()
      modifies this`record
      ensures Valid() && States() == old(States())[key := state]
    {
      SetMeaning(record, key, state);
      record := InsertionMap.Set(record, key, state);
    }

    method Get(key: StateId) returns (state: Option<PrivateState>)
      ensures state == Lookup(States(), key)
    {
      GetMeaning(record, key);
      state := InsertionMap.Get(record, key);
    }

    method Remove(key: StateId)
      requires Valid()
      modifies this`record
      ensures Valid() && States() == old(States()) - {key}
    {
      DeleteMeaning(record, key);
      record := Delete(record, key);
    }

    method Clear()
      requires Valid()
      modifies this`record
      ensures Valid() && States() == map[]
    {
      record := [];
    }

    method SetSigningKey(address: Address, key: SigningKey)
      requires Valid()
      modifies this`signingKeys
      ensures Valid() && Keys() == old(Keys())[address := key]
    {
      SetMeaning(signingKeys, address, key);
      signingKeys := InsertionMap.Set(signingKeys, address, key);
    }

    method GetSigningKey(address: Address) returns (key: Option<SigningKey>)
      ensures key == Lookup(Keys(), address)
    {
      GetMeaning(signingKeys, address);
      key := InsertionMap.Get(signingKeys, address);
    }

    method RemoveSigningKey(address: Address)
      requires Valid()
      modifies this`signingKeys
      ensures Valid() && Keys() == old(Keys()) - {address}
    {
      DeleteMeaning(signingKeys, address);
      signingKeys := Delete(signingKeys, address);
    }

    /** Deletes the keys one address at a time, in the order in which they stood when it began. */
    method ClearSigningKeys()
      requires Valid()
      modifies this`signingKeys
      ensures Valid() && Keys() == map[]
    {
      var addresses := Addresses(signingKeys);
      for i := 0 to |addresses|
        invariant Valid() && Addresses(signingKeys) == addresses[i..]
      {
        DeleteFirst(signingKeys);
        DeleteMeaning(signingKeys, addresses[i]);
        signingKeys := Delete(signingKeys, addresses[i]);
      }
      assert signingKeys == [];
    }
  }

  function Addresses<V>(t: Table<V>): (keys: seq<string>)
    ensures |keys| == |t|
  {
    if t == [] then [] else [t[0].key] + Addresses(t[1..])
  }

  lemma DeleteFirst<V>(t: Table<V>)
    ensures t != [] ==> Delete(t, Addresses(t)[0]) == t[1..] && Addresses(t[1..]) == Addresses(t)[1..]
  {
  }

  datatype Failure =
    | InvalidAddress(cause: HexUtils.HexError)
    | NoContractState
    | AlreadyDefined
    | NotDefined
    | NoSigningKey
    | NoPrivateState
    | CircuitUndefined
    | CircuitFailed
    | OperationUndefined
    | TxFailed(verdict: Verdict)
    | Mismatched(circuits: seq<CircuitId>)
    | IncompleteConfig

  class Node {
    var chain: Chain
    var txs: seq<Tx>

    constructor ()
      ensures chain == map[] && txs == []
    {
      chain := map[];
      txs := [];
    }

    /** Sends a transaction and watches for its result; the verdict and the new public data are the node's choice. */
    method SubmitTx(p: Protocol, body: Body, verdict: Verdict, data: nat) returns (ruling: Verdict)
      modifies this
      ensures ruling == Ruling(old(chain), body, verdict)
      ensures chain == Settled(p, old(chain), body, verdict, data)
      ensures txs == old(txs) + [Tx(body, Some(ruling))]
    {
      ruling := Ruling(chain, body, verdict);
      chain := Settled(p, chain, body, verdict, data);
      txs := txs + [Tx(body, Some(ruling))];
    }
  }

  /** Exactly this transaction has been sent; what the node ruled is what the caller is told. */
  predicate Reports(was: seq<Tx>, now: seq<Tx>, body: Body, r: Result<Verdict, Failure>) {
    && |now| == |was| + 1 && now[..|was|] == was && now[|was|].body == body
    && match now[|was|].verdict
       case None => false
       case Some(ruling) => r == if ruling == SucceedEntirely then Ok(SucceedEntirely) else Err(TxFailed(ruling))
  }

  /** What a settled replacement leaves on the chain. */
  lemma ReplacementSettled(p: Protocol, chain: Lifecycle.Chain, a: Address, key: SigningKey, newAuthority: SigningKey, verdict: Verdict)
    requires a in chain
    ensures var authority := chain[a].authority;
      var body := Maintain(a, authority.counter, key, ReplaceAuthority(NextAuthority(newAuthority, Some(authority))));
      Settled(p, chain, body, verdict, 0)
      == if Ruling(chain, body, verdict).SucceedEntirely?
         then chain[a := chain[a].(authority := Authority(newAuthority, authority.counter + 1))] else chain
  {
  }

  class Client {
    const id: ClientId
    const protocol: Protocol
    const provider: InMemoryPrivateStateProvider
    const node: Node

    constructor (id: ClientId, protocol: Protocol, provider: InMemoryPrivateStateProvider, node: Node)
      ensures this.id == id && this.protocol == protocol && this.provider == provider && this.node == node
    {
      this.id, this.protocol, this.provider, this.node := id, protocol, provider, node;
    }

    /** The state of the transition system that the objects stand for. */
    ghost function World(): Lifecycle.World
      reads provider, node
    {
      Lifecycle.World(node.chain, node.txs, map[id := Store(provider.Keys(), provider.States())], map[])
    }

    predicate Untouched(chain: Lifecycle.Chain, txs: seq<Tx>)
      reads node
    {
      node.chain == chain && node.txs == txs
    }

    ghost predicate WellFormed(address: Address) {
      HexUtils.AssertIsContractAddress(address).Ok?
    }

    /** What is thrown for an address that is none. */
    ghost function Malformed(address: Address): Failure
      requires !WellFormed(address)
    {
      InvalidAddress(HexUtils.AssertIsContractAddress(address).error)
    }

    ghost function Maintaining(address: Address, wish: Wish, verdict: Verdict): Lifecycle.World
      reads provider, node
    {
      if WellFormed(address) then ServeMaintain(protocol, World(), id, address, wish, verdict) else World()
    }

    /** Whether a maintenance request would go through. */
    ghost predicate Maintains(address: Address, wish: Wish, verdict: Verdict)
      reads provider, node
    {
      WellFormed(address) && UpdateBody(World(), id, address, wish).Some?
      && Ruling(node.chain, UpdateBody(World(), id, address, wish).value, verdict).SucceedEntirely?
    }

    /** Sends a transaction; anything but full success is an error. */
    method Send(body: Body, verdict: Verdict) returns (r: Result<Verdict, Failure>)
      modifies node
      ensures World() == Sent(protocol, old(World()), body, verdict, 0)
      ensures r == if Ruling(old(node.chain), body, verdict).SucceedEntirely? then Ok(SucceedEntirely)
                   else Err(TxFailed(Ruling(old(node.chain), body, verdict)))
      ensures Reports(old(node.txs), node.txs, body, r)
    {
      var ruling := node.SubmitTx(protocol, body, verdict, 0);
      r := if ruling != SucceedEntirely then Err(TxFailed(ruling)) else Ok(ruling);
    }

    /** Sends the replacement of an authority and stores the new key. */
    method SendReplacement(address: Address, authority: Authority, currentKey: SigningKey, newAuthority: SigningKey, verdict: Verdict)
      returns (r: Result<Verdict, Failure>)
      requires provider.Valid() && WellFormed(address)
      requires address in node.chain && node.chain[address].authority == authority
      requires Lookup(provider.Keys(), address) == Some(currentKey)
      modifies provider`signingKeys, node
      ensures provider.Valid()
      ensures World() == old(Maintaining(address, ReplaceWith(newAuthority), verdict))
      ensures r.Ok? <==> old(Maintains(address, ReplaceWith(newAuthority), verdict))
      ensures r.Ok? ==>
                && provider.Keys() == old(provider.Keys())[address := newAuthority]
                && node.chain == old(node.chain)[address :=
                     old(node.chain)[address].(authority := Authority(newAuthority, authority.counter + 1))]
      ensures r.Err? ==> node.chain == old(node.chain) && provider.Keys() == old(provider.Keys())
      ensures var update := ReplaceAuthority(Authority(newAuthority, authority.counter + 1));
        Reports(old(node.txs), node.txs, Maintain(address, authority.counter, currentKey, update), r)
    {
      var update := ReplaceAuthority(NextAuthority(newAuthority, Some(authority)));
      var body := Maintain(address, authority.counter, currentKey, update);
      assert UpdateBody(World(), id, address, ReplaceWith(newAuthority)) == Some(body);
      ReplacementSettled(protocol, node.chain, address, currentKey, newAuthority, verdict);
      ghost var before := World();
      r := Send(body, verdict);
      if r.Ok? {
        provider.SetSigningKey(address, newAuthority);
        assert World() == WithKey(Sent(protocol, before, body, verdict, 0), id, address, newAuthority);
      }
    }

    method SubmitReplaceAuthorityTx(address: Address, newAuthority: SigningKey, verdict: Verdict) returns (r: Result<Verdict, Failure>)
      requires provider.Valid()
      modifies provider`signingKeys, node
      ensures provider.Valid()
      ensures World() == old(Maintaining(address, ReplaceWith(newAuthority), verdict))
      ensures r.Ok? <==> old(Maintains(address, ReplaceWith(newAuthority), verdict))
      ensures r.Ok? ==> provider.Keys() == old(provider.Keys())[address := newAuthority] && old(address in node.chain)
      ensures r.Ok? ==>
                var was := old(node.chain)[address];
                node.chain == old(node.chain)[address := was.(authority := Authority(newAuthority, was.authority.counter + 1))]
      ensures r.Err? ==> node.chain == old(node.chain) && provider.Keys() == old(provider.Keys())
      ensures !WellFormed(address) ==> r == Err(Malformed(address)) && Untouched(old(node.chain), old(node.txs))
      ensures WellFormed(address) && address !in old(node.chain) ==> r == Err(NoContractState) && Untouched(old(node.chain), old(node.txs))
      ensures WellFormed(address) && address in old(node.chain) && address !in old(provider.Keys())
              ==> r == Err(NoSigningKey) && Untouched(old(node.chain), old(node.txs))
      ensures WellFormed(address) && address in old(node.chain) && address in old(provider.Keys()) ==>
                var counter, key := old(node.chain)[address].authority.counter, old(provider.Keys())[address];
                Reports(old(node.txs), node.txs, Maintain(address, counter, key, ReplaceAuthority(Authority(newAuthority, counter + 1))), r)
    {
      var valid := HexUtils.AssertIsContractAddress(address);
      if valid.Err? {
        return Err(InvalidAddress(valid.error));
      }
      if address !in node.chain {
        return Err(NoContractState);
      }
      var contractState := node.chain[address];
      var currentAuthority := provider.GetSigningKey(address);
      if currentAuthority.None? {
        return Err(NoSigningKey);
      }
      r := SendReplacement(address, contractState.authority, currentAuthority.value, newAuthority, verdict);
    }

    method SubmitInsertVerifierKeyTx(address: Address, circuit: CircuitId, newVk: VerifierKey, verdict: Verdict)
      returns (r: Result<Verdict, Failure>)
      modifies node
      ensures World() == old(Maintaining(address, Insert(circuit, newVk), verdict))
      ensures r.Ok? <==> old(Maintains(address, Insert(circuit, newVk), verdict))
      ensures !WellFormed(address) ==> r == Err(Malformed(address)) && Untouched(old(node.chain), old(node.txs))
      ensures WellFormed(address) && address !in old(node.chain) ==> r == Err(NoContractState) && Untouched(old(node.chain), old(node.txs))
      ensures WellFormed(address) && address in old(node.chain) && circuit in old(node.chain)[address].operations
              ==> r == Err(AlreadyDefined) && Untouched(old(node.chain), old(node.txs))
      ensures WellFormed(address) && address in old(node.chain) && circuit !in old(node.chain)[address].operations
              && address !in provider.Keys()
              ==> r == Err(NoSigningKey) && Untouched(old(node.chain), old(node.txs))
      ensures WellFormed(address) && address in old(node.chain) && circuit !in old(node.chain)[address].operations
              && address in provider.Keys() ==>
                var counter := old(node.chain)[address].authority.counter;
                Reports(old(node.txs), node.txs, Maintain(address, counter, provider.Keys()[address], InsertKey(circuit, newVk)), r)
    {
      var valid := HexUtils.AssertIsContractAddress(address);
      if valid.Err? {
        return Err(InvalidAddress(valid.error));
      }
      if address !in node.chain {
        return Err(NoContractState);
      }
      var contractState := node.chain[address];
      if circuit in contractState.operations {
        return Err(AlreadyDefined);
      }
      var signingKey := provider.GetSigningKey(address);
      if signingKey.None? {
        return Err(NoSigningKey);
      }
      r := Send(Maintain(address, contractState.authority.counter, signingKey.value, InsertKey(circuit, newVk)), verdict);
    }

    method SubmitRemoveVerifierKeyTx(address: Address, circuit: CircuitId, verdict: Verdict) returns (r: Result<Verdict, Failure>)
      modifies node
      ensures World() == old(Maintaining(address, Wish.Remove(circuit), verdict))
      ensures r.Ok? <==> old(Maintains(address, Wish.Remove(circuit), verdict))
      ensures !WellFormed(address) ==> r == Err(Malformed(address)) && Untouched(old(node.chain), old(node.txs))
      ensures WellFormed(address) && address !in old(node.chain) ==> r == Err(NoContractState) && Untouched(old(node.chain), old(node.txs))
      ensures WellFormed(address) && address in old(node.chain) && circuit !in old(node.chain)[address].operations
              ==> r == Err(NotDefined) && Untouched(old(node.chain), old(node.txs))
      ensures WellFormed(address) && address in old(node.chain) && circuit in old(node.chain)[address].operations
              && address !in provider.Keys()
              ==> r == Err(NoSigningKey) && Untouched(old(node.chain), old(node.txs))
      ensures WellFormed(address) && address in old(node.chain) && circuit in old(node.chain)[address].operations
              && address in provider.Keys() ==>
                var counter := old(node.chain)[address].authority.counter;
                Reports(old(node.txs), node.txs, Maintain(address, counter, provider.Keys()[address], RemoveKey(circuit)), r)
    {
      var valid := HexUtils.AssertIsContractAddress(address);
      if valid.Err? {
        return Err(InvalidAddress(valid.error));
      }
      if address !in node.chain {
        return Err(NoContractState);
      }
      var contractState := node.chain[address];
      if circuit !in contractState.operations {
        return Err(NotDefined);
      }
      var signingKey := provider.GetSigningKey(address);
      if signingKey.None? {
        return Err(NoSigningKey);
      }
      r := Send(Maintain(address, contractState.authority.counter, signingKey.value, RemoveKey(circuit)), verdict);
    }

    method SubmitDeployTx(request: Request, verdict: Verdict) returns (r: Result<Verdict, Failure>)
      requires request.DeployContract?
      requires provider.Valid()
      modifies provider, node
      ensures provider.Valid()
      ensures World() == old(ServeDeploy(protocol, World(), id, request, verdict))
      ensures r.Ok? <==> old(Ruling(node.chain, DeployBody(request), verdict)).SucceedEntirely?
      ensures r.Ok? ==>
                && request.address in node.chain && node.chain[request.address].authority == Authority(request.key, 0)
                && provider.Keys() == old(provider.Keys())[request.address := request.key]
                && (request.slot.Some? ==> provider.States() == old(provider.States())[request.slot.value := request.constructed])
      ensures r.Err? ==>
                node.chain == old(node.chain) && provider.Keys() == old(provider.Keys()) && provider.States() == old(provider.States())
      ensures Reports(old(node.txs), node.txs,
                      Deploy(request.address, Contract(Authority(request.key, 0), request.operations, request.data)), r)
      ensures r.Ok? && request.slot.None? ==> provider.States() == old(provider.States())
    {
      var initial := Contract(NextAuthority(request.key, None), request.operations, request.data);
      r := Send(Deploy(request.address, initial), verdict);
      if r.Err? {
        return;
      }
      if request.slot.Some? {
        provider.Set(request.slot.value, request.constructed);
      }
      provider.SetSigningKey(request.address, request.key);
    }

    /** What a call is refused for before anything is read; `None`: nothing. */
    function CallRefusal(request: Request, impureCircuits: set<CircuitId>, withProvider: bool): (refusal: Option<Failure>)
      requires request.CallContract?
      ensures refusal.None? <==> CallAdmitted(request, impureCircuits, withProvider)
    {
      var valid := HexUtils.AssertIsContractAddress(request.address);
      if valid.Err? then Some(InvalidAddress(valid.error))
      else if request.circuit !in impureCircuits then Some(CircuitUndefined)
      else if request.slot.Some? && !withProvider then Some(IncompleteConfig)
      else None
    }

    /** The call names a valid contract, a circuit that the compiled contract has, and a slot only with a provider. */
    ghost predicate CallAdmitted(request: Request, impureCircuits: set<CircuitId>, withProvider: bool)
      requires request.CallContract?
    {
      WellFormed(request.address) && request.circuit in impureCircuits && (request.slot.Some? ==> withProvider)
    }

    /** The result of an admitted call, read off the chain and the store: the first thing missing is the error. */
    ghost function ExpectedRun(request: Request): Result<Ran, Failure>
      requires request.CallContract?
      reads node, provider
    {
      var stored := if request.slot.Some? then Lookup(provider.States(), request.slot.value) else None;
      if request.address !in node.chain then Err(NoContractState)
      else if request.slot.Some? && (stored.None? || !protocol.truthy(stored.value)) then Err(NoPrivateState)
      else
        var contract := node.chain[request.address];
        var next := protocol.run(request.circuit, contract.data, stored);
        if next.None? then Err(CircuitFailed)
        else if request.circuit !in contract.operations then Err(OperationUndefined)
        else Ok(Ran(contract.data, stored, next.value))
    }

    /** Runs the circuit on the states of the chain and of the store, and changes neither. */
    method CreateUnprovenCallTx(request: Request, impureCircuits: set<CircuitId>, withProvider: bool) returns (r: Result<Ran, Failure>)
      requires request.CallContract?
      ensures r.Ok? <==> CallAdmitted(request, impureCircuits, withProvider) && RunCall(protocol, World(), id, request).Some?
      ensures r.Ok? ==> Some(r.value) == RunCall(protocol, World(), id, request) && r.value.Ran?
      ensures !WellFormed(request.address) ==> r == Err(Malformed(request.address))
      ensures WellFormed(request.address) && request.circuit !in impureCircuits ==> r == Err(CircuitUndefined)
      ensures WellFormed(request.address) && request.circuit in impureCircuits && request.slot.Some? && !withProvider
              ==> r == Err(IncompleteConfig)
      ensures CallAdmitted(request, impureCircuits, withProvider) ==> r == ExpectedRun(request)
    {
      var refusal := CallRefusal(request, impureCircuits, withProvider);
      if refusal.Some? {
        return Err(refusal.value);
      }
      if request.address !in node.chain {
        return Err(NoContractState);
      }
      var contractState := node.chain[request.address];
      var initialPrivateState: Option<PrivateState> := None;
      if request.slot.Some? {
        initialPrivateState := provider.Get(request.slot.value);
        if initialPrivateState.None? || !protocol.truthy(initialPrivateState.value) {
          return Err(NoPrivateState);
        }
      }
      var nextPrivateState := protocol.run(request.circuit, contractState.data, initialPrivateState);
      if nextPrivateState.None? {
        return Err(CircuitFailed);
      }
      if request.circuit !in contractState.operations {
        return Err(OperationUndefined);
      }
      r := Ok(Ran(contractState.data, initialPrivateState, nextPrivateState.value));
    }

    method SubmitCallTx(request: Request, impureCircuits: set<CircuitId>, withProvider: bool, verdict: Verdict, data: nat)
      returns (r: Result<Verdict, Failure>)
      requires request.CallContract?
      requires provider.Valid()
      modifies provider`record, node
      ensures provider.Valid()
      ensures World() == old(if CallAdmitted(request, impureCircuits, withProvider)
                             then ServeCall(protocol, World(), id, request, verdict, data) else World())
      ensures r.Ok? <==>
                old(CallAdmitted(request, impureCircuits, withProvider) && RunCall(protocol, World(), id, request).Some?
                    && Ruling(node.chain, Call(request.address, request.circuit), verdict).SucceedEntirely?)
      ensures !CallAdmitted(request, impureCircuits, withProvider) ==>
                r == Err(CallRefusal(request, impureCircuits, withProvider).value) && Untouched(old(node.chain), old(node.txs))
                && provider.States() == old(provider.States())
      ensures CallAdmitted(request, impureCircuits, withProvider) && old(ExpectedRun(request)).Err? ==>
                r == Err(old(ExpectedRun(request)).error) && Untouched(old(node.chain), old(node.txs))
                && provider.States() == old(provider.States())
      ensures CallAdmitted(request, impureCircuits, withProvider) && old(ExpectedRun(request)).Ok? ==>
                && Reports(old(node.txs), node.txs, Call(request.address, request.circuit), r)
                && provider.States() == if r.Ok? && request.slot.Some?
                                        then old(provider.States())[request.slot.value := old(ExpectedRun(request)).value.next]
                                        else old(provider.States())
    {
      var refusal := CallRefusal(request, impureCircuits, withProvider);
      if refusal.Some? {
        return Err(refusal.value);
      }
      var unproven := CreateUnprovenCallTx(request, impureCircuits, withProvider);
      if unproven.Err? {
        return Err(unproven.error);
      }
      ghost var before := World();
      var ruling := node.SubmitTx(protocol, Call(request.address, request.circuit), verdict, data);
      assert World() == Sent(protocol, before, Call(request.address, request.circuit), verdict, data);
      if ruling != SucceedEntirely {
        return Err(TxFailed(ruling));
      }
      if request.slot.Some? {
        provider.Set(request.slot.value, unproven.value.next);
      }
      r := Ok(ruling);
    }

    method SetOrGetInitialSigningKey(address: Address, given: Option<SigningKey>, sampled: SigningKey) returns (key: SigningKey)
      requires provider.Valid()
      modifies provider`signingKeys
      ensures provider.Valid()
      ensures key ==
              if given.Some? then given.value
              else if address in old(provider.Keys()) then old(provider.Keys())[address]
              else sampled
      ensures provider.Keys() == old(provider.Keys())[address := key]
    {
      if given.Some? {
        provider.SetSigningKey(address, given.value);
        return given.value;
      }
      var existing := provider.GetSigningKey(address);
      if existing.Some? {
        return existing.value;
      }
      provider.SetSigningKey(address, sampled);
      key := sampled;
    }

    /** `Ok(None)` is the `undefined` of a contract without private state. */
    method SetOrGetInitialPrivateState(slot: Option<StateId>, initial: Option<PrivateState>)
      returns (r: Result<Option<PrivateState>, Failure>)
      requires provider.Valid()
      modifies provider`record
      ensures provider.Valid()
      ensures provider.States() ==
              if slot.Some? && initial.Some? then old(provider.States())[slot.value := initial.value] else old(provider.States())
      ensures r.Ok? && slot.Some? ==> r.value == Lookup(provider.States(), slot.value) && r.value.Some?
      ensures r.Ok? && slot.None? ==> r.value.None? && initial.None?
      ensures r.Err? <==>
              if slot.None? then initial.Some?
              else initial.None? && (slot.value !in provider.States() || !protocol.truthy(provider.States()[slot.value]))
      ensures r.Err? ==> r == Err(if slot.None? then IncompleteConfig else NoPrivateState)
    {
      if slot.Some? {
        if initial.Some? {
          provider.Set(slot.value, initial.value);
          return Ok(initial);
        }
        var current := provider.Get(slot.value);
        return if current.None? || !protocol.truthy(current.value) then Err(NoPrivateState) else Ok(current);
      }
      r := if initial.Some? then Err(IncompleteConfig) else Ok(None);
    }

    /** The writes of a find whose checks have passed: the key first, then the private state. */
    method StoreFound(request: Request, sampled: SigningKey) returns (r: Result<SigningKey, Failure>)
      requires request.FindContract?
      requires provider.Valid()
      modifies provider
      ensures provider.Valid()
      ensures World() == old(FindEnd(FindWithKey(World(), id, request, sampled), id, request))
      ensures r.Ok? ==> StoredKey(World(), id, request.address) == Some(r.value)
      ensures r.Ok? <==> old(StateSettled(request))
      ensures r.Err? ==> r == Err(if request.slot.None? then IncompleteConfig else NoPrivateState)
      ensures provider.Keys() == old(provider.Keys())[request.address :=
                if request.given.Some? then request.given.value
                else if request.address in old(provider.Keys()) then old(provider.Keys())[request.address] else sampled]
      ensures provider.States() == if request.slot.Some? && request.initial.Some?
                                   then old(provider.States())[request.slot.value := request.initial.value]
                                   else old(provider.States())
    {
      var key := SetOrGetInitialSigningKey(request.address, request.given, sampled);
      if request.given.None? && request.address in old(provider.Keys()) {
        assert provider.Keys() == old(provider.Keys());
      }
      assert World() == old(FindWithKey(World(), id, request, sampled));
      var privateState := SetOrGetInitialPrivateState(request.slot, request.initial);
      r := if privateState.Err? then Err(privateState.error) else Ok(key);
    }

    /** Whether the request settles which private state to use. */
    ghost predicate StateSettled(request: Request)
      requires request.FindContract?
      reads provider
    {
      if request.slot.None? then request.initial.None?
      else
        request.initial.Some?
        || (request.slot.value in provider.States() && protocol.truthy(provider.States()[request.slot.value]))
    }

    /** `None`: the contract is not deployed yet, and the function goes on watching for it. */
    method FindDeployedContract(request: Request, sampled: SigningKey) returns (r: Option<Result<SigningKey, Failure>>)
      requires request.FindContract?
      requires provider.Valid()
      modifies provider
      ensures provider.Valid()
      ensures World() == old(if WellFormed(request.address) then ServeFind(World(), id, request, sampled) else World())
      ensures r.None? <==> WellFormed(request.address) && request.address !in node.chain
      ensures r.Some? && r.value.Ok? <==>
                old(&& WellFormed(request.address) && request.address in node.chain
                    && Mismatches(node.chain[request.address].operations, request.listed) == [] && StateSettled(request))
      ensures r.Some? && r.value.Ok? ==> StoredKey(World(), id, request.address) == Some(r.value.value)
      ensures !WellFormed(request.address) || request.address !in node.chain ==>
                provider.Keys() == old(provider.Keys()) && provider.States() == old(provider.States())
      ensures WellFormed(request.address) && request.address in node.chain
              && Mismatches(node.chain[request.address].operations, request.listed) == []
              ==> provider.Keys() == old(provider.Keys())[request.address :=
                    if request.given.Some? then request.given.value
                    else if request.address in old(provider.Keys()) then old(provider.Keys())[request.address] else sampled]
                  && provider.States() == if request.slot.Some? && request.initial.Some?
                                          then old(provider.States())[request.slot.value := request.initial.value]
                                          else old(provider.States())
      ensures !WellFormed(request.address) ==> r == Some(Err(Malformed(request.address)))
      ensures WellFormed(request.address) && request.address in node.chain
              && Mismatches(node.chain[request.address].operations, request.listed) == [] && !old(StateSettled(request))
              ==> r == Some(Err(if request.slot.None? then IncompleteConfig else NoPrivateState))
      ensures WellFormed(request.address) && request.address in node.chain
              && Mismatches(node.chain[request.address].operations, request.listed) != []
              ==> r == Some(Err(Mismatched(Mismatches(node.chain[request.address].operations, request.listed))))
                  && provider.Keys() == old(provider.Keys()) && provider.States() == old(provider.States())
    {
      var valid := HexUtils.AssertIsContractAddress(request.address);
      if valid.Err? {
        return Some(Err(InvalidAddress(valid.error)));
      }
      if request.address !in node.chain {
        return None;
      }
      var mismatched := Mismatches(node.chain[request.address].operations, request.listed);
      if mismatched != [] {
        return Some(Err(Mismatched(mismatched)));
      }
      var found := StoreFound(request, sampled);
      r := Some(found);
    }
  }
}
