/** Where the private states in a client's store come from, in every interleaving. */
module Provenance {
  import opened Results
  import opened ContractState
  import opened Lifecycle
  import opened AuthoritySafety
  import opened Sequential

  /** The world after the first `k` events of a run. */
  function After(p: Protocol, es: seq<Event>, k: nat): World
    requires k <= |es|
  {
    Run(p, INITIAL, es[..k])
  }

  ghost predicate WasStored(p: Protocol, es: seq<Event>, c: ClientId, id: StateId, v: PrivateState) {
    exists k :: 0 <= k <= |es| && StoredState(After(p, es, k), c, id) == Some(v)
  }

  predicate DataAt(p: Protocol, es: seq<Event>, k: nat, a: Address, data: nat)
    requires k <= |es|
  {
    a in After(p, es, k).chain && After(p, es, k).chain[a].data == data
  }

  ghost predicate WasPublic(p: Protocol, es: seq<Event>, a: Address, data: nat) {
    exists k :: 0 <= k <= |es| && DataAt(p, es, k, a, data)
  }

  /** The run of a circuit on public data the contract had and, with a slot, on a truthy value stored there at some time. */
  ghost predicate RanWell(p: Protocol, es: seq<Event>, t: Task, ran: Ran) {
    t.request.CallContract? ==>
      && ran.Ran? && WasPublic(p, es, t.request.address, ran.data)
      && p.run(t.request.circuit, ran.data, ran.before) == Some(ran.next)
      && if t.request.slot.None? then ran.before.None?
         else ran.before.Some? && p.truthy(ran.before.value) && WasStored(p, es, t.client, t.request.slot.value, ran.before.value)
  }

  ghost predicate TaskRan(p: Protocol, es: seq<Event>, t: Task) {
    match t.stage
    case Read(contract) => WasPublic(p, es, t.request.address, contract.data)
    case Built(_, ran) => RanWell(p, es, t, ran)
    case Waiting(_, ran) => RanWell(p, es, t, ran)
    case _ => true
  }

  lemma Longer(p: Protocol, es: seq<Event>, e: Event, t: Task)
    requires TaskRan(p, es, t)
    ensures TaskRan(p, es + [e], t)
  {
    assert forall k :: 0 <= k <= |es| ==> (es + [e])[..k] == es[..k];
    forall a, data | WasPublic(p, es, a, data) ensures WasPublic(p, es + [e], a, data) {
      var k :| 0 <= k <= |es| && DataAt(p, es, k, a, data);
      assert DataAt(p, es + [e], k, a, data);
    }
    forall c, id, v | WasStored(p, es, c, id, v) ensures WasStored(p, es + [e], c, id, v) {
      var k :| 0 <= k <= |es| && StoredState(After(p, es, k), c, id) == Some(v);
      assert StoredState(After(p, es + [e], k), c, id) == Some(v);
    }
  }

  ghost predicate ActionRan(p: Protocol, es: seq<Event>, t: Task, action: Action) {
    match action
    case GoTo(stage) => TaskRan(p, es, t.(stage := stage))
    case Submit(_, ran) => RanWell(p, es, t, ran)
    case StoreKey(_, rest) => rest.Some? ==> TaskRan(p, es, t.(stage := rest.value))
    case StoreState(_, _, rest) => rest.Some? ==> TaskRan(p, es, t.(stage := rest.value))
    case _ => true
  }

  lemma NextRan(p: Protocol, es: seq<Event>, t: Task, sampled: SigningKey)
    requires TaskRan(p, es, t)
    ensures ActionRan(p, es, t, Next(p, Run(p, INITIAL, es), t, sampled))
  {
    var s := Run(p, INITIAL, es);
    assert After(p, es, |es|) == s by {
      assert es[..|es|] == es;
    }
    if t.stage.Started? && t.request.address in s.chain {
      assert DataAt(p, es, |es|, t.request.address, s.chain[t.request.address].data);
    }
    if t.stage.Read? && t.request.CallContract? && t.request.slot.Some? {
      var stored := StoredState(s, t.client, t.request.slot.value);
      if stored.Some? {
        assert StoredState(After(p, es, |es|), t.client, t.request.slot.value) == Some(stored.value);
      }
    }
  }

  ghost predicate AllRan(p: Protocol, es: seq<Event>, s: World) {
    Linked(s) && forall id :: id in s.tasks ==> TaskRan(p, es, s.tasks[id])
  }

  lemma EventRan(p: Protocol, es: seq<Event>, e: Event)
    requires AllRan(p, es, Run(p, INITIAL, es))
    ensures AllRan(p, es, Apply(p, Run(p, INITIAL, es), e))
  {
    var s := Run(p, INITIAL, es);
    ApplyLinked(p, s, e);
    if e.Advance? && e.task in s.tasks {
      NextRan(p, es, s.tasks[e.task], e.sampled);
    }
  }

  lemma {:induction false} AlwaysRan(p: Protocol, es: seq<Event>)
    ensures AllRan(p, es, Run(p, INITIAL, es))
  {
    if es != [] {
      var front, e := es[..|es| - 1], es[|es| - 1];
      assert front + [e] == es;
      AlwaysRan(p, front);
      EventRan(p, front, e);
      var t := Run(p, INITIAL, es);
      forall id | id in t.tasks ensures TaskRan(p, es, t.tasks[id]) {
        Longer(p, front, e, t.tasks[id]);
      }
    }
  }

  // The sources of a stored value

  /** The transaction a task waits for has succeeded entirely, and is the one its request called for. */
  predicate FullySuccessful(s: World, t: Task) {
    t.stage.Waiting? && Succeeded(s, t.stage.tx) && Matches(t.request, s.txs[t.stage.tx].body)
  }

  /**
    Event `k` is a step of a task of the client that writes the value: the value given to a find, the constructor's
    result of a fully successful deploy, or the next state of a fully successful call that ran on an earlier value of
    the slot.
   */
  ghost predicate Writes(p: Protocol, es: seq<Event>, k: nat, c: ClientId, id: StateId, v: PrivateState)
    requires k < |es|
  {
    var s := After(p, es, k);
    && es[k].Advance? && es[k].task in s.tasks && s.tasks[es[k].task].client == c
    && WritesFrom(p, es[..k], s, s.tasks[es[k].task], id, v)
  }

  ghost predicate WritesFrom(p: Protocol, before: seq<Event>, s: World, t: Task, id: StateId, v: PrivateState) {
    match t.request
    case FindContract(_, _, _, slot, initial) => slot == Some(id) && initial == Some(v)
    case DeployContract(_, _, _, _, slot, constructed) => slot == Some(id) && constructed == v && FullySuccessful(s, t)
    case CallContract(address, circuit, slot) =>
      && slot == Some(id) && FullySuccessful(s, t)
      && exists data, earlier :: p.run(circuit, data, Some(earlier)) == Some(v) && p.truthy(earlier)
           && WasPublic(p, before, address, data) && WasStored(p, before, t.client, id, earlier)
    case MaintainContract(_, _) => false
  }

  lemma StoredBy(p: Protocol, es: seq<Event>, t: Task, sampled: SigningKey, id: StateId, v: PrivateState, rest: Option<Stage>)
    requires var s := Run(p, INITIAL, es); TaskRan(p, es, t) && TaskLinked(s.txs, t) && Next(p, s, t, sampled) == StoreState(id, v, rest)
    ensures WritesFrom(p, es, Run(p, INITIAL, es), t, id, v)
  {
    if t.request.CallContract? {
      var ran := t.stage.ran;
      assert p.run(t.request.circuit, ran.data, Some(ran.before.value)) == Some(v);
    }
  }

  /** Written by event `k` and there ever since. */
  ghost predicate Explained(p: Protocol, es: seq<Event>, k: nat, c: ClientId, id: StateId, v: PrivateState)
    requires k < |es|
  {
    Writes(p, es, k, c, id, v) && forall m :: k < m <= |es| ==> StoredState(After(p, es, m), c, id) == Some(v)
  }

  predicate IsWrite(action: Action, id: StateId) {
    action.StoreState? && action.id == id
  }

  predicate WriteStep(p: Protocol, s: World, e: Event, c: ClientId, id: StateId) {
    e.Advance? && e.task in s.tasks && s.tasks[e.task].client == c && IsWrite(Next(p, s, s.tasks[e.task], e.sampled), id)
  }

  /** A slot changes in write steps of its client only. */
  lemma OnlyWritesChange(p: Protocol, s: World, e: Event, c: ClientId, id: StateId)
    ensures StoredState(Apply(p, s, e), c, id)
            == if WriteStep(p, s, e, c, id) then Some(Next(p, s, s.tasks[e.task], e.sampled).value) else StoredState(s, c, id)
  {
  }

  lemma StillExplained(p: Protocol, es: seq<Event>, e: Event, k: nat, c: ClientId, id: StateId, v: PrivateState)
    requires k < |es| && Explained(p, es, k, c, id, v) && StoredState(Run(p, INITIAL, es + [e]), c, id) == Some(v)
    ensures Explained(p, es + [e], k, c, id, v)
  {
    var longer := es + [e];
    assert longer[..k] == es[..k] && longer[k] == es[k];
    forall m | k < m <= |longer| ensures StoredState(After(p, longer, m), c, id) == Some(v) {
      if m == |longer| {
        assert longer[..m] == longer;
      } else {
        assert longer[..m] == es[..m];
        assert StoredState(After(p, es, m), c, id) == Some(v);
      }
    }
  }

  lemma JustWritten(p: Protocol, es: seq<Event>, e: Event, c: ClientId, id: StateId, v: PrivateState)
    requires WriteStep(p, Run(p, INITIAL, es), e, c, id) && StoredState(Run(p, INITIAL, es + [e]), c, id) == Some(v)
    ensures Explained(p, es + [e], |es|, c, id, v)
  {
    var s := Run(p, INITIAL, es);
    var action := Next(p, s, s.tasks[e.task], e.sampled);
    AlwaysRan(p, es);
    RunSnoc(p, INITIAL, es, e);
    OnlyWritesChange(p, s, e, c, id);
    StoredBy(p, es, s.tasks[e.task], e.sampled, id, v, action.rest);
    assert (es + [e])[..|es|] == es && (es + [e])[..|es| + 1] == es + [e];
  }

  /** In any interleaving, every private state in a store has one of the three sources. */
  lemma {:induction false} EveryStateHasASource(p: Protocol, es: seq<Event>, c: ClientId, id: StateId, v: PrivateState)
    requires StoredState(Run(p, INITIAL, es), c, id) == Some(v)
    ensures exists k :: 0 <= k < |es| && Explained(p, es, k, c, id, v)
  {
    if es != [] {
      var front, e := es[..|es| - 1], es[|es| - 1];
      assert front + [e] == es;
      OnlyWritesChange(p, Run(p, INITIAL, front), e, c, id);
      if WriteStep(p, Run(p, INITIAL, front), e, c, id) {
        JustWritten(p, front, e, c, id, v);
      } else {
        EveryStateHasASource(p, front, c, id, v);
        var k :| 0 <= k < |front| && Explained(p, front, k, c, id, v);
        StillExplained(p, front, e, k, c, id, v);
      }
    }
  }

  // One call after another

  /** A call of a circuit, and what the node makes of it. */
  datatype CallStep = CallStep(circuit: CircuitId, verdict: Verdict, data: nat)

  function ServeCalls(p: Protocol, s: World, c: ClientId, a: Address, slot: StateId, calls: seq<CallStep>): World
    decreases |calls|
  {
    if calls == [] then s
    else
      var r := CallContract(a, calls[0].circuit, Some(slot));
      ServeCalls(p, ServeCall(p, s, c, r, calls[0].verdict, calls[0].data), c, a, slot, calls[1..])
  }

  datatype States = States(data: nat, private: Option<PrivateState>)

  /**
    Public and private state after the calls. A call that throws before sending changes nothing, one that fails entirely
    neither, one that fails in its fallible part the public state only; only a fully successful one moves the private
    state on.
   */
  function FoldCalls(p: Protocol, circuits: set<CircuitId>, st: States, calls: seq<CallStep>): States
    decreases |calls|
  {
    if calls == [] then st
    else
      var call := calls[0];
      var sendable := st.private.Some? && p.truthy(st.private.value) && call.circuit in circuits
        && p.run(call.circuit, st.data, st.private).Some?;
      var next :=
        if !sendable || call.verdict.FailEntirely? then st
        else if call.verdict.FailFallible? then States(call.data, st.private)
        else States(call.data, p.run(call.circuit, st.data, st.private));
      FoldCalls(p, circuits, next, calls[1..])
  }

  /** Calls one after another leave exactly the fold in the slot, and every other slot and key alone. */
  lemma {:induction false} SequentialCallsFold(p: Protocol, s: World, c: ClientId, a: Address, slot: StateId, calls: seq<CallStep>)
    requires a in s.chain
    ensures var t := ServeCalls(p, s, c, a, slot, calls);
      && a in t.chain && t.chain[a].operations == s.chain[a].operations && t.chain[a].authority == s.chain[a].authority
      && States(t.chain[a].data, StoredState(t, c, slot))
         == FoldCalls(p, s.chain[a].operations.Keys, States(s.chain[a].data, StoredState(s, c, slot)), calls)
      && StoreOf(t, c).keys == StoreOf(s, c).keys
      && (forall id :: id != slot ==> StoredState(t, c, id) == StoredState(s, c, id))
      && (forall d :: d != c ==> StoreOf(t, d) == StoreOf(s, d))
    decreases |calls|
  {
    if calls != [] {
      var r := CallContract(a, calls[0].circuit, Some(slot));
      CallStates(p, s, c, r, calls[0].verdict, calls[0].data);
      SequentialCallsFold(p, ServeCall(p, s, c, r, calls[0].verdict, calls[0].data), c, a, slot, calls[1..]);
    }
  }

  lemma CallStates(p: Protocol, s: World, c: ClientId, r: Request, verdict: Verdict, data: nat)
    requires r.CallContract? && r.slot.Some? && r.address in s.chain
    ensures var t := ServeCall(p, s, c, r, verdict, data);
      && r.address in t.chain && t.chain[r.address].operations == s.chain[r.address].operations
      && t.chain[r.address].authority == s.chain[r.address].authority
      && t.chain[r.address].data
         == (if RunCall(p, s, c, r).None? || verdict.FailEntirely? then s.chain[r.address].data else data)
      && StoreOf(t, c).keys == StoreOf(s, c).keys
      && StoredState(t, c, r.slot.value)
         == (if RunCall(p, s, c, r).Some? && verdict.SucceedEntirely? then Some(RunCall(p, s, c, r).value.next)
             else StoredState(s, c, r.slot.value))
      && (forall id :: id != r.slot.value ==> StoredState(t, c, id) == StoredState(s, c, id))
      && (forall d :: d != c ==> StoreOf(t, d) == StoreOf(s, d))
  {
  }
}
