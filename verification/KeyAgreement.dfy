/**
  The signing key a client stores for a contract that only it maintains: in every reachable state it is the authority on
  the chain, or the one that authority replaced, and then the client is locked out until a key is stored.
 */
module KeyAgreement {
  import opened Results
  import opened ContractState
  import opened Lifecycle
  import opened AuthoritySafety
  import opened Sequential

  // How the contract is used

  predicate ReadsKeyToReplace(t: Task, a: Address) {
    t.request.MaintainContract? && t.request.address == a && t.request.wish.ReplaceWith? && t.stage.Read?
  }

  /**
    What may happen besides the usual: the client finds the contract before it has stored a key for it, or brings a key
    when it finds it; a replacement names the key it is signed with; other clients maintain the contract too.
   */
  datatype Policy = Policy(earlyFinds: bool, broughtKeys: bool, selfReplacement: bool, sharedMaintenance: bool)

  const STRICT := Policy(false, false, false, false)

  /** The rules are those of the policy, and there are no others: anyone may deploy, find, call and crash at any time. */
  predicate AllowedBy(policy: Policy, s: World, c: ClientId, a: Address, e: Event) {
    match e
    case Start(_, client, request) =>
      if request.address != a then true
      else
        (match request
         case MaintainContract(_, _) => policy.sharedMaintenance || client == c
         case FindContract(_, _, given, _, _) =>
           client == c ==> (policy.earlyFinds || StoredKey(s, c, a).Some?) && (policy.broughtKeys || given.None?)
         case _ => true)
    case Advance(id, _) =>
      id in s.tasks && ReadsKeyToReplace(s.tasks[id], a)
      ==> policy.selfReplacement || StoredKey(s, s.tasks[id].client, a) != Some(s.tasks[id].request.wish.newKey)
    case _ => true
  }

  ghost predicate RunAllowedBy(policy: Policy, p: Protocol, s: World, c: ClientId, a: Address, es: seq<Event>) {
    es == []
    || (RunAllowedBy(policy, p, s, c, a, es[..|es| - 1]) && AllowedBy(policy, Run(p, s, es[..|es| - 1]), c, a, es[|es| - 1]))
  }

  predicate Allowed(s: World, c: ClientId, a: Address, e: Event) {
    AllowedBy(STRICT, s, c, a, e)
  }

  ghost predicate AllowedRun(p: Protocol, s: World, c: ClientId, a: Address, es: seq<Event>) {
    RunAllowedBy(STRICT, p, s, c, a, es)
  }

  // The two situations

  /** A replacement of the authority that has succeeded while its task has not stored the new key yet. */
  predicate Unstored(s: World, t: Task, a: Address) {
    && t.request.MaintainContract? && t.request.address == a && t.request.wish.ReplaceWith?
    && t.stage.Waiting? && Succeeded(s, t.stage.tx)
  }

  /** The stored key is the authority. */
  ghost predicate InStep(s: World, c: ClientId, a: Address) {
    && a in s.chain && StoredKey(s, c, a) == Some(s.chain[a].authority.key)
    && forall id :: id in s.tasks ==> !Unstored(s, s.tasks[id], a)
  }

  /** An update for the contract that the node will not apply as things stand. */
  predicate Refused(chain: Chain, body: Body, a: Address) {
    body.Maintain? && body.address == a ==> !Applicable(chain, body)
  }

  /** No update for the contract that is sent or built can apply. */
  ghost predicate LockedOut(s: World, a: Address) {
    && (forall j :: 0 <= j < |s.txs| && s.txs[j].verdict.None? ==> Refused(s.chain, s.txs[j].body, a))
    && (forall id :: id in s.tasks && s.tasks[id].stage.Built? ==> Refused(s.chain, s.tasks[id].stage.body, a))
  }

  /** Transaction `i` installed the authority and was signed with the stored key, which it thereby replaced. */
  predicate Replaced(s: World, c: ClientId, a: Address, i: nat) {
    && a in s.chain && Succeeded(s, i)
    && s.txs[i].body.Maintain? && s.txs[i].body.address == a
    && s.txs[i].body.update == ReplaceAuthority(s.chain[a].authority)
    && StoredKey(s, c, a) == Some(s.txs[i].body.signer) && s.txs[i].body.signer != s.chain[a].authority.key
  }

  ghost predicate OneBehind(s: World, c: ClientId, a: Address, i: nat) {
    && Replaced(s, c, a, i) && LockedOut(s, a)
    && forall id :: id in s.tasks && Unstored(s, s.tasks[id], a) ==> s.tasks[id].stage.tx == i
  }

  // The invariant

  predicate RenewsKey(body: Body, a: Address) {
    body.Maintain? && body.address == a && body.update.ReplaceAuthority? ==> body.update.authority.key != body.signer
  }

  predicate CalmTask(t: Task, c: ClientId, a: Address) {
    && (t.stage.Built? ==> RenewsKey(t.stage.body, a))
    && (t.request.address == a ==>
          && (t.request.MaintainContract? ==> t.client == c)
          && (t.client == c && t.request.FindContract? ==> t.request.given.None? && !t.stage.FreshKey?))
  }

  predicate DeployTask(t: Task, a: Address) {
    t.request.DeployContract? && t.request.address == a
  }

  /** A deployment that has succeeded while its task has not stored the key yet. */
  predicate Deployed(s: World, t: Task, a: Address) {
    DeployTask(t, a) && (t.stage.KeyPending? || (t.stage.Waiting? && Succeeded(s, t.stage.tx)))
  }

  /** Once the client has stored a key. */
  ghost predicate Calm(s: World, c: ClientId, a: Address) {
    && a in s.chain && StoredKey(s, c, a).Some?
    && (forall id :: id in s.tasks ==> CalmTask(s.tasks[id], c, a))
    && (forall id :: id in s.tasks && s.tasks[id].client == c ==> !Deployed(s, s.tasks[id], a))
    && (forall i :: 0 <= i < |s.txs| ==> RenewsKey(s.txs[i].body, a))
  }

  predicate EarlyTask(t: Task, c: ClientId, a: Address) {
    t.request.address == a ==>
      && (t.request.MaintainContract? ==> t.client == c && (t.stage.Started? || t.stage.Read?))
      && (t.client == c ==> !t.request.FindContract?)
  }

  /** Before that. */
  ghost predicate Early(s: World, c: ClientId, a: Address) {
    && StoredKey(s, c, a).None?
    && (forall i :: 0 <= i < |s.txs| && s.txs[i].body.address == a ==> !s.txs[i].body.Maintain?)
    && (forall id :: id in s.tasks ==> EarlyTask(s.tasks[id], c, a))
    && (forall id :: id in s.tasks && Deployed(s, s.tasks[id], a) ==>
          a in s.chain && s.chain[a].authority == Authority(s.tasks[id].request.key, 0))
    && (forall i, j :: i in s.tasks && j in s.tasks && Deployed(s, s.tasks[i], a) && Deployed(s, s.tasks[j], a) ==> i == j)
  }

  ghost predicate Agree(s: World, c: ClientId, a: Address) {
    InStep(s, c, a) || exists i :: OneBehind(s, c, a, i)
  }

  ghost predicate Good(s: World, c: ClientId, a: Address) {
    && Inv(s) && Linked(s)
    && (Early(s, c, a) || (Calm(s, c, a) && Agree(s, c, a)))
  }

  // Calm states

  /** A stage that a task may be in without being about to store the key of a deployment. */
  predicate CalmStage(t: Task, c: ClientId, a: Address, stage: Stage) {
    CalmTask(t.(stage := stage), c, a) && (t.client == c && DeployTask(t, a) ==> !stage.KeyPending? && !stage.Waiting?)
  }

  predicate ActionCalm(t: Task, c: ClientId, a: Address, action: Action) {
    match action
    case GoTo(stage) => CalmStage(t, c, a, stage)
    case Submit(body, ran) => RenewsKey(body, a)
    case StoreKey(_, rest) => rest.Some? ==> CalmStage(t, c, a, rest.value)
    case StoreState(_, _, rest) => rest.Some? ==> CalmStage(t, c, a, rest.value)
    case _ => true
  }

  lemma NextCalm(p: Protocol, s: World, c: ClientId, a: Address, id: TaskId, sampled: SigningKey)
    requires Linked(s) && Calm(s, c, a) && id in s.tasks && Allowed(s, c, a, Advance(id, sampled))
    ensures ActionCalm(s.tasks[id], c, a, Next(p, s, s.tasks[id], sampled))
  {
    assert CalmTask(s.tasks[id], c, a) && TaskLinked(s.txs, s.tasks[id]);
    assert s.tasks[id].client == c ==> !Deployed(s, s.tasks[id], a);
  }

  lemma PerformCalm(s: World, c: ClientId, a: Address, id: TaskId, action: Action)
    requires Linked(s) && Calm(s, c, a) && id in s.tasks && ActionCalm(s.tasks[id], c, a, action)
    ensures Calm(Perform(s, id, action), c, a)
  {
    var t := Perform(s, id, action);
    assert CalmTask(s.tasks[id], c, a);
    forall k | k in t.tasks && t.tasks[k].client == c ensures !Deployed(t, t.tasks[k], a) {
      assert k in s.tasks && TaskLinked(s.txs, s.tasks[k]) && !Deployed(s, s.tasks[k], a);
    }
  }

  lemma CalmAdvance(p: Protocol, s: World, c: ClientId, a: Address, id: TaskId, sampled: SigningKey)
    requires Linked(s) && Calm(s, c, a) && id in s.tasks && Allowed(s, c, a, Advance(id, sampled))
    ensures Calm(Apply(p, s, Advance(id, sampled)), c, a)
  {
    NextCalm(p, s, c, a, id, sampled);
    PerformCalm(s, c, a, id, Next(p, s, s.tasks[id], sampled));
  }

  lemma CalmOther(p: Protocol, s: World, c: ClientId, a: Address, e: Event)
    requires Linked(s) && Calm(s, c, a) && !e.Advance? && Allowed(s, c, a, e)
    ensures Calm(Apply(p, s, e), c, a)
  {
  }

  lemma InStepSettle(p: Protocol, s: World, c: ClientId, a: Address, i: nat, verdict: Verdict, data: nat)
    requires Inv(s) && Linked(s) && Calm(s, c, a) && InStep(s, c, a) && Open(s, i)
    ensures var t := SettleTx(p, s, i, verdict, data); InStep(t, c, a) || OneBehind(t, c, a, i)
  {
    var t := SettleTx(p, s, i, verdict, data);
    assert BodyOk(s.chain, s.txs[i].body) && RenewsKey(s.txs[i].body, a);
    if s.txs[i].body.address == a && Replaces(p, s, i, verdict, data) {
      forall j | 0 <= j < |t.txs| && t.txs[j].verdict.None? ensures Refused(t.chain, t.txs[j].body, a) {
        assert BodyOk(s.chain, s.txs[j].body);
      }
      forall id | id in t.tasks && t.tasks[id].stage.Built? ensures Refused(t.chain, t.tasks[id].stage.body, a) {
        assert TaskOk(s.chain, s.tasks[id]);
      }
      assert OneBehind(t, c, a, i);
    } else {
      forall id | id in t.tasks ensures !Unstored(t, t.tasks[id], a) {
        assert TaskLinked(s.txs, s.tasks[id]);
        assert !Unstored(s, s.tasks[id], a);
      }
      assert InStep(t, c, a);
    }
  }

  lemma InStepAdvance(p: Protocol, s: World, c: ClientId, a: Address, id: TaskId, sampled: SigningKey)
    requires Linked(s) && Calm(s, c, a) && InStep(s, c, a) && id in s.tasks
    ensures InStep(Apply(p, s, Advance(id, sampled)), c, a)
  {
    assert CalmTask(s.tasks[id], c, a) && TaskLinked(s.txs, s.tasks[id]) && !Unstored(s, s.tasks[id], a);
  }

  lemma OneBehindSettle(p: Protocol, s: World, c: ClientId, a: Address, i: nat, j: nat, verdict: Verdict, data: nat)
    requires Linked(s) && OneBehind(s, c, a, i) && Open(s, j)
    ensures var t := SettleTx(p, s, j, verdict, data);
      OneBehind(t, c, a, i) && t.chain[a].authority == s.chain[a].authority && t.chain[a].operations == s.chain[a].operations
  {
    var t := SettleTx(p, s, j, verdict, data);
    assert Refused(s.chain, s.txs[j].body, a);
    assert t.chain[a].authority == s.chain[a].authority;
    forall b: Body ensures Refused(t.chain, b, a) == Refused(s.chain, b, a) {
    }
    assert LockedOut(t, a);
    forall id | id in t.tasks && Unstored(t, t.tasks[id], a) ensures t.tasks[id].stage.tx == i {
      assert TaskLinked(s.txs, s.tasks[id]);
      assert Unstored(s, s.tasks[id], a);
    }
  }

  /** One behind, a task other than the one about to store the key neither stores one nor builds anything that applies. */
  predicate ActionRefused(s: World, c: ClientId, a: Address, t: Task, action: Action) {
    match action
    case GoTo(stage) => stage.Built? ==> Refused(s.chain, stage.body, a)
    case Submit(body, _) => Refused(s.chain, body, a)
    case StoreKey(_, rest) => !(t.client == c && t.request.address == a) && (rest.Some? ==> rest.value == Keyed)
    case StoreState(_, _, rest) => rest.Some? ==> rest.value == KeyPending
    case _ => true
  }

  lemma NextRefused(p: Protocol, s: World, c: ClientId, a: Address, i: nat, id: TaskId, sampled: SigningKey)
    requires Linked(s) && Calm(s, c, a) && OneBehind(s, c, a, i) && id in s.tasks && !Unstored(s, s.tasks[id], a)
    ensures ActionRefused(s, c, a, s.tasks[id], Next(p, s, s.tasks[id], sampled))
  {
    assert CalmTask(s.tasks[id], c, a) && TaskLinked(s.txs, s.tasks[id]);
  }

  lemma OneBehindPerform(s: World, c: ClientId, a: Address, i: nat, id: TaskId, action: Action)
    requires Linked(s) && OneBehind(s, c, a, i) && id in s.tasks && ActionRefused(s, c, a, s.tasks[id], action)
    requires ActionLinked(s.txs, s.tasks[id], action)
    ensures OneBehind(Perform(s, id, action), c, a, i)
  {
    var t := Perform(s, id, action);
    assert LockedOut(t, a);
    assert Replaced(t, c, a, i);
    forall k | k in t.tasks && Unstored(t, t.tasks[k], a) ensures t.tasks[k].stage.tx == i {
      assert k in s.tasks && TaskLinked(s.txs, s.tasks[k]);
      if k != id {
        assert Unstored(s, s.tasks[k], a);
      }
    }
  }

  lemma StoringCatchesUp(p: Protocol, s: World, c: ClientId, a: Address, i: nat, id: TaskId, sampled: SigningKey)
    requires Linked(s) && Calm(s, c, a) && OneBehind(s, c, a, i) && id in s.tasks && Unstored(s, s.tasks[id], a)
    ensures InStep(Apply(p, s, Advance(id, sampled)), c, a)
  {
    assert CalmTask(s.tasks[id], c, a) && TaskLinked(s.txs, s.tasks[id]);
    var t := Apply(p, s, Advance(id, sampled));
    forall k | k in t.tasks ensures !Unstored(t, t.tasks[k], a) {
      assert k in s.tasks && k != id;
      assert !Unstored(s, s.tasks[k], a);
    }
  }

  lemma CalmStep(p: Protocol, s: World, c: ClientId, a: Address, e: Event)
    requires Inv(s) && Linked(s) && Calm(s, c, a) && Agree(s, c, a) && Allowed(s, c, a, e)
    ensures Calm(Apply(p, s, e), c, a) && Agree(Apply(p, s, e), c, a)
  {
    if e.Advance? && e.task in s.tasks {
      CalmAdvance(p, s, c, a, e.task, e.sampled);
      if InStep(s, c, a) {
        InStepAdvance(p, s, c, a, e.task, e.sampled);
      } else {
        var i :| OneBehind(s, c, a, i);
        OneBehindAdvance(p, s, c, a, i, e.task, e.sampled);
      }
    } else {
      if !e.Advance? {
        CalmOther(p, s, c, a, e);
      }
      if InStep(s, c, a) {
        InStepOther(p, s, c, a, e);
      } else {
        var i :| OneBehind(s, c, a, i);
        OneBehindOther(p, s, c, a, i, e);
      }
    }
  }

  lemma InStepOther(p: Protocol, s: World, c: ClientId, a: Address, e: Event)
    requires Inv(s) && Linked(s) && Calm(s, c, a) && InStep(s, c, a) && (e.Advance? ==> e.task !in s.tasks)
    ensures Agree(Apply(p, s, e), c, a)
  {
    var t := Apply(p, s, e);
    if e.Settle? && Open(s, e.tx) {
      InStepSettle(p, s, c, a, e.tx, e.verdict, e.data);
      if !InStep(t, c, a) {
        assert OneBehind(t, c, a, e.tx);
      }
    } else {
      forall id | id in t.tasks ensures !Unstored(t, t.tasks[id], a) {
        assert id in s.tasks ==> !Unstored(s, s.tasks[id], a);
      }
      assert InStep(t, c, a);
    }
  }

  lemma OneBehindAdvance(p: Protocol, s: World, c: ClientId, a: Address, i: nat, id: TaskId, sampled: SigningKey)
    requires Linked(s) && Calm(s, c, a) && OneBehind(s, c, a, i) && id in s.tasks
    ensures Agree(Apply(p, s, Advance(id, sampled)), c, a)
    ensures !Unstored(s, s.tasks[id], a) ==> OneBehind(Apply(p, s, Advance(id, sampled)), c, a, i)
  {
    if Unstored(s, s.tasks[id], a) {
      StoringCatchesUp(p, s, c, a, i, id, sampled);
    } else {
      NextRefused(p, s, c, a, i, id, sampled);
      NextLinked(p, s, s.tasks[id], sampled);
      OneBehindPerform(s, c, a, i, id, Next(p, s, s.tasks[id], sampled));
    }
  }

  lemma OneBehindOther(p: Protocol, s: World, c: ClientId, a: Address, i: nat, e: Event)
    requires Linked(s) && Calm(s, c, a) && OneBehind(s, c, a, i) && Allowed(s, c, a, e) && (e.Advance? ==> e.task !in s.tasks)
    ensures OneBehind(Apply(p, s, e), c, a, i)
    ensures Apply(p, s, e).chain[a].authority == s.chain[a].authority
    ensures Apply(p, s, e).chain[a].operations == s.chain[a].operations
  {
    var t := Apply(p, s, e);
    if e.Settle? && Open(s, e.tx) {
      OneBehindSettle(p, s, c, a, i, e.tx, e.verdict, e.data);
    } else {
      assert Replaced(t, c, a, i);
      forall id | id in t.tasks && Unstored(t, t.tasks[id], a) ensures t.tasks[id].stage.tx == i {
        assert id in s.tasks && Unstored(s, s.tasks[id], a);
      }
    }
  }

  // Before the client has stored a key

  lemma EarlySettle(p: Protocol, s: World, c: ClientId, a: Address, i: nat, verdict: Verdict, data: nat)
    requires Linked(s) && Early(s, c, a) && Open(s, i)
    ensures Early(SettleTx(p, s, i, verdict, data), c, a)
  {
    var t := SettleTx(p, s, i, verdict, data);
    forall id | id in t.tasks && Deployed(t, t.tasks[id], a)
      ensures a in t.chain && t.chain[a].authority == Authority(t.tasks[id].request.key, 0)
      ensures Deployed(s, s.tasks[id], a) || (t.tasks[id].stage == Waiting(i, t.tasks[id].stage.ran) && a !in s.chain)
    {
      assert TaskLinked(s.txs, s.tasks[id]);
    }
  }

  /** The deployment stores its key: from here on the client can maintain the contract. */
  lemma DeploymentCompletes(s: World, c: ClientId, a: Address, id: TaskId, key: SigningKey)
    requires Linked(s) && Early(s, c, a) && id in s.tasks && s.tasks[id].client == c && Deployed(s, s.tasks[id], a)
    requires key == s.tasks[id].request.key
    ensures var t := Perform(s, id, StoreKey(key, None)); Calm(t, c, a) && InStep(t, c, a)
  {
    var t := Perform(s, id, StoreKey(key, None));
    forall k | k in t.tasks
      ensures CalmTask(t.tasks[k], c, a) && !Unstored(t, t.tasks[k], a) && !Deployed(t, t.tasks[k], a)
    {
      assert k in s.tasks && k != id && EarlyTask(s.tasks[k], c, a) && TaskLinked(s.txs, s.tasks[k]);
      assert !Deployed(s, s.tasks[k], a);
    }
  }

  predicate ActionEarly(s: World, c: ClientId, a: Address, t: Task, action: Action) {
    match action
    case GoTo(stage) => EarlyTask(t.(stage := stage), c, a) && !DeployTask(t, a)
    case Submit(body, _) =>
      (body.address == a ==> !body.Maintain?) && (t.request.address == a ==> !t.request.MaintainContract?)
    case StoreKey(_, rest) =>
      && !(t.client == c && t.request.address == a)
      && (rest.Some? ==> EarlyTask(t.(stage := rest.value), c, a) && !DeployTask(t, a))
    case StoreState(_, _, rest) => rest.Some? ==> EarlyTask(t.(stage := rest.value), c, a) && (DeployTask(t, a) ==> Deployed(s, t, a))
    case _ => true
  }

  lemma NextEarly(p: Protocol, s: World, c: ClientId, a: Address, id: TaskId, sampled: SigningKey)
    requires Linked(s) && Early(s, c, a) && id in s.tasks
    ensures var action := Next(p, s, s.tasks[id], sampled);
      ActionEarly(s, c, a, s.tasks[id], action)
      || (s.tasks[id].client == c && Deployed(s, s.tasks[id], a) && action == StoreKey(s.tasks[id].request.key, None))
  {
    assert EarlyTask(s.tasks[id], c, a) && TaskLinked(s.txs, s.tasks[id]);
  }

  /** A step that settles nothing keeps the early situation when it completes no deployment. */
  lemma EarlyFrame(s: World, t: World, c: ClientId, a: Address)
    requires Early(s, c, a) && t.chain == s.chain && StoredKey(t, c, a).None?
    requires forall i :: 0 <= i < |t.txs| && t.txs[i].body.address == a ==> !t.txs[i].body.Maintain?
    requires forall k :: k in t.tasks ==> EarlyTask(t.tasks[k], c, a)
    requires forall k :: k in t.tasks && Deployed(t, t.tasks[k], a) ==>
               k in s.tasks && Deployed(s, s.tasks[k], a) && s.tasks[k].request == t.tasks[k].request
    ensures Early(t, c, a)
  {
    forall k | k in t.tasks && Deployed(t, t.tasks[k], a)
      ensures a in t.chain && t.chain[a].authority == Authority(t.tasks[k].request.key, 0)
    {
      assert Deployed(s, s.tasks[k], a);
    }
  }

  lemma EarlyPerform(s: World, c: ClientId, a: Address, id: TaskId, action: Action)
    requires Linked(s) && Early(s, c, a) && id in s.tasks && ActionEarly(s, c, a, s.tasks[id], action)
    ensures Early(Perform(s, id, action), c, a)
  {
    var t := Perform(s, id, action);
    forall k | k in t.tasks
      ensures EarlyTask(t.tasks[k], c, a)
      ensures Deployed(t, t.tasks[k], a) ==> k in s.tasks && Deployed(s, s.tasks[k], a) && s.tasks[k].request == t.tasks[k].request
    {
      assert k in s.tasks && EarlyTask(s.tasks[k], c, a) && TaskLinked(s.txs, s.tasks[k]);
    }
    EarlyFrame(s, t, c, a);
  }

  lemma EarlyAdvance(p: Protocol, s: World, c: ClientId, a: Address, id: TaskId, sampled: SigningKey)
    requires Linked(s) && Early(s, c, a) && id in s.tasks
    ensures var t := Apply(p, s, Advance(id, sampled)); Early(t, c, a) || (Calm(t, c, a) && InStep(t, c, a))
  {
    NextEarly(p, s, c, a, id, sampled);
    if ActionEarly(s, c, a, s.tasks[id], Next(p, s, s.tasks[id], sampled)) {
      EarlyPerform(s, c, a, id, Next(p, s, s.tasks[id], sampled));
    } else {
      DeploymentCompletes(s, c, a, id, s.tasks[id].request.key);
    }
  }

  lemma EarlyOther(p: Protocol, s: World, c: ClientId, a: Address, e: Event)
    requires Early(s, c, a) && Allowed(s, c, a, e) && !e.Advance? && !e.Settle?
    ensures Early(Apply(p, s, e), c, a)
  {
    EarlyFrame(s, Apply(p, s, e), c, a);
  }

  // Every reachable state

  lemma {:induction false} AlwaysGood(p: Protocol, c: ClientId, a: Address, es: seq<Event>)
    requires AllowedRun(p, INITIAL, c, a, es)
    ensures Good(Run(p, INITIAL, es), c, a)
  {
    if es != [] {
      var front, e := es[..|es| - 1], es[|es| - 1];
      var s := Run(p, INITIAL, front);
      AlwaysGood(p, c, a, front);
      ApplyKeeps(p, s, e);
      ApplyLinked(p, s, e);
      if !Early(s, c, a) {
        CalmStep(p, s, c, a, e);
      } else if e.Advance? && e.task in s.tasks {
        EarlyAdvance(p, s, c, a, e.task, e.sampled);
      } else if e.Settle? && Open(s, e.tx) {
        EarlySettle(p, s, c, a, e.tx, e.verdict, e.data);
      } else if !e.Advance? && !e.Settle? {
        EarlyOther(p, s, c, a, e);
      }
    }
  }

  /**
    Whenever the client stores a key for its contract, that key is the authority on the chain, or it signed the
    replacement that installed the authority, and then no update for the contract that anyone has sent or built applies.
   */
  lemma KeyAgreement(p: Protocol, c: ClientId, a: Address, es: seq<Event>)
    requires AllowedRun(p, INITIAL, c, a, es)
    requires StoredKey(Run(p, INITIAL, es), c, a).Some?
    ensures var s := Run(p, INITIAL, es);
      && a in s.chain
      && (StoredKey(s, c, a) == Some(s.chain[a].authority.key) || ((exists i :: Replaced(s, c, a, i)) && LockedOut(s, a)))
  {
    AlwaysGood(p, c, a, es);
    var s := Run(p, INITIAL, es);
    if !InStep(s, c, a) {
      var i :| OneBehind(s, c, a, i);
      assert Replaced(s, c, a, i);
    }
  }

  // The crash window

  /** The replacement was applied and its task is gone. */
  ghost predicate Stranded(s: World, c: ClientId, a: Address, i: nat) {
    && Inv(s) && Linked(s) && Calm(s, c, a) && OneBehind(s, c, a, i)
    && forall id :: id in s.tasks ==> !Unstored(s, s.tasks[id], a)
  }

  lemma StrandedStep(p: Protocol, s: World, c: ClientId, a: Address, i: nat, e: Event)
    requires Stranded(s, c, a, i) && Allowed(s, c, a, e)
    ensures var t := Apply(p, s, e);
      Stranded(t, c, a, i) && t.chain[a].authority == s.chain[a].authority && t.chain[a].operations == s.chain[a].operations
  {
    ApplyKeeps(p, s, e);
    ApplyLinked(p, s, e);
    if e.Advance? && e.task in s.tasks {
      StrandedAdvance(p, s, c, a, i, e.task, e.sampled);
    } else {
      StrandedOther(p, s, c, a, i, e);
    }
  }

  ghost predicate NoneUnstored(s: World, a: Address) {
    forall id :: id in s.tasks ==> !Unstored(s, s.tasks[id], a)
  }

  lemma StrandedAdvance(p: Protocol, s: World, c: ClientId, a: Address, i: nat, id: TaskId, sampled: SigningKey)
    requires Stranded(s, c, a, i) && id in s.tasks && Allowed(s, c, a, Advance(id, sampled))
    ensures var t := Apply(p, s, Advance(id, sampled));
      Calm(t, c, a) && OneBehind(t, c, a, i) && NoneUnstored(t, a) && t.chain == s.chain
  {
    CalmAdvance(p, s, c, a, id, sampled);
    OneBehindAdvance(p, s, c, a, i, id, sampled);
    NextLinked(p, s, s.tasks[id], sampled);
    NoneUnstoredPerformed(s, a, id, Next(p, s, s.tasks[id], sampled));
  }

  lemma NoneUnstoredPerformed(s: World, a: Address, id: TaskId, action: Action)
    requires Linked(s) && NoneUnstored(s, a) && id in s.tasks && ActionLinked(s.txs, s.tasks[id], action)
    ensures NoneUnstored(Perform(s, id, action), a) && Perform(s, id, action).chain == s.chain
  {
    var t := Perform(s, id, action);
    forall k | k in t.tasks ensures !Unstored(t, t.tasks[k], a) {
      assert TaskLinked(s.txs, s.tasks[k]) && !Unstored(s, s.tasks[k], a);
    }
  }

  lemma StrandedOther(p: Protocol, s: World, c: ClientId, a: Address, i: nat, e: Event)
    requires Stranded(s, c, a, i) && Allowed(s, c, a, e) && (e.Advance? ==> e.task !in s.tasks)
    ensures var t := Apply(p, s, e);
      && Calm(t, c, a) && OneBehind(t, c, a, i) && NoneUnstored(t, a)
      && t.chain[a].authority == s.chain[a].authority && t.chain[a].operations == s.chain[a].operations
  {
    if !e.Advance? {
      CalmOther(p, s, c, a, e);
    }
    OneBehindOther(p, s, c, a, i, e);
    if e.Settle? && Open(s, e.tx) {
      NoneUnstoredSettled(p, s, a, e.tx, e.verdict, e.data);
    }
  }

  lemma NoneUnstoredSettled(p: Protocol, s: World, a: Address, i: nat, verdict: Verdict, data: nat)
    requires Linked(s) && NoneUnstored(s, a) && LockedOut(s, a) && Open(s, i)
    ensures NoneUnstored(SettleTx(p, s, i, verdict, data), a)
  {
    var t := SettleTx(p, s, i, verdict, data);
    assert Refused(s.chain, s.txs[i].body, a);
    forall k | k in t.tasks ensures !Unstored(t, t.tasks[k], a) {
      assert TaskLinked(s.txs, s.tasks[k]) && !Unstored(s, s.tasks[k], a);
    }
  }

  /** After a crash between finalisation and storing, nothing changes until a key is stored, however long the run. */
  lemma {:induction false} StrandedForever(p: Protocol, s: World, c: ClientId, a: Address, i: nat, es: seq<Event>)
    requires Stranded(s, c, a, i) && AllowedRun(p, s, c, a, es)
    ensures var t := Run(p, s, es);
      && Stranded(t, c, a, i) && StoredKey(t, c, a) == StoredKey(s, c, a)
      && t.chain[a].authority == s.chain[a].authority && t.chain[a].operations == s.chain[a].operations
  {
    if es != [] {
      var front := es[..|es| - 1];
      StrandedForever(p, s, c, a, i, front);
      TxsKept(p, s, front);
      StrandedStep(p, Run(p, s, front), c, a, i, es[|es| - 1]);
      TxsKept(p, s, es);
    }
  }

  lemma TxsKept(p: Protocol, s: World, es: seq<Event>)
    requires Inv(s)
    ensures TxsGrow(s.txs, Run(p, s, es).txs)
  {
    RunKeeps(p, s, es);
  }

  // Why the conditions on use are needed

  /** The stored key is neither the authority nor the key that the authority replaced. */
  ghost predicate Astray(s: World, c: ClientId, a: Address) {
    && a in s.chain && StoredKey(s, c, a).Some? && StoredKey(s, c, a) != Some(s.chain[a].authority.key)
    && forall i :: !Replaced(s, c, a, i)
  }

  lemma Deploying(p: Protocol, c: ClientId, r: Request)
    requires r.DeployContract?
    ensures Run(p, INITIAL, [Start(0, c, r), Advance(0, ""), Settle(0, SucceedEntirely, 0)])
            == During(Sent(p, INITIAL, DeployBody(r), SucceedEntirely, 0), 0, c, r, Waiting(0, NotRun))
  {
    Run3(p, INITIAL, Start(0, c, r), Advance(0, ""), Settle(0, SucceedEntirely, 0));
    AdvanceAlone(p, INITIAL, 0, c, r, Built(DeployBody(r), NotRun), "");
    SettleAlone(p, INITIAL, 0, c, r, DeployBody(r), NotRun, SucceedEntirely, 0);
  }

  lemma FindingNoKey(p: Protocol, s: World, c: ClientId, a: Address, sampled: SigningKey)
    requires 1 !in s.tasks && a in s.chain && StoredKey(s, c, a).None?
    ensures var f := FindContract(a, [], None, None, None);
      Run(p, s, [Start(1, c, f), Advance(1, sampled), Advance(1, sampled)]) == During(s, 1, c, f, FreshKey(sampled))
  {
    var f := FindContract(a, [], None, None, None);
    Run3(p, s, Start(1, c, f), Advance(1, sampled), Advance(1, sampled));
    AdvanceAlone(p, s, 1, c, f, Started, sampled);
    AdvanceAlone(p, s, 1, c, f, Read(s.chain[a]), sampled);
  }

  lemma StoreDeployed(p: Protocol, s: World, c: ClientId, r: Request)
    requires 0 !in s.tasks && r.DeployContract? && r.slot.None? && Succeeded(s, 0)
    ensures Apply(p, During(s, 0, c, r, Waiting(0, NotRun)), Advance(0, "")) == WithKey(s, c, r.address, r.key)
  {
    AdvanceAlone(p, s, 0, c, r, Waiting(0, NotRun), "");
  }

  lemma StoreSampled(p: Protocol, s: World, c: ClientId, f: Request, sampled: SigningKey)
    requires 1 !in s.tasks && f.FindContract?
    ensures Apply(p, During(s, 1, c, f, FreshKey(sampled)), Advance(1, sampled))
            == During(WithKey(s, c, f.address, sampled), 1, c, f, Keyed)
  {
    AdvanceAlone(p, s, 1, c, f, FreshKey(sampled), sampled);
  }

  lemma SwapTasks(s: World, c: ClientId, r: Request, stage: Stage, f: Request, stage': Stage)
    ensures During(During(s, 0, c, r, stage), 1, c, f, stage') == During(During(s, 1, c, f, stage'), 0, c, r, stage)
  {
  }

  lemma BothStore(p: Protocol, s: World, c: ClientId, r: Request, sampled: SigningKey)
    requires 0 !in s.tasks && 1 !in s.tasks && r.DeployContract? && r.slot.None? && Succeeded(s, 0)
    ensures var f := FindContract(r.address, [], None, None, None);
      Run(p, During(During(s, 0, c, r, Waiting(0, NotRun)), 1, c, f, FreshKey(sampled)), [Advance(0, ""), Advance(1, sampled)])
      == During(WithKey(WithKey(s, c, r.address, r.key), c, r.address, sampled), 1, c, f, Keyed)
  {
    var f := FindContract(r.address, [], None, None, None);
    var w := During(During(s, 0, c, r, Waiting(0, NotRun)), 1, c, f, FreshKey(sampled));
    Run3(p, w, Advance(0, ""), Advance(1, sampled), Advance(1, sampled));
    SwapTasks(s, c, r, Waiting(0, NotRun), f, FreshKey(sampled));
    StoreDeployed(p, During(s, 1, c, f, FreshKey(sampled)), c, r);
    StoreSampled(p, WithKey(s, c, r.address, r.key), c, f, sampled);
  }

  /** A find that runs while the deployment completes sees no key, and stores a sampled one over the deployment's. */
  lemma FindRacesDeployment(p: Protocol, c: ClientId, a: Address, key: SigningKey, sampled: SigningKey)
    requires key != sampled
    ensures var deploy := [Start(0, c, DeployContract(a, key, map[], 0, None, "")), Advance(0, ""), Settle(0, SucceedEntirely, 0)];
      var find := [Start(1, c, FindContract(a, [], None, None, None)), Advance(1, sampled), Advance(1, sampled)];
      Astray(Run(p, INITIAL, deploy + find + [Advance(0, ""), Advance(1, sampled)]), c, a)
  {
    var r, f := DeployContract(a, key, map[], 0, None, ""), FindContract(a, [], None, None, None);
    var deploy := [Start(0, c, r), Advance(0, ""), Settle(0, SucceedEntirely, 0)];
    var find := [Start(1, c, f), Advance(1, sampled), Advance(1, sampled)];
    var t := Sent(p, INITIAL, DeployBody(r), SucceedEntirely, 0);
    Deploying(p, c, r);
    RunConcat(p, INITIAL, deploy, find);
    FindingNoKey(p, During(t, 0, c, r, Waiting(0, NotRun)), c, a, sampled);
    RunConcat(p, INITIAL, deploy + find, [Advance(0, ""), Advance(1, sampled)]);
    BothStore(p, t, c, r, sampled);
    assert t.chain[a].authority.key == key && t.txs == [Tx(DeployBody(r), Some(SucceedEntirely))];
  }

  /** The world after the client's replacement of the authority has been applied, before the key is stored. */
  function Replacing(p: Protocol, s: World, c: ClientId, a: Address, key: SigningKey): World
    requires a in s.chain && StoredKey(s, c, a).Some?
  {
    var contract := s.chain[a];
    var body := Maintain(a, contract.authority.counter, StoredKey(s, c, a).value, UpdateFor(ReplaceWith(key), contract));
    Sent(p, s, body, SucceedEntirely, 0)
  }

  lemma ReplacementSettled(p: Protocol, s: World, c: ClientId, a: Address, key: SigningKey)
    requires s.tasks == map[] && a in s.chain && StoredKey(s, c, a) == Some(s.chain[a].authority.key)
    ensures var r := MaintainContract(a, ReplaceWith(key));
      Run(p, s, [Start(1, c, r), Advance(1, ""), Advance(1, ""), Advance(1, ""), Settle(|s.txs|, SucceedEntirely, 0)])
      == During(Replacing(p, s, c, a, key), 1, c, r, Waiting(|s.txs|, NotRun))
  {
    var signer := s.chain[a].authority.key;
    var r := MaintainContract(a, ReplaceWith(key));
    var body := Maintain(a, s.chain[a].authority.counter, signer, UpdateFor(ReplaceWith(key), s.chain[a]));
    Run5(p, s, Start(1, c, r), Advance(1, ""), Advance(1, ""), Advance(1, ""), Settle(|s.txs|, SucceedEntirely, 0));
    AdvanceAlone(p, s, 1, c, r, Started, "");
    AdvanceAlone(p, s, 1, c, r, Read(s.chain[a]), "");
    AdvanceAlone(p, s, 1, c, r, Built(body, NotRun), "");
    SettleAlone(p, s, 1, c, r, body, NotRun, SucceedEntirely, 0);
  }

  /** A crash between finalisation and storing does strand the client, from any quiet state in which it is in step. */
  lemma CrashStrands(p: Protocol, s: World, c: ClientId, a: Address, key: SigningKey)
    requires Inv(s) && Calm(s, c, a) && InStep(s, c, a) && s.tasks == map[] && key != s.chain[a].authority.key
    ensures var r := MaintainContract(a, ReplaceWith(key));
      var es := [Start(1, c, r), Advance(1, ""), Advance(1, ""), Advance(1, ""), Settle(|s.txs|, SucceedEntirely, 0)] + [Crash(c)];
      var t := Run(p, s, es);
      Stranded(t, c, a, |s.txs|) && StoredKey(t, c, a) == StoredKey(s, c, a) && t.chain[a].authority.key == key
  {
    var r := MaintainContract(a, ReplaceWith(key));
    var es := [Start(1, c, r), Advance(1, ""), Advance(1, ""), Advance(1, ""), Settle(|s.txs|, SucceedEntirely, 0)];
    var t := Replacing(p, s, c, a, key);
    ReplacementSettled(p, s, c, a, key);
    ReplacementServed(s, p, c, a, key);
    RunSnoc(p, s, es, Crash(c));
    RunKeeps(p, s, es + [Crash(c)]);
    assert Run(p, s, es + [Crash(c)]) == t;
    forall j | 0 <= j < |t.txs| && t.txs[j].verdict.None? ensures Refused(t.chain, t.txs[j].body, a) {
      assert t.txs[j] == s.txs[j] && BodyOk(s.chain, s.txs[j].body);
    }
    assert OneBehind(t, c, a, |s.txs|);
  }

  /**
    A client replaces a key by itself, and before its task has stored anything two further replacements complete. The
    late store then takes the key back two authorities.
   */
  lemma SelfReplacement(p: Protocol, s: World, c: ClientId, a: Address, k1: SigningKey, k2: SigningKey)
    requires s.tasks == map[] && a in s.chain && StoredKey(s, c, a) == Some(s.chain[a].authority.key)
    requires k1 != k2 && k1 != s.chain[a].authority.key && k2 != s.chain[a].authority.key && Inv(s)
    ensures var self := MaintainContract(a, ReplaceWith(s.chain[a].authority.key));
      var first := [Start(1, c, self), Advance(1, ""), Advance(1, ""), Advance(1, ""), Settle(|s.txs|, SucceedEntirely, 0)];
      var second := Block(2, c, MaintainContract(a, ReplaceWith(k1)), |s.txs| + 1, SucceedEntirely, 0, "");
      var third := Block(3, c, MaintainContract(a, ReplaceWith(k2)), |s.txs| + 2, SucceedEntirely, 0, "");
      Astray(Run(p, s, first + second + third + [Advance(1, "")]), c, a)
  {
    var k0 := s.chain[a].authority.key;
    var self := MaintainContract(a, ReplaceWith(k0));
    var step := Advance(1, "");
    var first := [Start(1, c, self), step, step, step, Settle(|s.txs|, SucceedEntirely, 0)];
    var second := Block(2, c, MaintainContract(a, ReplaceWith(k1)), |s.txs| + 1, SucceedEntirely, 0, "");
    var third := Block(3, c, MaintainContract(a, ReplaceWith(k2)), |s.txs| + 2, SucceedEntirely, 0, "");
    var stage := Waiting(|s.txs|, NotRun);
    ThreeReplacements(p, s, c, a, k1, k2);
    RunConcat(p, s, first, second);
    RunConcat(p, s, first + second, third);
    RunSnoc(p, s, first + second + third, step);
  }

  /** A replacement has been applied between the two worlds, by nobody else and with nothing besides. */
  ghost predicate Replacement(s: World, t: World, c: ClientId, a: Address, key: SigningKey)
    requires a in s.chain
  {
    var counter := s.chain[a].authority.counter;
    && a in t.chain && t.chain[a].authority == Authority(key, counter + 1) && t.tasks == s.tasks
    && var body := Maintain(a, counter, s.chain[a].authority.key, ReplaceAuthority(Authority(key, counter + 1)));
       t.txs == s.txs + [Tx(body, Some(SucceedEntirely))]
  }

  lemma FirstReplacement(p: Protocol, s: World, c: ClientId, a: Address, key: SigningKey) returns (t: World)
    requires s.tasks == map[] && a in s.chain && StoredKey(s, c, a) == Some(s.chain[a].authority.key)
    ensures var r := MaintainContract(a, ReplaceWith(key));
      Run(p, s, [Start(1, c, r), Advance(1, ""), Advance(1, ""), Advance(1, ""), Settle(|s.txs|, SucceedEntirely, 0)])
      == During(t, 1, c, r, Waiting(|s.txs|, NotRun))
    ensures Replacement(s, t, c, a, key) && StoredKey(t, c, a) == StoredKey(s, c, a)
  {
    ReplacementSettled(p, s, c, a, key);
    ReplacementServed(s, p, c, a, key);
    t := Replacing(p, s, c, a, key);
  }

  lemma NextReplacement(p: Protocol, s: World, id: TaskId, c: ClientId, a: Address, key: SigningKey, r: Request, stage: Stage)
    returns (t: World)
    requires s.tasks == map[] && id != 1 && a in s.chain && StoredKey(s, c, a) == Some(s.chain[a].authority.key)
    ensures Run(p, During(s, 1, c, r, stage), Block(id, c, MaintainContract(a, ReplaceWith(key)), |s.txs|, SucceedEntirely, 0, ""))
            == During(t, 1, c, r, stage)
    ensures Replacement(s, t, c, a, key) && StoredKey(t, c, a) == Some(key)
  {
    ReplacementBeside(p, s, id, c, a, key, r, stage);
    ReplacementServed(s, p, c, a, key);
    t := Renewed(p, s, c, a, key);
  }

  lemma ThreeReplacements(p: Protocol, s: World, c: ClientId, a: Address, k1: SigningKey, k2: SigningKey)
    requires s.tasks == map[] && a in s.chain && StoredKey(s, c, a) == Some(s.chain[a].authority.key)
    requires k1 != k2 && k1 != s.chain[a].authority.key && k2 != s.chain[a].authority.key && Inv(s)
    ensures var self := MaintainContract(a, ReplaceWith(s.chain[a].authority.key));
      var first := [Start(1, c, self), Advance(1, ""), Advance(1, ""), Advance(1, ""), Settle(|s.txs|, SucceedEntirely, 0)];
      var second := Block(2, c, MaintainContract(a, ReplaceWith(k1)), |s.txs| + 1, SucceedEntirely, 0, "");
      var third := Block(3, c, MaintainContract(a, ReplaceWith(k2)), |s.txs| + 2, SucceedEntirely, 0, "");
      Astray(Apply(p, Run(p, Run(p, Run(p, s, first), second), third), Advance(1, "")), c, a)
  {
    var k0 := s.chain[a].authority.key;
    var self, stage := MaintainContract(a, ReplaceWith(k0)), Waiting(|s.txs|, NotRun);
    var t1 := FirstReplacement(p, s, c, a, k0);
    var t2 := NextReplacement(p, t1, 2, c, a, k1, self, stage);
    var t3 := NextReplacement(p, t2, 3, c, a, k2, self, stage);
    LateStore(p, t3, c, a, self, stage);
    TwoBack(s, WithKey(t3, c, a, k0), c, a, k0, k1);
  }

  /** A later task's replacement, served while the first task still waits. */
  lemma ReplacementBeside(p: Protocol, s: World, id: TaskId, c: ClientId, a: Address, key: SigningKey, r: Request, stage: Stage)
    requires s.tasks == map[] && id != 1 && a in s.chain && StoredKey(s, c, a) == Some(s.chain[a].authority.key)
    ensures Run(p, During(s, 1, c, r, stage), Block(id, c, MaintainContract(a, ReplaceWith(key)), |s.txs|, SucceedEntirely, 0, ""))
            == During(Renewed(p, s, c, a, key), 1, c, r, stage)
  {
    MaintainRefines(p, During(s, 1, c, r, stage), id, c, a, ReplaceWith(key), SucceedEntirely, "");
  }

  function Renewed(p: Protocol, s: World, c: ClientId, a: Address, key: SigningKey): World
    requires a in s.chain && StoredKey(s, c, a).Some?
  {
    WithKey(Replacing(p, s, c, a, key), c, a, key)
  }

  lemma ReplacementServed(s: World, p: Protocol, c: ClientId, a: Address, key: SigningKey)
    requires a in s.chain && StoredKey(s, c, a) == Some(s.chain[a].authority.key)
    ensures Replacement(s, Replacing(p, s, c, a, key), c, a, key)
  {
  }

  lemma LateStore(p: Protocol, s: World, c: ClientId, a: Address, r: Request, stage: Stage)
    requires 1 !in s.tasks && r.MaintainContract? && r.address == a && r.wish.ReplaceWith?
    requires stage.Waiting? && Succeeded(s, stage.tx)
    ensures Apply(p, During(s, 1, c, r, stage), Advance(1, "")) == WithKey(s, c, a, r.wish.newKey)
  {
    AdvanceAlone(p, s, 1, c, r, stage, "");
  }

  lemma TwoBack(s: World, t: World, c: ClientId, a: Address, k0: SigningKey, k1: SigningKey)
    requires Inv(s) && a in s.chain && a in t.chain && |t.txs| == |s.txs| + 3 && t.txs[..|s.txs|] == s.txs
    requires t.chain[a].authority.counter == s.chain[a].authority.counter + 3 && k0 != k1 && t.chain[a].authority.key != k0
    requires forall i :: |s.txs| <= i < |t.txs| && t.txs[i].body.Maintain? && t.txs[i].body.signer == k0 ==>
               t.txs[i].body.update != ReplaceAuthority(t.chain[a].authority)
    requires StoredKey(t, c, a) == Some(k0)
    ensures Astray(t, c, a)
  {
    forall i: nat ensures !Replaced(t, c, a, i) {
      if 0 <= i < |s.txs| {
        assert t.txs[i] == t.txs[..|s.txs|][i];
        assert BodyOk(s.chain, s.txs[i].body);
      }
    }
  }
}
