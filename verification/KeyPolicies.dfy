/** Which rules of use key agreement needs: forbidding all four liberties of a policy is exactly what it takes. */
module KeyPolicies {
  import opened Results
  import opened ContractState
  import opened Lifecycle
  import opened AuthoritySafety
  import opened Sequential
  import opened KeyAgreement

  /** The stored key, if there is one, is the authority or signed the replacement that installed it. */
  ghost predicate Agreeing(s: World, c: ClientId, a: Address) {
    StoredKey(s, c, a).Some? ==>
      a in s.chain && (StoredKey(s, c, a) == Some(s.chain[a].authority.key) || exists i :: Replaced(s, c, a, i))
  }

  lemma {:induction false} AllowedInParts(policy: Policy, p: Protocol, s: World, c: ClientId, a: Address, es: seq<Event>, fs: seq<Event>)
    requires RunAllowedBy(policy, p, s, c, a, es) && RunAllowedBy(policy, p, Run(p, s, es), c, a, fs)
    ensures RunAllowedBy(policy, p, s, c, a, es + fs)
  {
    if fs == [] {
      assert es + fs == es;
    } else {
      var front := fs[..|fs| - 1];
      AllowedInParts(policy, p, s, c, a, es, front);
      RunConcat(p, s, es, front);
      assert (es + fs)[..|es + fs| - 1] == es + front;
    }
  }

  lemma AllowedSnoc(policy: Policy, p: Protocol, s: World, c: ClientId, a: Address, es: seq<Event>, e: Event)
    requires RunAllowedBy(policy, p, s, c, a, es) && AllowedBy(policy, Run(p, s, es), c, a, e)
    ensures RunAllowedBy(policy, p, s, c, a, es + [e])
  {
    assert (es + [e])[..|es + [e]| - 1] == es;
  }

  // Where every step is allowed

  /** Events after which no task replaces the authority of a contract that is not replacing it now. */
  predicate Quiet(policy: Policy, c: ClientId, e: Event) {
    e.Start? ==>
      && !e.request.MaintainContract?
      && (e.request.FindContract? && e.client == c ==> policy.earlyFinds && e.request.given.None?)
  }

  ghost predicate NoMaintenance(s: World) {
    forall id :: id in s.tasks ==> !s.tasks[id].request.MaintainContract?
  }

  lemma StillNoMaintenance(p: Protocol, s: World, e: Event)
    requires NoMaintenance(s) && (e.Start? ==> !e.request.MaintainContract?)
    ensures NoMaintenance(Apply(p, s, e))
  {
  }

  lemma {:induction false} QuietAllowed(policy: Policy, p: Protocol, s: World, c: ClientId, a: Address, es: seq<Event>)
    requires NoMaintenance(s) && forall i :: 0 <= i < |es| ==> Quiet(policy, c, es[i])
    ensures RunAllowedBy(policy, p, s, c, a, es) && NoMaintenance(Run(p, s, es))
  {
    if es != [] {
      var front, e := es[..|es| - 1], es[|es| - 1];
      QuietAllowed(policy, p, s, c, a, front);
      assert Quiet(policy, c, es[|es| - 1]);
      StillNoMaintenance(p, Run(p, s, front), e);
    }
  }

  /** Events of a client that only maintains its contract. */
  predicate Maintains(e: Event, c: ClientId, a: Address) {
    match e
    case Start(_, client, request) => client == c && request.MaintainContract? && request.address == a
    case Advance(_, _) => true
    case Settle(_, _, _) => true
    case Crash(_) => true
  }

  lemma {:induction false} MaintenanceAllowed(policy: Policy, p: Protocol, s: World, c: ClientId, a: Address, es: seq<Event>)
    requires policy.selfReplacement && forall i :: 0 <= i < |es| ==> Maintains(es[i], c, a)
    ensures RunAllowedBy(policy, p, s, c, a, es)
  {
    if es != [] {
      MaintenanceAllowed(policy, p, s, c, a, es[..|es| - 1]);
      assert Maintains(es[|es| - 1], c, a);
    }
  }

  // Runs that end in disagreement

  lemma AstrayDisagrees(s: World, c: ClientId, a: Address)
    requires Astray(s, c, a)
    ensures !Agreeing(s, c, a)
  {
  }

  /** Early finds allowed: the race of a find with the deployment. */
  lemma EarlyFindsDisagree(policy: Policy, p: Protocol, c: ClientId, a: Address) returns (es: seq<Event>)
    requires policy.earlyFinds
    ensures RunAllowedBy(policy, p, INITIAL, c, a, es) && !Agreeing(Run(p, INITIAL, es), c, a)
  {
    var deploy := [Start(0, c, DeployContract(a, "k", map[], 0, None, "")), Advance(0, ""), Settle(0, SucceedEntirely, 0)];
    var find := [Start(1, c, FindContract(a, [], None, None, None)), Advance(1, "s"), Advance(1, "s")];
    FindRacesDeployment(p, c, a, "k", "s");
    es := deploy + find + [Advance(0, ""), Advance(1, "s")];
    QuietAllowed(policy, p, INITIAL, c, a, es);
    AstrayDisagrees(Run(p, INITIAL, es), c, a);
  }

  /** The client has deployed the contract with a key and nothing else has happened. */
  ghost predicate Fresh(s: World, c: ClientId, a: Address) {
    && s.tasks == map[] && a in s.chain && s.chain[a].authority == Authority("k", 0) && s.chain[a].operations == map[]
    && StoredKey(s, c, a) == Some("k") && forall i :: 0 <= i < |s.txs| ==> s.txs[i].body.Deploy?
  }

  lemma DeployedAlone(policy: Policy, p: Protocol, c: ClientId, a: Address) returns (es: seq<Event>)
    ensures RunAllowedBy(policy, p, INITIAL, c, a, es) && Fresh(Run(p, INITIAL, es), c, a)
  {
    var r := DeployContract(a, "k", map[], 0, None, "");
    es := Block(0, c, r, 0, SucceedEntirely, 0, "");
    DeployRefines(p, INITIAL, 0, c, r, SucceedEntirely, "");
    DeployIff(p, INITIAL, c, r, SucceedEntirely);
    QuietAllowed(policy, p, INITIAL, c, a, es);
  }

  lemma LateStoreDisagrees(policy: Policy, p: Protocol, s: World, c: ClientId, a: Address) returns (es: seq<Event>)
    requires policy.selfReplacement && Fresh(s, c, a) && Inv(s)
    ensures RunAllowedBy(policy, p, s, c, a, es) && !Agreeing(Run(p, s, es), c, a)
  {
    var n := |s.txs|;
    var first :=
      [Start(1, c, MaintainContract(a, ReplaceWith("k"))), Advance(1, ""), Advance(1, ""), Advance(1, ""), Settle(n, SucceedEntirely, 0)];
    var second := Block(2, c, MaintainContract(a, ReplaceWith("l")), n + 1, SucceedEntirely, 0, "");
    var third := Block(3, c, MaintainContract(a, ReplaceWith("m")), n + 2, SucceedEntirely, 0, "");
    es := first + second + third + [Advance(1, "")];
    SelfReplacement(p, s, c, a, "l", "m");
    AstrayDisagrees(Run(p, s, es), c, a);
    MaintenanceAllowed(policy, p, s, c, a, es);
  }

  /** Self-replacement allowed: a late store of the old key. */
  lemma SelfReplacementDisagrees(policy: Policy, p: Protocol, c: ClientId, a: Address) returns (es: seq<Event>)
    requires policy.selfReplacement
    ensures RunAllowedBy(policy, p, INITIAL, c, a, es) && !Agreeing(Run(p, INITIAL, es), c, a)
  {
    var deploy := DeployedAlone(policy, p, c, a);
    RunKeeps(p, INITIAL, deploy);
    var rest := LateStoreDisagrees(policy, p, Run(p, INITIAL, deploy), c, a);
    AllowedInParts(policy, p, INITIAL, c, a, deploy, rest);
    RunConcat(p, INITIAL, deploy, rest);
    es := deploy + rest;
  }

  /** A find by a client that stores the key it brings, served alone. */
  lemma FindAllowed(policy: Policy, p: Protocol, s: World, c: ClientId, d: ClientId, a: Address, key: SigningKey) returns (es: seq<Event>)
    requires Fresh(s, c, a) && (d == c ==> policy.broughtKeys)
    ensures RunAllowedBy(policy, p, s, c, a, es) && Run(p, s, es) == WithKey(s, d, a, key)
  {
    var find := FindContract(a, [], Some(key), None, None);
    var start := [Start(1, d, find)];
    es := Block(1, d, find, 0, SucceedEntirely, 0, "");
    FindRefines(p, s, 1, d, find, "", 0, SucceedEntirely, 0);
    assert [] + start == start && start[..|start| - 1] == [] && Run(p, s, []) == s;
    assert RunAllowedBy(policy, p, s, c, a, []);
    AllowedSnoc(policy, p, s, c, a, [], start[0]);
    var steps := [Advance(1, ""), Advance(1, ""), Advance(1, ""), Advance(1, "")];
    RunSnoc(p, s, [], start[0]);
    QuietAllowed(policy, p, Run(p, s, start), c, a, steps);
    AllowedInParts(policy, p, s, c, a, start, steps);
    assert es == start + steps;
  }

  /** Finds with a key allowed: the client brings a wrong one. */
  lemma BroughtKeysDisagree(policy: Policy, p: Protocol, c: ClientId, a: Address) returns (es: seq<Event>)
    requires policy.broughtKeys
    ensures RunAllowedBy(policy, p, INITIAL, c, a, es) && !Agreeing(Run(p, INITIAL, es), c, a)
  {
    var deploy := DeployedAlone(policy, p, c, a);
    var find := FindAllowed(policy, p, Run(p, INITIAL, deploy), c, c, a, "x");
    AllowedInParts(policy, p, INITIAL, c, a, deploy, find);
    RunConcat(p, INITIAL, deploy, find);
    es := deploy + find;
  }

  lemma AllowedThree(policy: Policy, p: Protocol, s: World, c: ClientId, a: Address, e1: Event, e2: Event, e3: Event)
    requires AllowedBy(policy, s, c, a, e1) && AllowedBy(policy, Apply(p, s, e1), c, a, e2)
    requires AllowedBy(policy, Apply(p, Apply(p, s, e1), e2), c, a, e3)
    ensures RunAllowedBy(policy, p, s, c, a, [e1, e2, e3])
  {
    Run3(p, s, e1, e2, e3);
    RunSnoc(p, s, [], e1);
    assert [] + [e1] == [e1] && [e1] + [e2] == [e1, e2] && [e1, e2] + [e3] == [e1, e2, e3];
    AllowedSnoc(policy, p, s, c, a, [], e1);
    AllowedSnoc(policy, p, s, c, a, [e1], e2);
    AllowedSnoc(policy, p, s, c, a, [e1, e2], e3);
  }

  lemma BuildingAllowed(policy: Policy, p: Protocol, s: World, id: TaskId, c: ClientId, d: ClientId, a: Address, key: SigningKey)
    requires policy.sharedMaintenance && id !in s.tasks && a in s.chain && StoredKey(s, d, a).Some? && StoredKey(s, d, a) != Some(key)
    ensures var r, step := MaintainContract(a, ReplaceWith(key)), Advance(id, "");
      RunAllowedBy(policy, p, s, c, a, [Start(id, d, r), step, step])
  {
    var r, step := MaintainContract(a, ReplaceWith(key)), Advance(id, "");
    AdvanceAlone(p, s, id, d, r, Started, "");
    AllowedThree(policy, p, s, c, a, Start(id, d, r), step, step);
  }

  lemma SendingAllowed(policy: Policy, p: Protocol, s: World, id: TaskId, c: ClientId, d: ClientId, a: Address, r: Request, body: Body)
    requires id !in s.tasks && r.MaintainContract?
    ensures var step := Advance(id, "");
      RunAllowedBy(policy, p, During(s, id, d, r, Built(body, NotRun)), c, a, [step, Settle(|s.txs|, SucceedEntirely, 0), step])
  {
    AdvanceAlone(p, s, id, d, r, Built(body, NotRun), "");
    SettleAlone(p, s, id, d, r, body, NotRun, SucceedEntirely, 0);
    AllowedThree(policy, p, During(s, id, d, r, Built(body, NotRun)), c, a,
                 Advance(id, ""), Settle(|s.txs|, SucceedEntirely, 0), Advance(id, ""));
  }

  /** A replacement by any client, served alone, with another key than the one it is signed with. */
  lemma ReplacementAllowed(policy: Policy, p: Protocol, s: World, id: TaskId, c: ClientId, d: ClientId, a: Address, key: SigningKey)
    requires policy.sharedMaintenance && id !in s.tasks && a in s.chain && StoredKey(s, d, a).Some? && StoredKey(s, d, a) != Some(key)
    ensures RunAllowedBy(policy, p, s, c, a, Block(id, d, MaintainContract(a, ReplaceWith(key)), |s.txs|, SucceedEntirely, 0, ""))
  {
    var r, step := MaintainContract(a, ReplaceWith(key)), Advance(id, "");
    var building, sending := [Start(id, d, r), step, step], [step, Settle(|s.txs|, SucceedEntirely, 0), step];
    BuildingAllowed(policy, p, s, id, c, d, a, key);
    BuildsUpdate(p, s, id, d, a, ReplaceWith(key), "");
    Run3(p, s, Start(id, d, r), step, step);
    SendingAllowed(policy, p, s, id, c, d, a, r, UpdateBody(s, d, a, ReplaceWith(key)).value);
    AllowedInParts(policy, p, s, c, a, building, sending);
    assert Block(id, d, r, |s.txs|, SucceedEntirely, 0, "") == building + sending;
  }

  lemma ReplacedOnce(p: Protocol, s: World, c: ClientId, a: Address, key: SigningKey)
    requires a in s.chain && StoredKey(s, c, a) == Some(s.chain[a].authority.key)
    ensures var t := ServeMaintain(p, s, c, a, ReplaceWith(key), SucceedEntirely);
      && a in t.chain && t.chain[a].authority == Authority(key, s.chain[a].authority.counter + 1) && t.tasks == s.tasks
      && StoredKey(t, c, a) == Some(key) && (forall d :: d != c ==> StoredKey(t, d, a) == StoredKey(s, d, a))
      && |t.txs| == |s.txs| + 1 && t.txs[..|s.txs|] == s.txs && t.txs[|s.txs|].body.Maintain?
      && t.txs[|s.txs|].body.signer == s.chain[a].authority.key
      && t.txs[|s.txs|].body.update == ReplaceAuthority(t.chain[a].authority)
  {
  }

  /** One replacement by another client, allowed and served. */
  lemma SharedReplacement(policy: Policy, p: Protocol, s: World, id: TaskId, c: ClientId, d: ClientId, a: Address, key: SigningKey)
    returns (es: seq<Event>)
    requires policy.sharedMaintenance && s.tasks == map[] && a in s.chain
    requires StoredKey(s, d, a) == Some(s.chain[a].authority.key) && s.chain[a].authority.key != key
    ensures RunAllowedBy(policy, p, s, c, a, es)
    ensures Run(p, s, es) == ServeMaintain(p, s, d, a, ReplaceWith(key), SucceedEntirely)
  {
    es := Block(id, d, MaintainContract(a, ReplaceWith(key)), |s.txs|, SucceedEntirely, 0, "");
    ReplacementAllowed(policy, p, s, id, c, d, a, key);
    MaintainRefines(p, s, id, d, a, ReplaceWith(key), SucceedEntirely, "");
  }

  /** Maintenance by others allowed: another client, who was given the key, replaces it twice. */
  lemma SharedMaintenanceDisagrees(policy: Policy, p: Protocol, c: ClientId, a: Address) returns (es: seq<Event>)
    requires policy.sharedMaintenance
    ensures RunAllowedBy(policy, p, INITIAL, c, a, es) && !Agreeing(Run(p, INITIAL, es), c, a)
  {
    var d := c + "'";
    var deploy := DeployedAlone(policy, p, c, a);
    var s := Run(p, INITIAL, deploy);
    var find := FindAllowed(policy, p, s, c, d, a, "k");
    var t := WithKey(s, d, a, "k");
    var first := SharedReplacement(policy, p, t, 1, c, d, a, "l");
    ReplacedOnce(p, t, d, a, "l");
    var u := Run(p, t, first);
    var second := SharedReplacement(policy, p, u, 1, c, d, a, "m");
    ReplacedOnce(p, u, d, a, "m");
    AllowedInParts(policy, p, t, c, a, first, second);
    AllowedInParts(policy, p, s, c, a, find, first + second);
    AllowedInParts(policy, p, INITIAL, c, a, deploy, find + (first + second));
    RunConcat(p, t, first, second);
    RunConcat(p, s, find, first + second);
    RunConcat(p, INITIAL, deploy, find + (first + second));
    es := deploy + (find + (first + second));
    TwiceReplaced(s, u, Run(p, INITIAL, es), c, a);
  }

  lemma TwiceReplaced(s: World, u: World, t: World, c: ClientId, a: Address)
    requires Fresh(s, c, a) && StoredKey(t, c, a) == Some("k") && a in u.chain && a in t.chain
    requires |u.txs| == |s.txs| + 1 && u.txs[..|s.txs|] == s.txs && |t.txs| == |u.txs| + 1 && t.txs[..|u.txs|] == u.txs
    requires u.txs[|s.txs|].body.Maintain? && u.txs[|s.txs|].body.update == ReplaceAuthority(Authority("l", 1))
    requires t.txs[|u.txs|].body.Maintain? && t.txs[|u.txs|].body.signer == "l" && t.chain[a].authority == Authority("m", 2)
    ensures !Agreeing(t, c, a)
  {
    forall i: nat ensures !Replaced(t, c, a, i) {
      if i < |s.txs| {
        assert t.txs[i] == t.txs[..|u.txs|][i] == u.txs[i] == u.txs[..|s.txs|][i] == s.txs[i];
      } else if i == |s.txs| {
        assert t.txs[i] == t.txs[..|u.txs|][i];
      }
    }
  }

  /** Every run that a policy allows agrees exactly when the policy forbids all four. */
  lemma AgreementIff(policy: Policy, p: Protocol, c: ClientId, a: Address)
    ensures (forall es :: RunAllowedBy(policy, p, INITIAL, c, a, es) ==> Agreeing(Run(p, INITIAL, es), c, a))
            <==> !policy.earlyFinds && !policy.broughtKeys && !policy.selfReplacement && !policy.sharedMaintenance
  {
    if policy.earlyFinds {
      var es := EarlyFindsDisagree(policy, p, c, a);
    } else if policy.broughtKeys {
      var es := BroughtKeysDisagree(policy, p, c, a);
    } else if policy.selfReplacement {
      var es := SelfReplacementDisagrees(policy, p, c, a);
    } else if policy.sharedMaintenance {
      var es := SharedMaintenanceDisagrees(policy, p, c, a);
    } else {
      assert policy == STRICT;
      forall es | RunAllowedBy(policy, p, INITIAL, c, a, es) ensures Agreeing(Run(p, INITIAL, es), c, a) {
        if StoredKey(Run(p, INITIAL, es), c, a).Some? {
          KeyAgreement.KeyAgreement(p, c, a, es);
        }
      }
    }
  }
}
