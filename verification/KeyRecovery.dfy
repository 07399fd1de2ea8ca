/** Agreement from any state in which it holds, and how a stranded client gets back to it. */
module KeyRecovery {
  import opened Results
  import opened ContractState
  import opened Lifecycle
  import opened AuthoritySafety
  import opened Sequential
  import opened KeyAgreement

  /** The client has stored a key, and it is the authority or the one that the authority replaced. */
  ghost predicate Settled(s: World, c: ClientId, a: Address) {
    Inv(s) && Linked(s) && Calm(s, c, a) && Agree(s, c, a)
  }

  /** From any state of agreement, however it came about, agreement lasts along every allowed run. */
  lemma {:induction false} AgreementLasts(p: Protocol, s: World, c: ClientId, a: Address, es: seq<Event>)
    requires Settled(s, c, a) && AllowedRun(p, s, c, a, es)
    ensures Settled(Run(p, s, es), c, a)
  {
    if es != [] {
      var front, e := es[..|es| - 1], es[|es| - 1];
      AgreementLasts(p, s, c, a, front);
      ApplyKeeps(p, Run(p, s, front), e);
      ApplyLinked(p, Run(p, s, front), e);
      CalmStep(p, Run(p, s, front), c, a, e);
    }
  }

  // A task that takes no step

  /** The event leaves task `id` of client `c` where it is. */
  predicate Spares(e: Event, id: TaskId, c: ClientId) {
    match e
    case Start(task, _, _) => task != id
    case Advance(task, _) => task != id
    case Settle(_, _, _) => true
    case Crash(client) => client != c
  }

  lemma SparedStart(p: Protocol, s: World, id: TaskId, c: ClientId, r: Request, stage: Stage, e: Event)
    requires id !in s.tasks && e.Start? && e.task != id
    ensures Apply(p, During(s, id, c, r, stage), e) == During(Apply(p, s, e), id, c, r, stage)
  {
    assert Apply(p, During(s, id, c, r, stage), e).tasks == During(Apply(p, s, e), id, c, r, stage).tasks;
  }

  lemma SparedCrash(p: Protocol, s: World, id: TaskId, c: ClientId, r: Request, stage: Stage, e: Event)
    requires id !in s.tasks && e.Crash? && e.client != c
    ensures Apply(p, During(s, id, c, r, stage), e) == During(Apply(p, s, e), id, c, r, stage)
  {
    assert Apply(p, During(s, id, c, r, stage), e).tasks == During(Apply(p, s, e), id, c, r, stage).tasks;
  }

  lemma SparedSettle(p: Protocol, s: World, id: TaskId, c: ClientId, r: Request, stage: Stage, e: Event)
    requires id !in s.tasks && e.Settle?
    ensures Apply(p, During(s, id, c, r, stage), e) == During(Apply(p, s, e), id, c, r, stage)
  {
  }

  lemma SparedProceed(tasks: map<TaskId, Task>, id: TaskId, t: Task, other: TaskId, rest: Option<Stage>)
    requires id !in tasks && other in tasks
    ensures Proceed(tasks[id := t], other, rest) == Proceed(tasks, other, rest)[id := t]
    ensures tasks[id := t] - {other} == (tasks - {other})[id := t]
  {
  }

  lemma SparedAction(s: World, id: TaskId, c: ClientId, r: Request, stage: Stage, other: TaskId, action: Action)
    requires id !in s.tasks && other in s.tasks
    ensures Perform(During(s, id, c, r, stage), other, action) == During(Perform(s, other, action), id, c, r, stage)
  {
    var t := Task(c, r, stage);
    match action
    case Stay =>
    case Leave => SparedProceed(s.tasks, id, t, other, None);
    case GoTo(next) => SparedProceed(s.tasks, id, t, other, Some(next));
    case Submit(body, ran) => SparedProceed(s.tasks, id, t, other, Some(Waiting(|s.txs|, ran)));
    case StoreKey(_, rest) => SparedProceed(s.tasks, id, t, other, rest);
    case StoreState(_, _, rest) => SparedProceed(s.tasks, id, t, other, rest);
  }

  lemma SparedAdvance(p: Protocol, s: World, id: TaskId, c: ClientId, r: Request, stage: Stage, e: Event)
    requires id !in s.tasks && e.Advance? && e.task != id
    ensures Apply(p, During(s, id, c, r, stage), e) == During(Apply(p, s, e), id, c, r, stage)
  {
    var w := During(s, id, c, r, stage);
    if e.task in s.tasks {
      assert Next(p, w, s.tasks[e.task], e.sampled) == Next(p, s, s.tasks[e.task], e.sampled);
      SparedAction(s, id, c, r, stage, e.task, Next(p, s, s.tasks[e.task], e.sampled));
    }
  }

  lemma NotThere(p: Protocol, s: World, id: TaskId, e: Event)
    requires id !in s.tasks && (e.Start? ==> e.task != id)
    ensures id !in Apply(p, s, e).tasks
  {
  }

  lemma SparedStep(p: Protocol, s: World, id: TaskId, c: ClientId, r: Request, stage: Stage, e: Event)
    requires id !in s.tasks && Spares(e, id, c)
    ensures id !in Apply(p, s, e).tasks
    ensures Apply(p, During(s, id, c, r, stage), e) == During(Apply(p, s, e), id, c, r, stage)
  {
    NotThere(p, s, id, e);
    match e
    case Start(_, _, _) => SparedStart(p, s, id, c, r, stage, e);
    case Advance(_, _) => SparedAdvance(p, s, id, c, r, stage, e);
    case Settle(_, _, _) => SparedSettle(p, s, id, c, r, stage, e);
    case Crash(_) => SparedCrash(p, s, id, c, r, stage, e);
  }

  /** A run that spares a task is the same run without it. */
  lemma {:induction false} SparedRun(p: Protocol, s: World, id: TaskId, c: ClientId, r: Request, stage: Stage, es: seq<Event>)
    requires id !in s.tasks && forall i :: 0 <= i < |es| ==> Spares(es[i], id, c)
    ensures id !in Run(p, s, es).tasks
    ensures Run(p, During(s, id, c, r, stage), es) == During(Run(p, s, es), id, c, r, stage)
  {
    if es != [] {
      var front, e := es[..|es| - 1], es[|es| - 1];
      SparedRun(p, s, id, c, r, stage, front);
      SparedStep(p, Run(p, s, front), id, c, r, stage, e);
    }
  }

  // Recovery

  ghost predicate AllSpare(es: seq<Event>, id: TaskId, c: ClientId) {
    forall i :: 0 <= i < |es| ==> Spares(es[i], id, c)
  }

  /** A find that brings a key, with any slot and any initial state. */
  predicate Bringing(r: Request, key: SigningKey) {
    r.FindContract? && r.given == Some(key)
  }

  lemma FindReads(p: Protocol, s: World, id: TaskId, c: ClientId, r: Request, sampled: SigningKey)
    requires id !in s.tasks && r.FindContract? && r.address in s.chain
    requires Mismatches(s.chain[r.address].operations, r.listed) == []
    ensures Apply(p, During(s, id, c, r, Started), Advance(id, sampled)) == During(s, id, c, r, Read(s.chain[r.address]))
  {
    AdvanceAlone(p, s, id, c, r, Started, sampled);
  }

  lemma FindStores(p: Protocol, s: World, id: TaskId, c: ClientId, r: Request, key: SigningKey, read: Contract, sampled: SigningKey)
    requires id !in s.tasks && Bringing(r, key)
    ensures Apply(p, During(s, id, c, r, Read(read)), Advance(id, sampled)) == During(WithKey(s, c, r.address, key), id, c, r, Keyed)
    ensures Apply(p, During(s, id, c, r, Keyed), Advance(id, sampled)) == FindEnd(s, c, r)
  {
    AdvanceAlone(p, s, id, c, r, Read(read), sampled);
    KeyedAlone(p, s, id, c, r, sampled);
  }

  /** The find, from start to return, with any events that spare it between its steps. */
  function Finding(
    id: TaskId, c: ClientId, find: Request, sampled: SigningKey, es1: seq<Event>, es2: seq<Event>, es3: seq<Event>): seq<Event>
  {
    ([Start(id, c, find)] + es1) + ([Advance(id, sampled)] + es2) + ([Advance(id, sampled)] + es3) + [Advance(id, sampled)]
  }

  lemma RunOneThen(p: Protocol, s: World, e: Event, es: seq<Event>)
    ensures Run(p, s, [e] + es) == Run(p, Apply(p, s, e), es)
  {
    RunConcat(p, s, [e], es);
    RunSnoc(p, s, [], e);
    assert [] + [e] == [e];
  }

  /** What an interleaved find comes to: the runs beside it, with the key stored between the second and the third. */
  lemma FindingBeside(p: Protocol, s: World, id: TaskId, c: ClientId, find: Request, key: SigningKey, sampled: SigningKey,
                      es1: seq<Event>, es2: seq<Event>, es3: seq<Event>)
    requires id !in s.tasks && AllSpare(es1, id, c) && AllSpare(es2, id, c) && AllSpare(es3, id, c) && Bringing(find, key)
    requires find.address in Run(p, s, es1).chain && Mismatches(Run(p, s, es1).chain[find.address].operations, find.listed) == []
    ensures Run(p, s, Finding(id, c, find, sampled, es1, es2, es3))
            == FindEnd(Run(p, WithKey(Run(p, Run(p, s, es1), es2), c, find.address, key), es3), c, find)
  {
    var step := Advance(id, sampled);
    var first, second, third := [Start(id, c, find)] + es1, [step] + es2, [step] + es3;
    var s1 := Run(p, s, es1);
    var s2 := Run(p, s1, es2);
    var read := s1.chain[find.address];
    RunOneThen(p, s, Start(id, c, find), es1);
    SparedRun(p, s, id, c, find, Started, es1);
    RunConcat(p, s, first, second);
    RunOneThen(p, During(s1, id, c, find, Started), step, es2);
    FindReads(p, s1, id, c, find, sampled);
    SparedRun(p, s1, id, c, find, Read(read), es2);
    RunConcat(p, s, first + second, third);
    RunOneThen(p, During(s2, id, c, find, Read(read)), step, es3);
    FindStores(p, s2, id, c, find, key, read, sampled);
    SparedRun(p, WithKey(s2, c, find.address, key), id, c, find, Keyed, es3);
    RunSnoc(p, s, first + second + third, step);
    FindStores(p, Run(p, WithKey(s2, c, find.address, key), es3), id, c, find, key, read, sampled);
  }

  /** The private state a find may store last touches no key. */
  lemma FindEndSettled(s: World, c: ClientId, a: Address, r: Request)
    requires Settled(s, c, a) && r.FindContract?
    ensures Settled(FindEnd(s, c, r), c, a)
  {
    var t := FindEnd(s, c, r);
    assert t.chain == s.chain && t.txs == s.txs && t.tasks == s.tasks && StoredKey(t, c, a) == StoredKey(s, c, a);
    if InStep(s, c, a) {
      assert InStep(t, c, a);
    } else {
      var i :| OneBehind(s, c, a, i);
      assert OneBehind(t, c, a, i);
    }
  }

  lemma StoredAuthority(s: World, c: ClientId, a: Address, i: nat, key: SigningKey)
    requires Stranded(s, c, a, i)
    ensures var t := WithKey(s, c, a, key);
      Inv(t) && Linked(t) && Calm(t, c, a) && StoredKey(t, c, a) == Some(key) && (InStep(t, c, a) <==> key == s.chain[a].authority.key)
  {
    var t := WithKey(s, c, a, key);
    forall k | k in t.tasks ensures CalmTask(t.tasks[k], c, a) && !Unstored(t, t.tasks[k], a) {
      assert CalmTask(s.tasks[k], c, a) && !Unstored(s, s.tasks[k], a);
    }
  }

  /**
    A stranded client finds its contract with a key, while anything allowed goes on between the find's steps. The store
    is in step at the moment the key is stored exactly when the key is the authority, and then agreement lasts to the
    end of the find and beyond.
   */
  lemma RecoveryIff(p: Protocol, s: World, c: ClientId, a: Address, i: nat, id: TaskId, find: Request, key: SigningKey,
                    sampled: SigningKey, es1: seq<Event>, es2: seq<Event>, es3: seq<Event>)
    requires Stranded(s, c, a, i) && id !in s.tasks && Bringing(find, key) && find.address == a
    requires Mismatches(s.chain[a].operations, find.listed) == []
    requires AllSpare(es1, id, c) && AllSpare(es2, id, c) && AllSpare(es3, id, c)
    requires AllowedRun(p, s, c, a, es1) && AllowedRun(p, Run(p, s, es1), c, a, es2)
    ensures var stored := WithKey(Run(p, Run(p, s, es1), es2), c, a, key);
      var end := Run(p, s, Finding(id, c, find, sampled, es1, es2, es3));
      && a in stored.chain && stored.chain[a].authority == s.chain[a].authority
      && (InStep(stored, c, a) <==> key == s.chain[a].authority.key)
      && (key == s.chain[a].authority.key && AllowedRun(p, stored, c, a, es3) ==> Settled(end, c, a))
      && end == FindEnd(Run(p, stored, es3), c, find)
  {
    var s1 := Run(p, s, es1);
    var s2 := Run(p, s1, es2);
    StrandedForever(p, s, c, a, i, es1);
    StrandedForever(p, s1, c, a, i, es2);
    FindingBeside(p, s, id, c, find, key, sampled, es1, es2, es3);
    StoredAuthority(s2, c, a, i, key);
    if key == s.chain[a].authority.key && AllowedRun(p, WithKey(s2, c, a, key), c, a, es3) {
      AgreementLasts(p, WithKey(s2, c, a, key), c, a, es3);
      FindEndSettled(Run(p, WithKey(s2, c, a, key), es3), c, a, find);
    }
  }
}
