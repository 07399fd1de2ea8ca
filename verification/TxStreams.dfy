/** The `txId` stream: which updates it emits, which it should emit, and exactly when these are the same. */
module TxStreams {
  import opened Results
  import opened Seqs
  import opened StateStreams

  // The stream as written

  function IsNot(txId: string): ((string, Action)) -> bool {
    (pair: (string, Action)) => pair.0 != txId
  }

  function PairState(): ((string, Action)) -> State {
    (pair: (string, Action)) => pair.1.state
  }

  /** `transactionToContractState$`: it pairs identifiers with actions, and skips in every transaction anew. */
  function TxStates(txId: string): Transaction -> seq<State> {
    (t: Transaction) => Map(PairState(), SkipWhile(IsNot(txId), Zip(t.identifiers, t.actions)))
  }

  /** What a `txId` configuration emits for the transactions from the block of the named one on. */
  function TxStream(txs: seq<Transaction>, txId: string, inclusive: bool): seq<State> {
    var states := ConcatMap(TxStates(txId), txs);
    if inclusive then states else Skip(1, states)
  }

  // Updates, told apart by where they stand

  /** The state that action `pos` of transaction `tx` leaves. */
  datatype Update = Update(tx: nat, pos: nat, state: State)

  type Choice = (nat, nat) -> bool

  function UpdatesOf(actions: seq<Action>, tx: nat, keep: Choice, from: nat): seq<Update>
    decreases |actions| - from
  {
    if from >= |actions| then []
    else (if keep(tx, from) then [Update(tx, from, actions[from].state)] else []) + UpdatesOf(actions, tx, keep, from + 1)
  }

  /** The chosen updates of the transactions from `from` on, in order. */
  function Updates(txs: seq<Transaction>, keep: Choice, from: nat): seq<Update>
    decreases |txs| - from
  {
    if from >= |txs| then [] else UpdatesOf(txs[from].actions, from, keep, 0) + Updates(txs, keep, from + 1)
  }

  function UpdateState(): Update -> State {
    (u: Update) => u.state
  }

  predicate InRange(txs: seq<Transaction>, tx: nat, pos: nat) {
    tx < |txs| && pos < |txs[tx].actions|
  }

  lemma {:induction false} UpdateOfIff(actions: seq<Action>, tx: nat, keep: Choice, from: nat, u: Update)
    ensures u in UpdatesOf(actions, tx, keep, from)
            <==> u.tx == tx && from <= u.pos < |actions| && keep(tx, u.pos) && u.state == actions[u.pos].state
    decreases |actions| - from
  {
    if from < |actions| {
      UpdateOfIff(actions, tx, keep, from + 1, u);
    }
  }

  lemma {:induction false} UpdateIff(txs: seq<Transaction>, keep: Choice, from: nat, u: Update)
    ensures u in Updates(txs, keep, from)
            <==> from <= u.tx && InRange(txs, u.tx, u.pos) && keep(u.tx, u.pos) && u.state == txs[u.tx].actions[u.pos].state
    decreases |txs| - from
  {
    if from < |txs| {
      UpdateOfIff(txs[from].actions, from, keep, 0, u);
      UpdateIff(txs, keep, from + 1, u);
    }
  }

  /** The two choose the same of transaction `i`. */
  ghost predicate SameAt(txs: seq<Transaction>, c: Choice, d: Choice, i: nat) {
    forall k :: InRange(txs, i, k) ==> c(i, k) == d(i, k)
  }

  ghost predicate SameChoice(txs: seq<Transaction>, c: Choice, d: Choice) {
    forall i: nat :: i < |txs| ==> SameAt(txs, c, d, i)
  }

  lemma {:induction false} SameUpdatesOf(actions: seq<Action>, tx: nat, c: Choice, d: Choice, from: nat)
    requires forall k :: from <= k < |actions| ==> c(tx, k) == d(tx, k)
    ensures UpdatesOf(actions, tx, c, from) == UpdatesOf(actions, tx, d, from)
    decreases |actions| - from
  {
    if from < |actions| {
      SameUpdatesOf(actions, tx, c, d, from + 1);
    }
  }

  lemma {:induction false} SameUpdates(txs: seq<Transaction>, c: Choice, d: Choice, from: nat)
    requires SameChoice(txs, c, d)
    ensures Updates(txs, c, from) == Updates(txs, d, from)
    decreases |txs| - from
  {
    if from < |txs| {
      assert SameAt(txs, c, d, from);
      forall k | 0 <= k < |txs[from].actions| ensures c(from, k) == d(from, k) {
        assert InRange(txs, from, k);
      }
      SameUpdatesOf(txs[from].actions, from, c, d, 0);
      SameUpdates(txs, c, d, from + 1);
    }
  }

  /** Two choices give the same updates exactly when they choose the same. */
  lemma SameUpdatesIff(txs: seq<Transaction>, c: Choice, d: Choice)
    ensures Updates(txs, c, 0) == Updates(txs, d, 0) <==> SameChoice(txs, c, d)
  {
    if SameChoice(txs, c, d) {
      SameUpdates(txs, c, d, 0);
    } else {
      var i: nat :| i < |txs| && !SameAt(txs, c, d, i);
      var k: nat :| InRange(txs, i, k) && c(i, k) != d(i, k);
      var u := Update(i, k, txs[i].actions[k].state);
      UpdateIff(txs, c, 0, u);
      UpdateIff(txs, d, 0, u);
    }
  }

  // Which updates the stream emits

  /** The place of the first occurrence, or the length. */
  function Place(ids: seq<string>, txId: string): (p: nat)
    ensures p <= |ids| && (forall i :: 0 <= i < p ==> ids[i] != txId)
    ensures p < |ids| ==> ids[p] == txId
  {
    if ids == [] || ids[0] == txId then 0 else 1 + Place(ids[1..], txId)
  }

  /** An action is emitted when it stands at or after the identifier's place, and has an identifier of its own. */
  predicate EmitsAt(t: Transaction, txId: string, pos: nat) {
    Place(t.identifiers, txId) <= pos < |t.identifiers|
  }

  function Emitted(txs: seq<Transaction>, txId: string): Choice {
    (i: nat, k: nat) => i < |txs| && EmitsAt(txs[i], txId, k)
  }

  /** While the identifier has not come yet, skipping goes on. */
  lemma {:induction false} ZipFrom(t: Transaction, txId: string, k: nat)
    ensures var rest := Zip(Skip(k, t.identifiers), Skip(k, t.actions));
      && (k < |t.identifiers| && k < |t.actions| ==>
            rest == [(t.identifiers[k], t.actions[k])] + Zip(Skip(k + 1, t.identifiers), Skip(k + 1, t.actions)))
      && (k >= |t.identifiers| || k >= |t.actions| ==> rest == [])
  {
    if k < |t.identifiers| && k < |t.actions| {
      assert Skip(k, t.identifiers)[1..] == Skip(k + 1, t.identifiers);
      assert Skip(k, t.actions)[1..] == Skip(k + 1, t.actions);
    }
  }

  /** From the identifier's place on, everything that is paired is emitted. */
  lemma {:induction false} TakenStates(txs: seq<Transaction>, txId: string, i: nat, k: nat)
    requires i < |txs| && Place(txs[i].identifiers, txId) <= k
    ensures Map(UpdateState(), UpdatesOf(txs[i].actions, i, Emitted(txs, txId), k))
            == Map(PairState(), Zip(Skip(k, txs[i].identifiers), Skip(k, txs[i].actions)))
    decreases |txs[i].actions| - k
  {
    var t := txs[i];
    ZipFrom(t, txId, k);
    if k < |t.actions| {
      TakenStates(txs, txId, i, k + 1);
      ZipFrom(t, txId, k + 1);
      if k < |t.identifiers| {
        OneThenStates(Update(i, k, t.actions[k].state), UpdatesOf(t.actions, i, Emitted(txs, txId), k + 1));
        OneThenPairs((t.identifiers[k], t.actions[k]), Zip(Skip(k + 1, t.identifiers), Skip(k + 1, t.actions)));
      }
    }
  }

  lemma OneThenStates(u: Update, us: seq<Update>)
    ensures Map(UpdateState(), [u] + us) == [u.state] + Map(UpdateState(), us)
  {
    assert ([u] + us)[1..] == us;
  }

  lemma OneThenPairs(pair: (string, Action), pairs: seq<(string, Action)>)
    ensures Map(PairState(), [pair] + pairs) == [pair.1.state] + Map(PairState(), pairs)
  {
    assert ([pair] + pairs)[1..] == pairs;
  }

  lemma {:induction false} SkippedStates(txs: seq<Transaction>, txId: string, i: nat, k: nat)
    requires i < |txs| && k <= Place(txs[i].identifiers, txId)
    ensures Map(UpdateState(), UpdatesOf(txs[i].actions, i, Emitted(txs, txId), k))
            == Map(PairState(), SkipWhile(IsNot(txId), Zip(Skip(k, txs[i].identifiers), Skip(k, txs[i].actions))))
    decreases |txs[i].actions| - k
  {
    var t := txs[i];
    ZipFrom(t, txId, k);
    if k == Place(t.identifiers, txId) {
      TakenStates(txs, txId, i, k);
    } else if k < |t.actions| {
      SkippedStates(txs, txId, i, k + 1);
      var rest := Zip(Skip(k, t.identifiers), Skip(k, t.actions));
      assert rest[0].0 == t.identifiers[k] != txId;
      assert rest[1..] == Zip(Skip(k + 1, t.identifiers), Skip(k + 1, t.actions));
      assert SkipWhile(IsNot(txId), rest) == SkipWhile(IsNot(txId), rest[1..]);
      assert !Emitted(txs, txId)(i, k);
      var later := UpdatesOf(t.actions, i, Emitted(txs, txId), k + 1);
      assert UpdatesOf(t.actions, i, Emitted(txs, txId), k) == [] + later == later;
    }
  }

  /** The states of the emitted updates are what the operators compute. */
  lemma {:induction false} EmittedStates(txs: seq<Transaction>, txId: string, from: nat)
    requires from <= |txs|
    ensures Map(UpdateState(), Updates(txs, Emitted(txs, txId), from)) == ConcatMap(TxStates(txId), txs[from..])
    decreases |txs| - from
  {
    if from < |txs| {
      var t := txs[from];
      EmittedStates(txs, txId, from + 1);
      SkippedStates(txs, txId, from, 0);
      assert Skip(0, t.identifiers) == t.identifiers && Skip(0, t.actions) == t.actions;
      assert txs[from..][1..] == txs[from + 1..];
      MapConcat(UpdateState(), UpdatesOf(t.actions, from, Emitted(txs, txId), 0), Updates(txs, Emitted(txs, txId), from + 1));
    }
  }

  // Without the first

  /** The first transaction that emits anything. */
  function FirstEmitting(txs: seq<Transaction>, txId: string): (m: nat)
    ensures m <= |txs| && forall i :: 0 <= i < m ==> !EmitsSomething(txs[i], txId)
    ensures m < |txs| ==> EmitsSomething(txs[m], txId)
  {
    if txs == [] || EmitsSomething(txs[0], txId) then 0 else 1 + FirstEmitting(txs[1..], txId)
  }

  predicate EmitsSomething(t: Transaction, txId: string) {
    Place(t.identifiers, txId) < |t.identifiers| && Place(t.identifiers, txId) < |t.actions|
  }

  /** All that is emitted but the first. */
  function EmittedRest(txs: seq<Transaction>, txId: string): Choice {
    var m := FirstEmitting(txs, txId);
    (i: nat, k: nat) => i < |txs| && EmitsAt(txs[i], txId, k) && !(i == m && k == Place(txs[i].identifiers, txId))
  }

  lemma {:induction false} NothingChosen(actions: seq<Action>, tx: nat, keep: Choice, from: nat)
    requires forall k :: from <= k < |actions| ==> !keep(tx, k)
    ensures UpdatesOf(actions, tx, keep, from) == []
    decreases |actions| - from
  {
    if from < |actions| {
      NothingChosen(actions, tx, keep, from + 1);
    }
  }

  /** Where the two choices differ at one place only, the first chosen, one list is the other without its head. */
  lemma {:induction false} DropsHead(actions: seq<Action>, tx: nat, c: Choice, d: Choice, from: nat, place: nat)
    requires from <= place < |actions| && c(tx, place) && !d(tx, place)
    requires forall k :: from <= k < place ==> !c(tx, k) && !d(tx, k)
    requires forall k :: place < k < |actions| ==> c(tx, k) == d(tx, k)
    ensures UpdatesOf(actions, tx, c, from) != []
    ensures UpdatesOf(actions, tx, d, from) == UpdatesOf(actions, tx, c, from)[1..]
    decreases |actions| - from
  {
    if from == place {
      SameUpdatesOf(actions, tx, c, d, from + 1);
    } else {
      DropsHead(actions, tx, c, d, from + 1, place);
    }
  }

  lemma {:induction false} RestUpdates(txs: seq<Transaction>, txId: string, from: nat)
    ensures var c, d, m := Emitted(txs, txId), EmittedRest(txs, txId), FirstEmitting(txs, txId);
      Updates(txs, d, from) == if from <= m then Skip(1, Updates(txs, c, from)) else Updates(txs, c, from)
    decreases |txs| - from
  {
    var c, d, m := Emitted(txs, txId), EmittedRest(txs, txId), FirstEmitting(txs, txId);
    if from < |txs| {
      RestUpdates(txs, txId, from + 1);
      RestOf(txs, txId, from);
      AppendRest(UpdatesOf(txs[from].actions, from, c, 0), Updates(txs, c, from + 1),
                 UpdatesOf(txs[from].actions, from, d, 0), Updates(txs, d, from + 1), from, m);
    }
  }

  lemma AppendRest<A>(here: seq<A>, rest: seq<A>, here': seq<A>, rest': seq<A>, from: nat, m: nat)
    requires from < m ==> here == [] && here' == [] && rest' == Skip(1, rest)
    requires from == m ==> here != [] && here' == here[1..] && rest' == rest
    requires from > m ==> here' == here && rest' == rest
    ensures here' + rest' == if from <= m then Skip(1, here + rest) else here + rest
  {
    if from < m {
      assert here + rest == rest;
    }
  }

  lemma RestOf(txs: seq<Transaction>, txId: string, i: nat)
    requires i < |txs|
    ensures var c, d, m := Emitted(txs, txId), EmittedRest(txs, txId), FirstEmitting(txs, txId);
      var here, there := UpdatesOf(txs[i].actions, i, c, 0), UpdatesOf(txs[i].actions, i, d, 0);
      && (i < m ==> here == [] && there == [])
      && (i == m ==> here != [] && there == here[1..])
      && (i > m ==> there == here)
  {
    var c, d, m := Emitted(txs, txId), EmittedRest(txs, txId), FirstEmitting(txs, txId);
    if i < m {
      NothingChosen(txs[i].actions, i, c, 0);
      NothingChosen(txs[i].actions, i, d, 0);
    } else if i == m {
      DropsHead(txs[i].actions, i, c, d, 0, Place(txs[i].identifiers, txId));
    } else {
      SameUpdatesOf(txs[i].actions, i, c, d, 0);
    }
  }

  // What the stream should emit

  /** The first transaction that carries the identifier. */
  function Naming(txs: seq<Transaction>, txId: string): (n: nat)
    ensures n <= |txs| && forall i :: 0 <= i < n ==> txId !in txs[i].identifiers
    ensures n < |txs| ==> txId in txs[n].identifiers
  {
    if txs == [] || txId in txs[0].identifiers then 0 else 1 + Naming(txs[1..], txId)
  }

  /** The transactions whose updates are promised: from the named one on, or from the next. */
  function Begin(txs: seq<Transaction>, txId: string, inclusive: bool): nat {
    Naming(txs, txId) + if inclusive then 0 else 1
  }

  /** Every state update of the contract from there on, read off the actions alone. */
  function PromisedStates(txs: seq<Transaction>, txId: string, a: Address, inclusive: bool): seq<State> {
    Map(StateOf(), Filter(IsFor(a), ConcatMap(ActionsOf(), Skip(Begin(txs, txId, inclusive), txs))))
  }

  function Promised(txs: seq<Transaction>, a: Address, begin: nat): Choice {
    (i: nat, k: nat) => begin <= i && InRange(txs, i, k) && txs[i].actions[k].address == a
  }

  lemma {:induction false} PromisedOf(txs: seq<Transaction>, a: Address, begin: nat, i: nat, k: nat)
    requires begin <= i < |txs| && k <= |txs[i].actions|
    ensures Map(UpdateState(), UpdatesOf(txs[i].actions, i, Promised(txs, a, begin), k))
            == Map(StateOf(), Filter(IsFor(a), txs[i].actions[k..]))
    decreases |txs[i].actions| - k
  {
    var actions, keep := txs[i].actions, Promised(txs, a, begin);
    if k < |actions| {
      PromisedOf(txs, a, begin, i, k + 1);
      assert actions[k..][0] == actions[k] && actions[k..][1..] == actions[k + 1..];
      var later, kept := UpdatesOf(actions, i, keep, k + 1), Filter(IsFor(a), actions[k + 1..]);
      if actions[k].address == a {
        OneThenStates(Update(i, k, actions[k].state), later);
        assert ([actions[k]] + kept)[1..] == kept;
      } else {
        assert [] + later == later && [] + kept == kept;
      }
    }
  }

  lemma StatesConcat(a: Address, xs: seq<Action>, ys: seq<Action>)
    ensures Map(StateOf(), Filter(IsFor(a), xs + ys)) == Map(StateOf(), Filter(IsFor(a), xs)) + Map(StateOf(), Filter(IsFor(a), ys))
  {
    FilterConcat(IsFor(a), xs, ys);
    MapConcat(StateOf(), Filter(IsFor(a), xs), Filter(IsFor(a), ys));
  }

  lemma ActionsStep(txs: seq<Transaction>, a: Address, from: nat)
    requires from < |txs|
    ensures Map(StateOf(), Filter(IsFor(a), ConcatMap(ActionsOf(), txs[from..])))
            == Map(StateOf(), Filter(IsFor(a), txs[from].actions))
               + Map(StateOf(), Filter(IsFor(a), ConcatMap(ActionsOf(), txs[from + 1..])))
  {
    assert txs[from..][0] == txs[from] && txs[from..][1..] == txs[from + 1..];
    StatesConcat(a, txs[from].actions, ConcatMap(ActionsOf(), txs[from + 1..]));
  }

  lemma {:induction false} PromisedUpdates(txs: seq<Transaction>, a: Address, begin: nat, from: nat)
    requires from <= |txs|
    ensures Map(UpdateState(), Updates(txs, Promised(txs, a, begin), from))
            == Map(StateOf(), Filter(IsFor(a), ConcatMap(ActionsOf(), Skip(if from < begin then begin else from, txs))))
    decreases |txs| - from
  {
    var keep := Promised(txs, a, begin);
    if from < |txs| {
      var actions := txs[from].actions;
      PromisedUpdates(txs, a, begin, from + 1);
      var here, later := UpdatesOf(actions, from, keep, 0), Updates(txs, keep, from + 1);
      if from < begin {
        NothingChosen(actions, from, keep, 0);
        assert [] + later == later;
      } else {
        PromisedOf(txs, a, begin, from, 0);
        assert actions[0..] == actions;
        MapConcat(UpdateState(), here, later);
        ActionsStep(txs, a, from);
      }
    }
  }

  // When the two are the same

  /**
    Of this transaction exactly the contract's updates come out: from the identifier's place, or the one after it, to
    the last identifier stand actions for the contract, and nowhere else.
   */
  predicate Paired(t: Transaction, txId: string, a: Address, skipped: nat) {
    forall k :: 0 <= k < |t.actions| ==>
      (Place(t.identifiers, txId) + skipped <= k < |t.identifiers| <==> t.actions[k].address == a)
  }

  /** Of this transaction nothing comes out. */
  predicate Unpaired(t: Transaction, txId: string, skipped: nat) {
    |t.identifiers| <= Place(t.identifiers, txId) + skipped || |t.actions| <= Place(t.identifiers, txId) + skipped
  }

  /** By transactions: an exclusive stream loses what is emitted first, and should emit nothing of the named one. */
  predicate Complete(txs: seq<Transaction>, txId: string, a: Address, inclusive: bool) {
    var n, m := Naming(txs, txId), FirstEmitting(txs, txId);
    if inclusive then forall i :: n <= i < |txs| ==> Paired(txs[i], txId, a, 0)
    else
      && (n < |txs| ==> Unpaired(txs[n], txId, if n == m then 1 else 0))
      && forall i :: n < i < |txs| ==> Paired(txs[i], txId, a, if i == m then 1 else 0)
  }

  function EmittedBy(txs: seq<Transaction>, txId: string, inclusive: bool): Choice {
    if inclusive then Emitted(txs, txId) else EmittedRest(txs, txId)
  }

  lemma PairedIff(txs: seq<Transaction>, txId: string, a: Address, inclusive: bool, i: nat)
    requires Naming(txs, txId) < i < |txs| || (inclusive && i == Naming(txs, txId) < |txs|)
    ensures var emitted, promised := EmittedBy(txs, txId, inclusive), Promised(txs, a, Begin(txs, txId, inclusive));
      SameAt(txs, emitted, promised, i)
      <==> Paired(txs[i], txId, a, if !inclusive && i == FirstEmitting(txs, txId) then 1 else 0)
  {
    var emitted, promised := EmittedBy(txs, txId, inclusive), Promised(txs, a, Begin(txs, txId, inclusive));
    var skipped := if !inclusive && i == FirstEmitting(txs, txId) then 1 else 0;
    forall k: nat | InRange(txs, i, k)
      ensures emitted(i, k) <==> Place(txs[i].identifiers, txId) + skipped <= k < |txs[i].identifiers|
      ensures promised(i, k) <==> txs[i].actions[k].address == a
    {
    }
    if Paired(txs[i], txId, a, skipped) {
      forall k | InRange(txs, i, k) ensures emitted(i, k) == promised(i, k) {
      }
    } else {
      var k :| 0 <= k < |txs[i].actions|
        && !(Place(txs[i].identifiers, txId) + skipped <= k < |txs[i].identifiers| <==> txs[i].actions[k].address == a);
      assert InRange(txs, i, k) && emitted(i, k) != promised(i, k);
    }
  }

  lemma UnpairedIff(txs: seq<Transaction>, txId: string, a: Address)
    requires Naming(txs, txId) < |txs|
    ensures var n, m := Naming(txs, txId), FirstEmitting(txs, txId);
      SameAt(txs, EmittedRest(txs, txId), Promised(txs, a, n + 1), n) <==> Unpaired(txs[n], txId, if n == m then 1 else 0)
  {
    var n, m := Naming(txs, txId), FirstEmitting(txs, txId);
    var rest, next := EmittedRest(txs, txId), Place(txs[n].identifiers, txId) + if n == m then 1 else 0;
    if !Unpaired(txs[n], txId, if n == m then 1 else 0) {
      assert InRange(txs, n, next) && rest(n, next) && !Promised(txs, a, n + 1)(n, next);
    }
  }

  lemma SilentBefore(txs: seq<Transaction>, txId: string, a: Address, inclusive: bool, i: nat)
    requires i < Naming(txs, txId)
    ensures SameAt(txs, EmittedBy(txs, txId, inclusive), Promised(txs, a, Begin(txs, txId, inclusive)), i)
  {
  }

  lemma CompleteIff(txs: seq<Transaction>, txId: string, a: Address, inclusive: bool)
    ensures SameChoice(txs, EmittedBy(txs, txId, inclusive), Promised(txs, a, Begin(txs, txId, inclusive)))
            <==> Complete(txs, txId, a, inclusive)
  {
    var n, m := Naming(txs, txId), FirstEmitting(txs, txId);
    var emitted, promised := EmittedBy(txs, txId, inclusive), Promised(txs, a, Begin(txs, txId, inclusive));
    forall i: nat | i < |txs|
      ensures i < n ==> SameAt(txs, emitted, promised, i)
      ensures n < i || (inclusive && n == i) ==>
                (SameAt(txs, emitted, promised, i) <==> Paired(txs[i], txId, a, if !inclusive && i == m then 1 else 0))
      ensures !inclusive && n == i ==>
                (SameAt(txs, emitted, promised, i) <==> Unpaired(txs[i], txId, if n == m then 1 else 0))
    {
      if i < n {
        SilentBefore(txs, txId, a, inclusive, i);
      } else if inclusive || n < i {
        PairedIff(txs, txId, a, inclusive, i);
      } else {
        UnpairedIff(txs, txId, a);
      }
    }
  }

  /**
    The stream emits exactly the promised updates if and only if the transactions are complete; then it emits the
    promised states. This goes for both values of `inclusive`.
   */
  lemma TxStreamIff(txs: seq<Transaction>, txId: string, a: Address, inclusive: bool)
    ensures var emitted := Updates(txs, EmittedBy(txs, txId, inclusive), 0);
      var promised := Updates(txs, Promised(txs, a, Begin(txs, txId, inclusive)), 0);
      && Map(UpdateState(), emitted) == TxStream(txs, txId, inclusive)
      && Map(UpdateState(), promised) == PromisedStates(txs, txId, a, inclusive)
      && (emitted == promised <==> Complete(txs, txId, a, inclusive))
  {
    StreamStates(txs, txId, inclusive);
    PromisedUpdates(txs, a, Begin(txs, txId, inclusive), 0);
    SameUpdatesIff(txs, EmittedBy(txs, txId, inclusive), Promised(txs, a, Begin(txs, txId, inclusive)));
    CompleteIff(txs, txId, a, inclusive);
  }

  lemma StreamStates(txs: seq<Transaction>, txId: string, inclusive: bool)
    ensures Map(UpdateState(), Updates(txs, EmittedBy(txs, txId, inclusive), 0)) == TxStream(txs, txId, inclusive)
  {
    EmittedStates(txs, txId, 0);
    assert txs[0..] == txs;
    if !inclusive {
      RestUpdates(txs, txId, 0);
      SkipStates(Updates(txs, Emitted(txs, txId), 0));
    }
  }

  lemma SkipStates(us: seq<Update>)
    ensures Map(UpdateState(), Skip(1, us)) == Skip(1, Map(UpdateState(), us))
  {
  }

  /** With an identifier that no later transaction carries, nothing of the contract may follow. */
  lemma OnlyIfNothingFollows(txs: seq<Transaction>, txId: string, a: Address, i: nat, k: nat)
    requires Naming(txs, txId) < i && InRange(txs, i, k) && txId !in txs[i].identifiers && txs[i].actions[k].address == a
    ensures !Complete(txs, txId, a, true) && !Complete(txs, txId, a, false)
  {
    assert Place(txs[i].identifiers, txId) == |txs[i].identifiers|;
  }

  // On the chain

  function TransactionsOf(): Block -> seq<Transaction> {
    (b: Block) => b.transactions
  }

  predicate Carries(b: Block, txId: string) {
    exists i :: 0 <= i < |b.transactions| && txId in b.transactions[i].identifiers
  }

  /** The height of the first block with a transaction that carries the identifier. */
  function HeightOfTx(chain: Chain, txId: string): (h: Option<nat>)
    ensures h.Some? ==> h.value < |chain| && Carries(chain[h.value], txId)
    ensures forall i :: 0 <= i < (if h.Some? then h.value else |chain|) ==> !Carries(chain[i], txId)
  {
    if chain == [] then None
    else if Carries(chain[0], txId) then Some(0)
    else (match HeightOfTx(chain[1..], txId) case Some(h) => Some(h + 1) case None => None)
  }

  function TransactionsFrom(chain: Chain, height: nat): seq<Transaction> {
    ConcatMap(TransactionsOf(), BlocksFrom(chain, height))
  }

  /** The stream of a `txId` configuration; silent until the transaction appears. */
  function TxIdStream(chain: Chain, txId: string, inclusive: bool): seq<State> {
    match HeightOfTx(chain, txId)
    case None => []
    case Some(h) => TxStream(TransactionsFrom(chain, h), txId, inclusive)
  }

  lemma {:induction false} StatesOfBlocks(a: Address, blocks: seq<Block>)
    ensures ConcatMap(StatesIn(a), blocks)
            == Map(StateOf(), Filter(IsFor(a), ConcatMap(ActionsOf(), ConcatMap(TransactionsOf(), blocks))))
  {
    if blocks != [] {
      var here, later := blocks[0].transactions, ConcatMap(TransactionsOf(), blocks[1..]);
      StatesOfBlocks(a, blocks[1..]);
      ConcatMapConcat(ActionsOf(), here, later);
      StatesConcat(a, ConcatMap(ActionsOf(), here), ConcatMap(ActionsOf(), later));
    }
  }

  lemma PromisedSuffix(txs: seq<Transaction>, a: Address, begin: nat)
    ensures IsSuffix(Map(StateOf(), Filter(IsFor(a), ConcatMap(ActionsOf(), Skip(begin, txs)))),
                     Map(StateOf(), Filter(IsFor(a), ConcatMap(ActionsOf(), txs))))
  {
    var k := if begin <= |txs| then begin else |txs|;
    assert txs == txs[..k] + txs[k..] && Skip(begin, txs) == txs[k..];
    ConcatMapConcat(ActionsOf(), txs[..k], txs[k..]);
    StatesConcat(a, ConcatMap(ActionsOf(), txs[..k]), ConcatMap(ActionsOf(), txs[k..]));
  }

  lemma SuffixOfSuffix(s: seq<State>, t: seq<State>, u: seq<State>)
    requires IsSuffix(s, t) && IsSuffix(t, u)
    ensures IsSuffix(s, u)
  {
    assert t[|t| - |s|..] == u[|u| - |s|..];
  }

  /** What is promised is the end of the contract's history: its updates from the named transaction on, or after it. */
  lemma PromiseIsHistory(chain: Chain, a: Address, txId: string, inclusive: bool, h: nat)
    requires HeightOfTx(chain, txId) == Some(h)
    ensures IsSuffix(PromisedStates(TransactionsFrom(chain, h), txId, a, inclusive), History(chain, a))
  {
    var txs := TransactionsFrom(chain, h);
    StatesOfBlocks(a, BlocksFrom(chain, h));
    PromisedSuffix(txs, a, Begin(txs, txId, inclusive));
    HeightStreamIsSuffix(chain, a, h, true);
    SuffixOfSuffix(PromisedStates(txs, txId, a, inclusive), HeightStream(chain, a, h, true), History(chain, a));
  }

  /**
    On a chain: silent until a block carries the identifier; from then on the stream emits exactly the contract's updates
    from the named transaction on, or after it, if and only if the transactions from that block on are complete.
   */
  lemma TxIdStreamIff(chain: Chain, txId: string, a: Address, inclusive: bool)
    ensures HeightOfTx(chain, txId).None? ==>
              TxIdStream(chain, txId, inclusive) == [] && forall i :: 0 <= i < |chain| ==> !Carries(chain[i], txId)
    ensures HeightOfTx(chain, txId).Some? ==>
              var txs := TransactionsFrom(chain, HeightOfTx(chain, txId).value);
              var emitted := Updates(txs, EmittedBy(txs, txId, inclusive), 0);
              var promised := Updates(txs, Promised(txs, a, Begin(txs, txId, inclusive)), 0);
              && Map(UpdateState(), emitted) == TxIdStream(chain, txId, inclusive)
              && IsSuffix(Map(UpdateState(), promised), History(chain, a))
              && (emitted == promised <==> Complete(txs, txId, a, inclusive))
  {
    if HeightOfTx(chain, txId).Some? {
      var h := HeightOfTx(chain, txId).value;
      TxStreamIff(TransactionsFrom(chain, h), txId, a, inclusive);
      PromiseIsHistory(chain, a, txId, inclusive, h);
    }
  }

  lemma {:induction false} HeightStays(chain: Chain, more: seq<Block>, txId: string)
    requires HeightOfTx(chain, txId).Some?
    ensures HeightOfTx(chain + more, txId) == HeightOfTx(chain, txId)
  {
    assert (chain + more)[0] == chain[0] && (chain + more)[1..] == chain[1..] + more;
    if !Carries(chain[0], txId) {
      HeightStays(chain[1..], more, txId);
    }
  }

  lemma TxStreamGrows(txs: seq<Transaction>, more: seq<Transaction>, txId: string, inclusive: bool)
    ensures TxStream(txs, txId, inclusive) <= TxStream(txs + more, txId, inclusive)
  {
    ConcatMapConcat(TxStates(txId), txs, more);
  }

  /** Nothing emitted is taken back when blocks arrive, also before the transaction does. */
  lemma TxIdStreamOnlyAppends(chain: Chain, more: seq<Block>, txId: string, inclusive: bool)
    ensures TxIdStream(chain, txId, inclusive) <= TxIdStream(chain + more, txId, inclusive)
  {
    if HeightOfTx(chain, txId).Some? {
      var h := HeightOfTx(chain, txId).value;
      HeightStays(chain, more, txId);
      assert (chain + more)[h..] == chain[h..] + more;
      ConcatMapConcat(TransactionsOf(), chain[h..], more);
      TxStreamGrows(TransactionsFrom(chain, h), ConcatMap(TransactionsOf(), more), txId, inclusive);
    }
  }

  // Where it goes wrong

  lemma OneAction(txId: string, a: Address, x: Action)
    ensures Map(PairState(), [(txId, x)]) == [x.state]
    ensures Map(StateOf(), Filter(IsFor(a), [x])) == if x.address == a then [x.state] else []
  {
    assert [(txId, x)][1..] == [] && [x][1..] == [];
    assert Filter(IsFor(a), [x]) == if x.address == a then [x] else [];
  }

  /** An action without an identifier of its own is lost. */
  lemma ShortIdentifiersLose(txId: string, a: Address, first: State, second: State)
    ensures var txs := [Transaction([txId], [Action(a, first), Action(a, second)])];
      TxStream(txs, txId, true) == [first] && PromisedStates(txs, txId, a, true) == [first, second] && !Complete(txs, txId, a, true)
  {
    var x, y := Action(a, first), Action(a, second);
    var t := Transaction([txId], [x, y]);
    OneTransaction(t, txId, a);
    OneAction(txId, a, x);
    OneAction(txId, a, y);
    assert [txId][1..] == [] && [x, y][1..] == [y];
    assert Zip([txId], [x, y]) == [(txId, x)];
    FilterConcat(IsFor(a), [x], [y]);
    MapConcat(StateOf(), [x], [y]);
    assert [x] + [y] == [x, y];
    assert !(Place(t.identifiers, txId) + 0 <= 1 < |t.identifiers| <==> t.actions[1].address == a);
  }

  /** Another contract's update is emitted as this one's. */
  lemma ForeignActionsAppear(txId: string, a: Address, b: Address, state: State)
    requires a != b
    ensures var txs := [Transaction([txId], [Action(b, state)])];
      TxStream(txs, txId, true) == [state] && PromisedStates(txs, txId, a, true) == [] && !Complete(txs, txId, a, true)
  {
    var x := Action(b, state);
    var t := Transaction([txId], [x]);
    OneTransaction(t, txId, a);
    OneAction(txId, a, x);
    assert [txId][1..] == [] && [x][1..] == [];
    assert Zip([txId], [x]) == [(txId, x)];
    assert !(Place(t.identifiers, txId) + 0 <= 0 < |t.identifiers| <==> t.actions[0].address == a);
  }

  lemma OneTransaction(t: Transaction, txId: string, a: Address)
    requires t.identifiers == [txId]
    ensures Naming([t], txId) == 0
    ensures TxStream([t], txId, true) == Map(PairState(), SkipWhile(IsNot(txId), Zip(t.identifiers, t.actions)))
    ensures PromisedStates([t], txId, a, true) == Map(StateOf(), Filter(IsFor(a), t.actions))
  {
    assert [t][1..] == [] && Skip(0, [t]) == [t];
    assert ConcatMap(TxStates(txId), [t]) == TxStates(txId)(t) + [] == TxStates(txId)(t);
    assert ConcatMap(ActionsOf(), [t]) == t.actions + [] == t.actions;
  }

  /** A later update of the contract is lost, in both kinds of stream. */
  lemma LaterUpdatesLost(txId: string, a: Address, now: State, later: State)
    ensures var txs := [Transaction([txId], [Action(a, now)]), Transaction([], [Action(a, later)])];
      && TxStream(txs, txId, true) == [now] && PromisedStates(txs, txId, a, true) == [now, later]
      && TxStream(txs, txId, false) == [] && PromisedStates(txs, txId, a, false) == [later]
  {
    var x, y := Action(a, now), Action(a, later);
    var t, u := Transaction([txId], [x]), Transaction([], [y]);
    OneAction(txId, a, x);
    OneAction(txId, a, y);
    assert [t, u][1..] == [u] && [u][1..] == [] && Skip(0, [t, u]) == [t, u] && Skip(1, [t, u]) == [u];
    assert [txId][1..] == [] && [x][1..] == [];
    assert Zip([txId], [x]) == [(txId, x)];
    assert TxStates(txId)(t) == [now] && TxStates(txId)(u) == [];
    assert ConcatMap(TxStates(txId), [u]) == [];
    assert ConcatMap(TxStates(txId), [t, u]) == [now];
    assert ConcatMap(ActionsOf(), [u]) == [y] && ConcatMap(ActionsOf(), [t, u]) == [x] + [y];
    FilterConcat(IsFor(a), [x], [y]);
    MapConcat(StateOf(), [x], [y]);
  }
}
