/** When the offer of a run exists, what it is made of, and that the order of inputs and outputs does not matter. */
module ZswapPartition {
  import opened Results
  import opened Seqs
  import opened CoinInfo
  import opened InsertionMap
  import opened ZswapOffer
  import opened SplitProperties
  import opened ZswapProperties
  import opened Sums
  import opened Numerals
  import HexUtils

  // Existence

  lemma {:induction false} SlotInMap<V>(t: Table<V>, i: nat)
    requires i < |t|
    ensures t[i].key in AsMap(t)
  {
    if i > 0 {
      SlotInMap(t[1..], i - 1);
    }
  }

  lemma {:induction false} MergeExists<U>(
    t: Table<U>, coinOf: string -> Result<(string, int), OfferError>, f: (U, string, int) -> Offer)
    requires forall i :: 0 <= i < |t| ==> coinOf(t[i].key).Ok?
    ensures MergeAll(t, coinOf, f).Ok?
  {
    if t != [] {
      MergeExists(t[..|t| - 1], coinOf, f);
    }
  }

  lemma KeysMerge<U>(
    t: Table<U>, keys: set<string>, coinOf: string -> Result<(string, int), OfferError>, f: (U, string, int) -> Offer)
    requires AsMap(t).Keys <= keys && forall k :: k in keys ==> coinOf(k).Ok?
    ensures MergeAll(t, coinOf, f).Ok?
  {
    forall i | 0 <= i < |t| ensures coinOf(t[i].key).Ok? {
      SlotInMap(t, i);
    }
    MergeExists(t, coinOf, f);
  }

  lemma OfferExists(t: Tables, keys: set<string>)
    requires AsMap(t.inputs).Keys <= keys && AsMap(t.outputs).Keys <= keys && AsMap(t.transients).Keys <= keys
    requires forall k :: k in keys ==> KeyCoin(k).Ok?
    ensures OfferOf(t).Ok?
  {
    KeysMerge(t.inputs, keys, KeyCoin, FromInput);
    KeysMerge(t.outputs, keys, KeyCoin, FromOutput);
    KeysMerge(t.transients, keys, KeyCoin, FromTransient);
  }

  lemma TypedKeys(inputs: seq<CoinObject>, outputs: seq<OutputData>, encryptionPublicKey: string)
    requires Typed(inputs, outputs)
    ensures AllSerialised(KeyedInputs(inputs)) && AllSerialised(KeyedOutputs(outputs, encryptionPublicKey))
    ensures forall k :: k in Keys(KeyedInputs(inputs)) || k in Keys(KeyedOutputs(outputs, encryptionPublicKey)) ==> KeyCoin(k).Ok?
  {
    KeysAt(KeyedInputs(inputs));
    KeysAt(KeyedOutputs(outputs, encryptionPublicKey));
    forall i | 0 <= i < |inputs|
      ensures KeyedInputs(inputs)[i].key.Ok? && KeyCoin(KeyOf(KeyedInputs(inputs)[i])).Ok?
    {
      KeyReadsCoin(DropIndex(inputs[i]));
    }
    forall i | 0 <= i < |outputs|
      ensures KeyedOutputs(outputs, encryptionPublicKey)[i].key.Ok?
      ensures KeyCoin(KeyOf(KeyedOutputs(outputs, encryptionPublicKey)[i])).Ok?
    {
      KeyReadsCoin(outputs[i].coinInfo);
    }
  }

  /** Some output of the run creates this coin. */
  predicate CreatedHere(coin: CoinObject, outputs: seq<OutputData>) {
    exists i :: 0 <= i < |outputs| && outputs[i].coinInfo == coin
  }

  predicate SpentHere(coin: CoinObject, inputs: seq<CoinObject>) {
    exists i :: 0 <= i < |inputs| && DropIndex(inputs[i]) == coin
  }

  lemma OutputKeyIff(outputs: seq<OutputData>, encryptionPublicKey: string, coin: CoinObject)
    requires IsCoin(coin) && forall i :: 0 <= i < |outputs| ==> IsCoin(outputs[i].coinInfo)
    ensures Serialize(coin).Ok?
    ensures Serialize(coin).value in Keys(KeyedOutputs(outputs, encryptionPublicKey)) <==> CreatedHere(coin, outputs)
  {
    var keys := Keys(KeyedOutputs(outputs, encryptionPublicKey));
    KeysAt(KeyedOutputs(outputs, encryptionPublicKey));
    SameKeyIff(coin, coin);
    forall i | 0 <= i < |outputs| ensures keys[i] == Serialize(coin).value <==> outputs[i].coinInfo == coin {
      SameKeyIff(outputs[i].coinInfo, coin);
    }
  }

  lemma InputKeyIff(inputs: seq<CoinObject>, coin: CoinObject)
    requires IsCoin(coin) && forall i :: 0 <= i < |inputs| ==> IsQualifiedCoin(inputs[i])
    ensures Serialize(coin).Ok?
    ensures Serialize(coin).value in Keys(KeyedInputs(inputs)) <==> SpentHere(coin, inputs)
  {
    var keys := Keys(KeyedInputs(inputs));
    KeysAt(KeyedInputs(inputs));
    SameKeyIff(coin, coin);
    forall i | 0 <= i < |inputs| ensures keys[i] == Serialize(coin).value <==> DropIndex(inputs[i]) == coin {
      SameKeyIff(DropIndex(inputs[i]), coin);
    }
  }

  lemma KeyedOfferExists(inputs: seq<Keyed<CoinObject>>, outputs: seq<Keyed<UnprovenOutput>>, checked: Result<Chain, OfferError>)
    requires AllSerialised(inputs) && AllSerialised(outputs)
    requires forall k :: k in Keys(inputs) || k in Keys(outputs) ==> KeyCoin(k).Ok?
    ensures OutputTable(outputs).Ok? && Valid(OutputTable(outputs).value)
    ensures var split := Split(OutputTable(outputs).value, inputs, checked);
      (split.Ok? <==> checked.Ok? || (NoRepeats(Keys(inputs)) && forall k :: k in Keys(inputs) ==> k in Keys(outputs)))
      && (split.Ok? ==> OfferOf(split.value).Ok?)
  {
    OutputTableExists(outputs);
    OutputTableMeaning(outputs);
    var outs := OutputTable(outputs).value;
    SplitSucceedsIff(outs, inputs, checked);
    if Split(outs, inputs, checked).Ok? {
      SplitOfferExists(outs, inputs, checked);
    }
  }

  lemma SplitOfferExists(outs: Table<UnprovenOutput>, inputs: seq<Keyed<CoinObject>>, checked: Result<Chain, OfferError>)
    requires Valid(outs) && Split(outs, inputs, checked).Ok?
    requires forall k :: k in Keys(inputs) || k in AsMap(outs) ==> KeyCoin(k).Ok?
    ensures OfferOf(Split(outs, inputs, checked).value).Ok?
  {
    SplitMembership(outs, inputs, checked);
    CountSnoc(Keys(inputs), "");
    OfferExists(Split(outs, inputs, checked).value, (set k | k in Keys(inputs)) + AsMap(outs).Keys);
  }

  lemma InputKeyAt(inputs: seq<CoinObject>, i: nat)
    requires i < |inputs| && IsQualifiedCoin(inputs[i])
    ensures |Keys(KeyedInputs(inputs))| == |inputs| && Serialize(DropIndex(inputs[i])).Ok?
    ensures Keys(KeyedInputs(inputs))[i] == Serialize(DropIndex(inputs[i])).value
  {
    KeysAt(KeyedInputs(inputs));
    SameKeyIff(DropIndex(inputs[i]), DropIndex(inputs[i]));
  }

  lemma InputCreatedIff(inputs: seq<CoinObject>, outputs: seq<OutputData>, encryptionPublicKey: string, i: nat)
    requires Typed(inputs, outputs) && i < |inputs|
    ensures |Keys(KeyedInputs(inputs))| == |inputs|
    ensures Keys(KeyedInputs(inputs))[i] in Keys(KeyedOutputs(outputs, encryptionPublicKey))
            <==> CreatedHere(DropIndex(inputs[i]), outputs)
  {
    InputKeyAt(inputs, i);
    OutputKeyIff(outputs, encryptionPublicKey, DropIndex(inputs[i]));
  }

  lemma InputsCreatedIff(inputs: seq<CoinObject>, outputs: seq<OutputData>, encryptionPublicKey: string)
    requires Typed(inputs, outputs)
    ensures (forall k :: k in Keys(KeyedInputs(inputs)) ==> k in Keys(KeyedOutputs(outputs, encryptionPublicKey)))
            <==> forall i :: 0 <= i < |inputs| ==> CreatedHere(DropIndex(inputs[i]), outputs)
  {
    var keys, created := Keys(KeyedInputs(inputs)), Keys(KeyedOutputs(outputs, encryptionPublicKey));
    KeysAt(KeyedInputs(inputs));
    if i :| 0 <= i < |inputs| && !CreatedHere(DropIndex(inputs[i]), outputs) {
      InputCreatedIff(inputs, outputs, encryptionPublicKey, i);
      assert keys[i] in keys && keys[i] !in created;
    } else {
      forall k | k in keys ensures k in created {
        var i :| 0 <= i < |keys| && keys[i] == k;
        InputCreatedIff(inputs, outputs, encryptionPublicKey, i);
      }
    }
  }

  /** There is a chain state, of a contract whose address is 68 hex digits. */
  predicate Usable(chain: Option<Chain>) {
    chain.Some? && |chain.value.contractAddress| == 68 && AllDigits(chain.value.contractAddress, 16)
  }

  lemma UsableIff(chain: Option<Chain>)
    ensures CheckedChain(chain).Ok? <==> Usable(chain)
  {
    if chain.Some? {
      HexUtils.ContractAddressIff(chain.value.contractAddress);
    }
  }

  /** A typed run yields an offer exactly when the chain is usable, or its inputs are distinct coins created in the same run. */
  lemma SucceedsIff(inputs: seq<CoinObject>, outputs: seq<OutputData>, encryptionPublicKey: string, chain: Option<Chain>)
    requires Typed(inputs, outputs)
    ensures StateToOffer(inputs, outputs, encryptionPublicKey, chain).Ok?
            <==> Usable(chain)
                 || (DistinctInputs(inputs) && forall i :: 0 <= i < |inputs| ==> CreatedHere(DropIndex(inputs[i]), outputs))
  {
    TypedKeys(inputs, outputs, encryptionPublicKey);
    KeyedOfferExists(KeyedInputs(inputs), KeyedOutputs(outputs, encryptionPublicKey), CheckedChain(chain));
    InputKeysDistinct(inputs);
    InputsCreatedIff(inputs, outputs, encryptionPublicKey);
    UsableIff(chain);
  }

  // Partition

  lemma {:induction false} ItemsSnoc<V>(t: Table<V>)
    requires t != []
    ensures Items(t) == Items(t[..|t| - 1]) + [t[|t| - 1].item]
  {
    if |t| > 1 {
      ItemsSnoc(t[1..]);
      assert t[1..][..|t| - 2] == t[..|t| - 1][1..];
    }
  }

  lemma {:induction false} MergedInputs(t: Table<UnprovenInput>, coinOf: string -> Result<(string, int), OfferError>)
    requires MergeAll(t, coinOf, FromInput).Ok?
    ensures var o := MergeAll(t, coinOf, FromInput).value;
      o.inputs == multiset(Items(t)) && o.outputs == multiset{} && o.transients == multiset{}
  {
    if t != [] {
      MergedInputs(t[..|t| - 1], coinOf);
      ItemsSnoc(t);
    }
  }

  lemma {:induction false} MergedOutputs(t: Table<UnprovenOutput>, coinOf: string -> Result<(string, int), OfferError>)
    requires MergeAll(t, coinOf, FromOutput).Ok?
    ensures var o := MergeAll(t, coinOf, FromOutput).value;
      o.inputs == multiset{} && o.outputs == multiset(Items(t)) && o.transients == multiset{}
  {
    if t != [] {
      MergedOutputs(t[..|t| - 1], coinOf);
      ItemsSnoc(t);
    }
  }

  lemma {:induction false} MergedTransients(t: Table<UnprovenTransient>, coinOf: string -> Result<(string, int), OfferError>)
    requires MergeAll(t, coinOf, FromTransient).Ok?
    ensures var o := MergeAll(t, coinOf, FromTransient).value;
      o.inputs == multiset{} && o.outputs == multiset{} && o.transients == multiset(Items(t))
  {
    if t != [] {
      MergedTransients(t[..|t| - 1], coinOf);
      ItemsSnoc(t);
    }
  }

  lemma OfferItems(t: Tables)
    requires OfferOf(t).Ok?
    ensures OfferOf(t).value.inputs == multiset(Items(t.inputs))
    ensures OfferOf(t).value.outputs == multiset(Items(t.outputs))
    ensures OfferOf(t).value.transients == multiset(Items(t.transients))
  {
    MergedInputs(t.inputs, KeyCoin);
    MergedOutputs(t.outputs, KeyCoin);
    MergedTransients(t.transients, KeyCoin);
  }

  /** Equal items carry equal keys. */
  ghost predicate KeyedByItem<V>(s: seq<Keyed<V>>) {
    forall i, j :: 0 <= i < |s| && 0 <= j < |s| && s[i].item == s[j].item ==> KeyOf(s[i]) == KeyOf(s[j])
  }

  lemma OneIndexPerKey<V>(s: seq<Keyed<V>>)
    requires NoRepeats(Keys(s))
    ensures forall i, j :: 0 <= i < |s| && 0 <= j < |s| && KeyOf(s[i]) == KeyOf(s[j]) ==> i == j
    ensures forall k :: multiset(Keys(s))[k] <= 1
  {
    KeysAt(s);
    forall k ensures multiset(Keys(s))[k] <= 1 {
      CountedOnce(Keys(s), k);
    }
  }

  ghost predicate Holds<S, V>(m: map<string, V>, k: string, s: S, keyOf: S -> string, make: S -> V) {
    keyOf(s) == k && k in m && m[k] == make(s)
  }

  /** A Map whose entries are made, one for one, from the kept sources: its items are what the kept sources make. */
  lemma ItemsOfSources<S, V>(t: Table<V>, sources: set<S>, keyOf: S -> string, make: S -> V)
    requires Valid(t)
    requires forall k :: k in AsMap(t) ==> exists s :: s in sources && Holds(AsMap(t), k, s, keyOf, make)
    requires forall s :: s in sources ==> Holds(AsMap(t), keyOf(s), s, keyOf, make)
    requires forall r, s :: r in sources && s in sources && make(r) == make(s) ==> keyOf(r) == keyOf(s)
    ensures multiset(Items(t)) == multiset(set s | s in sources :: make(s))
  {
    var m := AsMap(t);
    forall k, l | k in m && l in m && k != l ensures m[k] != m[l] {
      var r :| r in sources && Holds(m, k, r, keyOf, make);
      var s :| s in sources && Holds(m, l, s, keyOf, make);
    }
    ItemsMeaning(t);
    var part := set s | s in sources :: make(s);
    forall v | v in m.Values ensures v in part {
      var k :| k in m && m[k] == v;
      var s :| s in sources && Holds(m, k, s, keyOf, make);
    }
    forall s | s in sources ensures make(s) in m.Values {
      assert Holds(m, keyOf(s), s, keyOf, make);
    }
    assert m.Values == part;
  }

  ghost function Sources(ins: seq<Keyed<CoinObject>>, outs: map<string, UnprovenOutput>, matched: bool): set<Keyed<CoinObject>> {
    set s | s in ins && (KeyOf(s) in outs) == matched
  }

  /** The inputs built from the unmatched sources. */
  ghost function UnmatchedInputs(ins: seq<Keyed<CoinObject>>, outs: map<string, UnprovenOutput>, chain: Chain): set<UnprovenInput> {
    set s | s in Sources(ins, outs, false) :: NewInput(s.item, chain)
  }

  lemma PlacedDistinct(t: Tables, outs: map<string, UnprovenOutput>, keys: seq<string>)
    requires Placed(t, outs, keys) && NoRepeats(keys)
    ensures forall k :: k in AsMap(t.inputs) <==> k in keys && k !in outs
  {
    CountSnoc(keys, "");
    forall k ensures multiset(keys)[k] <= 1 {
      CountedOnce(keys, k);
    }
  }

  lemma InputItems(m: map<string, UnprovenInput>, t: Table<UnprovenInput>, outs: map<string, UnprovenOutput>,
                   ins: seq<Keyed<CoinObject>>, checked: Result<Chain, OfferError>)
    requires Valid(t) && AsMap(t) == m && checked.Ok?
    requires forall k :: k in m <==> k in Keys(ins) && k !in outs
    requires forall k :: k in m ==> InputItem(m[k], k, ins, checked)
    requires NoRepeats(Keys(ins)) && KeyedByItem(ins)
    ensures multiset(Items(t)) == multiset(UnmatchedInputs(ins, outs, checked.value))
  {
    var sources, make := Sources(ins, outs, false), (s: Keyed<CoinObject>) => NewInput(s.item, checked.value);
    KeysAt(ins);
    OneIndexPerKey(ins);
    forall k | k in m ensures exists s :: s in sources && Holds(m, k, s, KeyOf, make) {
      var i :| 0 <= i < |ins| && KeyOf(ins[i]) == k && m[k] == NewInput(ins[i].item, checked.value);
      assert ins[i] in sources && Holds(m, k, ins[i], KeyOf, make);
    }
    forall s | s in sources ensures Holds(m, KeyOf(s), s, KeyOf, make) {
      var i :| 0 <= i < |ins| && ins[i] == s;
      assert Keys(ins)[i] in Keys(ins);
      var j :| 0 <= j < |ins| && KeyOf(ins[j]) == KeyOf(s) && m[KeyOf(s)] == NewInput(ins[j].item, checked.value);
    }
    ItemsOfSources(t, sources, KeyOf, make);
    assert (set s | s in sources :: make(s)) == UnmatchedInputs(ins, outs, checked.value);
  }

  /** An input paired with the output it spends. */
  type Match = (Keyed<CoinObject>, Keyed<UnprovenOutput>)

  function MatchKey(p: Match): string {
    KeyOf(p.0)
  }

  function MatchTransient(p: Match): UnprovenTransient {
    NewTransient(p.0.item, p.1.item)
  }

  ghost function Matches(ins: seq<Keyed<CoinObject>>, outputs: seq<Keyed<UnprovenOutput>>): set<Match> {
    set s, o | s in ins && o in outputs && KeyOf(s) == KeyOf(o) :: (s, o)
  }

  /** The output Map holds, for each key of the outputs, the one output with that key. */
  ghost predicate Backed(outs: map<string, UnprovenOutput>, outputs: seq<Keyed<UnprovenOutput>>) {
    && (forall k :: k in outs ==> exists o :: o in outputs && KeyOf(o) == k && outs[k] == o.item)
    && (forall o :: o in outputs ==> KeyOf(o) in outs && outs[KeyOf(o)] == o.item)
  }

  lemma BackedByOutputs(outputs: seq<Keyed<UnprovenOutput>>)
    requires OutputTable(outputs).Ok? && NoRepeats(Keys(outputs))
    ensures Backed(AsMap(OutputTable(outputs).value), outputs)
  {
    var outs := AsMap(OutputTable(outputs).value);
    OutputTableMeaning(outputs);
    OneIndexPerKey(outputs);
    KeysAt(outputs);
    forall o | o in outputs ensures KeyOf(o) in outs && outs[KeyOf(o)] == o.item {
      var i :| 0 <= i < |outputs| && outputs[i] == o;
      assert Keys(outputs)[i] in Keys(outputs);
    }
    forall k | k in outs ensures exists o :: o in outputs && KeyOf(o) == k && outs[k] == o.item {
      var i :| 0 <= i < |outputs| && KeyOf(outputs[i]) == k && outs[k] == outputs[i].item;
      assert outputs[i] in outputs;
    }
  }

  function OutputItem(s: Keyed<UnprovenOutput>): UnprovenOutput {
    s.item
  }

  ghost function Kept(outputs: seq<Keyed<UnprovenOutput>>, keys: seq<string>): set<Keyed<UnprovenOutput>> {
    set s | s in outputs && KeyOf(s) !in keys
  }

  ghost function KeptItems(outputs: seq<Keyed<UnprovenOutput>>, keys: seq<string>): set<UnprovenOutput> {
    set s | s in Kept(outputs, keys) :: OutputItem(s)
  }

  ghost function MatchItems(ins: seq<Keyed<CoinObject>>, outputs: seq<Keyed<UnprovenOutput>>): set<UnprovenTransient> {
    set p | p in Matches(ins, outputs) :: MatchTransient(p)
  }

  lemma OutputItems(t: Table<UnprovenOutput>, outs: map<string, UnprovenOutput>, keys: seq<string>,
                    outputs: seq<Keyed<UnprovenOutput>>)
    requires Valid(t) && AsMap(t) == Unspent(outs, keys)
    requires Backed(outs, outputs) && KeyedByItem(outputs)
    ensures multiset(Items(t)) == multiset(KeptItems(outputs, keys))
  {
    var m, sources := AsMap(t), Kept(outputs, keys);
    forall k | k in m ensures exists s :: s in sources && Holds(m, k, s, KeyOf, OutputItem) {
      var o :| o in outputs && KeyOf(o) == k && outs[k] == o.item;
      assert o in sources && Holds(m, k, o, KeyOf, OutputItem);
    }
    forall r, s | r in sources && s in sources && OutputItem(r) == OutputItem(s) ensures KeyOf(r) == KeyOf(s) {
      var i :| 0 <= i < |outputs| && outputs[i] == r;
      var j :| 0 <= j < |outputs| && outputs[j] == s;
    }
    ItemsOfSources(t, sources, KeyOf, OutputItem);
  }

  lemma MatchesHeld(m: map<string, UnprovenTransient>, outs: map<string, UnprovenOutput>,
                    ins: seq<Keyed<CoinObject>>, outputs: seq<Keyed<UnprovenOutput>>)
    requires forall k :: k in m <==> k in outs && k in Keys(ins)
    requires forall k :: k in m ==> TransientItem(m[k], k, ins, outs[k])
    requires Backed(outs, outputs) && NoRepeats(Keys(ins))
    ensures forall k :: k in m ==> exists p :: p in Matches(ins, outputs) && Holds(m, k, p, MatchKey, MatchTransient)
    ensures forall p :: p in Matches(ins, outputs) ==> Holds(m, MatchKey(p), p, MatchKey, MatchTransient)
  {
    KeysAt(ins);
    OneIndexPerKey(ins);
    forall k | k in m ensures exists p :: p in Matches(ins, outputs) && Holds(m, k, p, MatchKey, MatchTransient) {
      var i :| 0 <= i < |ins| && KeyOf(ins[i]) == k && m[k] == NewTransient(ins[i].item, outs[k]);
      var o :| o in outputs && KeyOf(o) == k && outs[k] == o.item;
      assert (ins[i], o) in Matches(ins, outputs) && Holds(m, k, (ins[i], o), MatchKey, MatchTransient);
    }
    forall p | p in Matches(ins, outputs) ensures Holds(m, MatchKey(p), p, MatchKey, MatchTransient) {
      var i :| 0 <= i < |ins| && ins[i] == p.0;
      assert Keys(ins)[i] in Keys(ins);
      assert TransientItem(m[MatchKey(p)], MatchKey(p), ins, outs[MatchKey(p)]);
    }
  }

  lemma TransientItems(m: map<string, UnprovenTransient>, t: Table<UnprovenTransient>, outs: map<string, UnprovenOutput>,
                       ins: seq<Keyed<CoinObject>>, outputs: seq<Keyed<UnprovenOutput>>)
    requires Valid(t) && AsMap(t) == m
    requires forall k :: k in m <==> k in outs && k in Keys(ins)
    requires forall k :: k in m ==> TransientItem(m[k], k, ins, outs[k])
    requires Backed(outs, outputs) && NoRepeats(Keys(ins)) && KeyedByItem(ins)
    ensures multiset(Items(t)) == multiset(MatchItems(ins, outputs))
  {
    MatchesHeld(m, outs, ins, outputs);
    forall p, q | p in Matches(ins, outputs) && q in Matches(ins, outputs) && MatchTransient(p) == MatchTransient(q)
      ensures MatchKey(p) == MatchKey(q)
    {
      var i :| 0 <= i < |ins| && ins[i] == p.0;
      var j :| 0 <= j < |ins| && ins[j] == q.0;
    }
    ItemsOfSources(t, Matches(ins, outputs), MatchKey, MatchTransient);
  }

  // What is thrown

  lemma {:induction false} SplitError(outs: Table<UnprovenOutput>, inputs: seq<Keyed<CoinObject>>, checked: Result<Chain, OfferError>)
    requires AllSerialised(inputs) && Split(outs, inputs, checked).Err?
    ensures checked.Err? && Split(outs, inputs, checked) == Err(checked.error)
  {
    var front := inputs[..|inputs| - 1];
    assert forall i :: 0 <= i < |front| ==> front[i] == inputs[i];
    if Split(outs, front, checked).Err? {
      SplitError(outs, front, checked);
    }
  }

  /** On typed coins the error is that no chain state was given, or that the address is none. */
  lemma FailureMeaning(inputs: seq<CoinObject>, outputs: seq<OutputData>, encryptionPublicKey: string, chain: Option<Chain>)
    requires Typed(inputs, outputs) && StateToOffer(inputs, outputs, encryptionPublicKey, chain).Err?
    ensures var error := StateToOffer(inputs, outputs, encryptionPublicKey, chain).error;
      match chain
      case None => error == NoChainState
      case Some(c) => error.BadAddress? && HexUtils.AssertIsContractAddress(c.contractAddress) == Err(error.hexError)
  {
    var ins, keyed := KeyedInputs(inputs), KeyedOutputs(outputs, encryptionPublicKey);
    TypedKeys(inputs, outputs, encryptionPublicKey);
    KeyedOfferExists(ins, keyed, CheckedChain(chain));
    SplitError(OutputTable(keyed).value, ins, CheckedChain(chain));
  }

  /** The first output whose coin does not serialise is reported, before anything is said of the inputs. */
  lemma {:induction false} OutputTableError<V>(outputs: seq<Keyed<V>>, k: nat)
    requires k < |outputs| && outputs[k].key.Err? && forall i :: 0 <= i < k ==> outputs[i].key.Ok?
    ensures OutputTable(outputs) == Err(Coin(outputs[k].key.error))
  {
    var front := outputs[..|outputs| - 1];
    assert forall i :: 0 <= i < |front| ==> front[i] == outputs[i];
    if k < |front| {
      OutputTableError(front, k);
    } else {
      OutputTableExists(front);
    }
  }

  lemma BadOutputReported(inputs: seq<CoinObject>, outputs: seq<OutputData>, encryptionPublicKey: string, chain: Option<Chain>, k: nat)
    requires k < |outputs| && Serialize(outputs[k].coinInfo).Err? && forall i :: 0 <= i < k ==> Serialize(outputs[i].coinInfo).Ok?
    ensures StateToOffer(inputs, outputs, encryptionPublicKey, chain) == Err(Coin(Serialize(outputs[k].coinInfo).error))
  {
    OutputTableError(KeyedOutputs(outputs, encryptionPublicKey), k);
  }

  /** An input whose coin does not serialise is reported when its turn comes. */
  lemma BadInputReported(inputs: seq<CoinObject>, outputs: seq<OutputData>, encryptionPublicKey: string, chain: Option<Chain>, k: nat)
    requires k < |inputs| && SerializeQualified(inputs[k]).Err?
    requires StateToOffer(inputs[..k], outputs, encryptionPublicKey, chain).Ok?
    ensures StateToOffer(inputs, outputs, encryptionPublicKey, chain) == Err(Coin(SerializeQualified(inputs[k]).error))
  {
    var ins, table := KeyedInputs(inputs), OutputTable(KeyedOutputs(outputs, encryptionPublicKey)).value;
    assert ins[..k] == KeyedInputs(inputs[..k]);
    SplitStep(table, ins, CheckedChain(chain), k, Split(table, ins[..k], CheckedChain(chain)).value);
  }

  /** What an offer fails for after some of its inputs is what it fails for after all of them. */
  lemma FirstErrorStays(inputs: seq<CoinObject>, outputs: seq<OutputData>, encryptionPublicKey: string, chain: Option<Chain>, n: nat)
    requires n <= |inputs| && Typed(inputs[..n], outputs)
    requires StateToOffer(inputs[..n], outputs, encryptionPublicKey, chain).Err?
    ensures StateToOffer(inputs, outputs, encryptionPublicKey, chain) == StateToOffer(inputs[..n], outputs, encryptionPublicKey, chain)
  {
    var ins, keyed := KeyedInputs(inputs), KeyedOutputs(outputs, encryptionPublicKey);
    assert ins[..n] == KeyedInputs(inputs[..n]);
    TypedKeys(inputs[..n], outputs, encryptionPublicKey);
    KeyedOfferExists(ins[..n], keyed, CheckedChain(chain));
    SplitFailsEarly(OutputTable(keyed).value, ins, CheckedChain(chain), n);
  }

  // The three parts of a run, stated on its coins

  /** The inputs: spent coins that were not created here, from the contract, proved against its chain state. */
  ghost function InputPart(inputs: seq<CoinObject>, outputs: seq<OutputData>, chain: Option<Chain>): set<UnprovenInput> {
    if chain.None? then {}
    else
      set q | q in inputs && !CreatedHere(DropIndex(q), outputs) ::
        UnprovenInput(q, 0, chain.value.contractAddress, chain.value.chainState)
  }

  /** A coin for its recipient: a user, who is sent it encrypted, or a contract. */
  ghost function Owned(o: OutputData, encryptionPublicKey: string): (u: UnprovenOutput)
    ensures u.coin == o.coinInfo && u.segment == 0
    ensures o.recipient.isLeft ==> u == UserOwned(o.coinInfo, 0, o.recipient.left, encryptionPublicKey)
    ensures !o.recipient.isLeft ==> u == ContractOwned(o.coinInfo, 0, o.recipient.right)
  {
    match o.recipient
    case Recipient(true, user, _) => UserOwned(o.coinInfo, 0, user, encryptionPublicKey)
    case Recipient(false, _, contract) => ContractOwned(o.coinInfo, 0, contract)
  }

  /** The outputs: created coins that are not spent here, each for its recipient. */
  ghost function OutputPart(inputs: seq<CoinObject>, outputs: seq<OutputData>, encryptionPublicKey: string): set<UnprovenOutput> {
    set o | o in outputs && !SpentHere(o.coinInfo, inputs) :: Owned(o, encryptionPublicKey)
  }

  /** The transients: coins that are both, each with the output it spends. */
  ghost function TransientPart(inputs: seq<CoinObject>, outputs: seq<OutputData>, encryptionPublicKey: string): set<UnprovenTransient> {
    set q, o | q in inputs && o in outputs && DropIndex(q) == o.coinInfo :: UnprovenTransient(q, 0, Owned(o, encryptionPublicKey))
  }

  /** The keyed input of a position, by its key: what the coin-level statements need to know about it. */
  lemma KeyedInputAt(inputs: seq<CoinObject>, outputs: seq<OutputData>, encryptionPublicKey: string, i: nat)
    requires Typed(inputs, outputs) && i < |inputs|
    ensures |KeyedInputs(inputs)| == |inputs| && KeyedInputs(inputs)[i].item == inputs[i]
    ensures KeyOf(KeyedInputs(inputs)[i]) in Keys(KeyedOutputs(outputs, encryptionPublicKey))
            <==> CreatedHere(DropIndex(inputs[i]), outputs)
  {
    KeysAt(KeyedInputs(inputs));
    InputCreatedIff(inputs, outputs, encryptionPublicKey, i);
  }

  lemma KeyedOutputAt(inputs: seq<CoinObject>, outputs: seq<OutputData>, encryptionPublicKey: string, i: nat)
    requires Typed(inputs, outputs) && i < |outputs|
    ensures var keyed := KeyedOutputs(outputs, encryptionPublicKey);
      && |keyed| == |outputs| && keyed[i].item == NewOutput(outputs[i], encryptionPublicKey)
      && (KeyOf(keyed[i]) in Keys(KeyedInputs(inputs)) <==> SpentHere(outputs[i].coinInfo, inputs))
  {
    InputKeyIff(inputs, outputs[i].coinInfo);
  }

  lemma KeyedMatch(inputs: seq<CoinObject>, outputs: seq<OutputData>, encryptionPublicKey: string, i: nat, j: nat)
    requires Typed(inputs, outputs) && i < |inputs| && j < |outputs|
    ensures |KeyedInputs(inputs)| == |inputs| && |KeyedOutputs(outputs, encryptionPublicKey)| == |outputs|
    ensures KeyOf(KeyedInputs(inputs)[i]) == KeyOf(KeyedOutputs(outputs, encryptionPublicKey)[j])
            <==> DropIndex(inputs[i]) == outputs[j].coinInfo
  {
    SameKeyIff(DropIndex(inputs[i]), outputs[j].coinInfo);
  }

  lemma InputPartMeaning(inputs: seq<CoinObject>, outputs: seq<OutputData>, encryptionPublicKey: string,
                         chain: Option<Chain>, outs: map<string, UnprovenOutput>)
    requires Typed(inputs, outputs) && chain.Some?
    requires forall k :: k in outs <==> k in Keys(KeyedOutputs(outputs, encryptionPublicKey))
    ensures InputPart(inputs, outputs, chain) == UnmatchedInputs(KeyedInputs(inputs), outs, chain.value)
  {
    var ins := KeyedInputs(inputs);
    var part := UnmatchedInputs(ins, outs, chain.value);
    forall u | u in part ensures u in InputPart(inputs, outputs, chain) {
      var s :| s in Sources(ins, outs, false) && u == NewInput(s.item, chain.value);
      var i :| 0 <= i < |ins| && ins[i] == s;
      KeyedInputAt(inputs, outputs, encryptionPublicKey, i);
      assert inputs[i] in inputs;
    }
    forall u | u in InputPart(inputs, outputs, chain) ensures u in part {
      var q :| q in inputs && !CreatedHere(DropIndex(q), outputs) && u == NewInput(q, chain.value);
      var i :| 0 <= i < |inputs| && inputs[i] == q;
      KeyedInputAt(inputs, outputs, encryptionPublicKey, i);
      assert ins[i] in Sources(ins, outs, false);
    }
  }

  lemma OutputPartMeaning(inputs: seq<CoinObject>, outputs: seq<OutputData>, encryptionPublicKey: string)
    requires Typed(inputs, outputs)
    ensures OutputPart(inputs, outputs, encryptionPublicKey)
            == KeptItems(KeyedOutputs(outputs, encryptionPublicKey), Keys(KeyedInputs(inputs)))
  {
    var keyed := KeyedOutputs(outputs, encryptionPublicKey);
    var kept := Kept(keyed, Keys(KeyedInputs(inputs)));
    forall u | u in OutputPart(inputs, outputs, encryptionPublicKey) ensures exists s :: s in kept && u == OutputItem(s) {
      var o :| o in outputs && !SpentHere(o.coinInfo, inputs) && u == NewOutput(o, encryptionPublicKey);
      var i :| 0 <= i < |outputs| && outputs[i] == o;
      KeyedOutputAt(inputs, outputs, encryptionPublicKey, i);
      assert keyed[i] in kept && u == OutputItem(keyed[i]);
    }
    forall s | s in kept ensures OutputItem(s) in OutputPart(inputs, outputs, encryptionPublicKey) {
      var i :| 0 <= i < |keyed| && keyed[i] == s;
      KeyedOutputAt(inputs, outputs, encryptionPublicKey, i);
      assert outputs[i] in outputs;
    }
  }

  lemma TransientPartMeaning(inputs: seq<CoinObject>, outputs: seq<OutputData>, encryptionPublicKey: string)
    requires Typed(inputs, outputs)
    ensures TransientPart(inputs, outputs, encryptionPublicKey)
            == MatchItems(KeyedInputs(inputs), KeyedOutputs(outputs, encryptionPublicKey))
  {
    forall u | u in TransientPart(inputs, outputs, encryptionPublicKey)
      ensures u in MatchItems(KeyedInputs(inputs), KeyedOutputs(outputs, encryptionPublicKey))
    {
      PartIsMatched(inputs, outputs, encryptionPublicKey, u);
    }
    forall u | u in MatchItems(KeyedInputs(inputs), KeyedOutputs(outputs, encryptionPublicKey))
      ensures u in TransientPart(inputs, outputs, encryptionPublicKey)
    {
      MatchedIsPart(inputs, outputs, encryptionPublicKey, u);
    }
  }

  lemma PartIsMatched(inputs: seq<CoinObject>, outputs: seq<OutputData>, encryptionPublicKey: string, u: UnprovenTransient)
    requires Typed(inputs, outputs) && u in TransientPart(inputs, outputs, encryptionPublicKey)
    ensures u in MatchItems(KeyedInputs(inputs), KeyedOutputs(outputs, encryptionPublicKey))
  {
    var q, o :| q in inputs && o in outputs && DropIndex(q) == o.coinInfo && u == UnprovenTransient(q, 0, Owned(o, encryptionPublicKey));
    var i :| 0 <= i < |inputs| && inputs[i] == q;
    var j :| 0 <= j < |outputs| && outputs[j] == o;
    PartInMatches(inputs, outputs, encryptionPublicKey, i, j);
  }

  lemma MatchedIsPart(inputs: seq<CoinObject>, outputs: seq<OutputData>, encryptionPublicKey: string, u: UnprovenTransient)
    requires Typed(inputs, outputs) && u in MatchItems(KeyedInputs(inputs), KeyedOutputs(outputs, encryptionPublicKey))
    ensures u in TransientPart(inputs, outputs, encryptionPublicKey)
  {
    var ins, outs := KeyedInputs(inputs), KeyedOutputs(outputs, encryptionPublicKey);
    var p :| p in Matches(ins, outs) && u == MatchTransient(p);
    var i :| 0 <= i < |ins| && ins[i] == p.0;
    var j :| 0 <= j < |outs| && outs[j] == p.1;
    MatchInPart(inputs, outputs, encryptionPublicKey, i, j);
  }

  lemma PartInMatches(inputs: seq<CoinObject>, outputs: seq<OutputData>, encryptionPublicKey: string, i: nat, j: nat)
    requires Typed(inputs, outputs) && i < |inputs| && j < |outputs| && DropIndex(inputs[i]) == outputs[j].coinInfo
    ensures NewTransient(inputs[i], NewOutput(outputs[j], encryptionPublicKey))
            in MatchItems(KeyedInputs(inputs), KeyedOutputs(outputs, encryptionPublicKey))
  {
    var ins, outs := KeyedInputs(inputs), KeyedOutputs(outputs, encryptionPublicKey);
    KeyedMatch(inputs, outputs, encryptionPublicKey, i, j);
    assert ins[i] in ins && outs[j] in outs;
    assert (ins[i], outs[j]) in Matches(ins, outs);
  }

  lemma MatchInPart(inputs: seq<CoinObject>, outputs: seq<OutputData>, encryptionPublicKey: string, i: nat, j: nat)
    requires Typed(inputs, outputs) && i < |KeyedInputs(inputs)| && j < |KeyedOutputs(outputs, encryptionPublicKey)|
    requires KeyOf(KeyedInputs(inputs)[i]) == KeyOf(KeyedOutputs(outputs, encryptionPublicKey)[j])
    ensures MatchTransient((KeyedInputs(inputs)[i], KeyedOutputs(outputs, encryptionPublicKey)[j]))
            in TransientPart(inputs, outputs, encryptionPublicKey)
  {
    KeyedMatch(inputs, outputs, encryptionPublicKey, i, j);
    assert inputs[i] in inputs && outputs[j] in outputs;
  }

  lemma NoInputsWithoutChain(t: Tables, outs: map<string, UnprovenOutput>, ins: seq<Keyed<CoinObject>>, checked: Result<Chain, OfferError>)
    requires checked.Err? && Built(t, outs, ins, checked) && Valid(t.inputs)
    requires forall k :: k in AsMap(t.inputs) <==> k in Keys(ins) && k !in outs
    ensures t.inputs == [] && Sources(ins, outs, false) == {}
  {
    assert forall k :: k in AsMap(t.inputs) ==> InputItem(AsMap(t.inputs)[k], k, ins, checked);
    if t.inputs != [] {
      SlotInMap(t.inputs, 0);
    }
    KeysAt(ins);
    forall s | s in ins ensures KeyOf(s) in outs {
      var i :| 0 <= i < |ins| && ins[i] == s;
      assert Keys(ins)[i] in Keys(ins);
    }
  }

  ghost predicate Partitioned(offer: Offer, outs: map<string, UnprovenOutput>, ins: seq<Keyed<CoinObject>>,
                              outputs: seq<Keyed<UnprovenOutput>>, checked: Result<Chain, OfferError>)
  {
    && (if checked.Ok? then offer.inputs == multiset(UnmatchedInputs(ins, outs, checked.value))
        else offer.inputs == multiset{} && Sources(ins, outs, false) == {})
    && offer.outputs == multiset(KeptItems(outputs, Keys(ins)))
    && offer.transients == multiset(MatchItems(ins, outputs))
  }

  lemma PartitionedInputs(t: Tables, outs: map<string, UnprovenOutput>, ins: seq<Keyed<CoinObject>>, checked: Result<Chain, OfferError>)
    requires Placed(t, outs, Keys(ins)) && Built(t, outs, ins, checked) && NoRepeats(Keys(ins)) && KeyedByItem(ins)
    ensures checked.Ok? ==> multiset(Items(t.inputs)) == multiset(UnmatchedInputs(ins, outs, checked.value))
    ensures checked.Err? ==> multiset(Items(t.inputs)) == multiset{} && Sources(ins, outs, false) == {}
  {
    PlacedDistinct(t, outs, Keys(ins));
    if checked.Ok? {
      InputItems(AsMap(t.inputs), t.inputs, outs, ins, checked);
    } else {
      NoInputsWithoutChain(t, outs, ins, checked);
    }
  }

  lemma PartitionedTransients(t: Tables, outs: map<string, UnprovenOutput>, ins: seq<Keyed<CoinObject>>,
                              outputs: seq<Keyed<UnprovenOutput>>, checked: Result<Chain, OfferError>)
    requires Placed(t, outs, Keys(ins)) && Built(t, outs, ins, checked) && Backed(outs, outputs)
    requires NoRepeats(Keys(ins)) && KeyedByItem(ins)
    ensures multiset(Items(t.transients)) == multiset(MatchItems(ins, outputs))
  {
    TransientItems(AsMap(t.transients), t.transients, outs, ins, outputs);
  }

  lemma PartitionedOutputs(t: Tables, outs: map<string, UnprovenOutput>, keys: seq<string>, outputs: seq<Keyed<UnprovenOutput>>)
    requires Placed(t, outs, keys) && Backed(outs, outputs) && KeyedByItem(outputs)
    ensures multiset(Items(t.outputs)) == multiset(KeptItems(outputs, keys))
  {
    OutputItems(t.outputs, outs, keys, outputs);
  }

  lemma TablesPartition(t: Tables, offer: Offer, outs: map<string, UnprovenOutput>, ins: seq<Keyed<CoinObject>>,
                        outputs: seq<Keyed<UnprovenOutput>>, checked: Result<Chain, OfferError>)
    requires Placed(t, outs, Keys(ins)) && Built(t, outs, ins, checked) && Backed(outs, outputs)
    requires NoRepeats(Keys(ins)) && KeyedByItem(ins) && KeyedByItem(outputs)
    requires offer.inputs == multiset(Items(t.inputs)) && offer.outputs == multiset(Items(t.outputs))
    requires offer.transients == multiset(Items(t.transients))
    ensures Partitioned(offer, outs, ins, outputs, checked)
  {
    PartitionedInputs(t, outs, ins, checked);
    PartitionedOutputs(t, outs, Keys(ins), outputs);
    PartitionedTransients(t, outs, ins, outputs, checked);
  }

  lemma KeyedPartition(ins: seq<Keyed<CoinObject>>, outputs: seq<Keyed<UnprovenOutput>>, checked: Result<Chain, OfferError>)
    requires OutputTable(outputs).Ok? && Split(OutputTable(outputs).value, ins, checked).Ok?
    requires OfferOf(Split(OutputTable(outputs).value, ins, checked).value).Ok?
    requires NoRepeats(Keys(ins)) && NoRepeats(Keys(outputs)) && KeyedByItem(ins) && KeyedByItem(outputs)
    ensures forall k :: k in AsMap(OutputTable(outputs).value) <==> k in Keys(outputs)
    ensures Partitioned(OfferOf(Split(OutputTable(outputs).value, ins, checked).value).value,
                        AsMap(OutputTable(outputs).value), ins, outputs, checked)
  {
    var table := OutputTable(outputs).value;
    OutputTableMeaning(outputs);
    BackedByOutputs(outputs);
    SplitMembership(table, ins, checked);
    SplitBuilds(table, ins, checked);
    var t := Split(table, ins, checked).value;
    OfferItems(t);
    TablesPartition(t, OfferOf(t).value, AsMap(table), ins, outputs, checked);
  }

  lemma KeyedSeqsByItem(inputs: seq<CoinObject>, outputs: seq<OutputData>, encryptionPublicKey: string)
    ensures KeyedByItem(KeyedInputs(inputs)) && KeyedByItem(KeyedOutputs(outputs, encryptionPublicKey))
  {
  }

  lemma AllCreatedNoInputPart(inputs: seq<CoinObject>, outputs: seq<OutputData>, encryptionPublicKey: string,
                              chain: Option<Chain>, outs: map<string, UnprovenOutput>)
    requires Typed(inputs, outputs) && Sources(KeyedInputs(inputs), outs, false) == {}
    requires forall k :: k in outs <==> k in Keys(KeyedOutputs(outputs, encryptionPublicKey))
    ensures InputPart(inputs, outputs, chain) == {}
  {
    if chain.Some? {
      InputPartMeaning(inputs, outputs, encryptionPublicKey, chain, outs);
    }
  }

  /** An output of the run: as an output of the offer if it is not spent here, else inside the transients that spend it. */
  lemma OutputsPlaced(inputs: seq<CoinObject>, outputs: seq<OutputData>, encryptionPublicKey: string, chain: Option<Chain>, o: OutputData)
    requires Typed(inputs, outputs) && DistinctInputs(inputs) && DistinctOutputs(outputs) && o in outputs
    requires StateToOffer(inputs, outputs, encryptionPublicKey, chain).Ok?
    ensures var offer := StateToOffer(inputs, outputs, encryptionPublicKey, chain).value;
      var user := UserOwned(o.coinInfo, 0, o.recipient.left, encryptionPublicKey);
      var contract := ContractOwned(o.coinInfo, 0, o.recipient.right);
      && (!SpentHere(o.coinInfo, inputs) ==> (if o.recipient.isLeft then user else contract) in offer.outputs)
      && forall q :: q in inputs && DropIndex(q) == o.coinInfo ==>
           UnprovenTransient(q, 0, if o.recipient.isLeft then user else contract) in offer.transients
  {
    OfferPartition(inputs, outputs, encryptionPublicKey, chain);
    assert !SpentHere(o.coinInfo, inputs) ==> Owned(o, encryptionPublicKey) in OutputPart(inputs, outputs, encryptionPublicKey);
    forall q | q in inputs && DropIndex(q) == o.coinInfo
      ensures UnprovenTransient(q, 0, Owned(o, encryptionPublicKey)) in TransientPart(inputs, outputs, encryptionPublicKey)
    {
    }
  }

  /**
    With distinct inputs and distinct outputs: inputs are the spent coins that were not created here, outputs the
    created coins that are not spent here, and transients the coins that are both.
   */
  lemma Partition(inputs: seq<CoinObject>, outputs: seq<OutputData>, encryptionPublicKey: string, chain: Option<Chain>)
    requires Typed(inputs, outputs) && DistinctInputs(inputs) && DistinctOutputs(outputs)
    ensures var r := StateToOffer(inputs, outputs, encryptionPublicKey, chain);
      r.Ok? ==>
        && r.value.inputs == multiset(InputPart(inputs, outputs, chain))
        && r.value.outputs == multiset(OutputPart(inputs, outputs, encryptionPublicKey))
        && r.value.transients == multiset(TransientPart(inputs, outputs, encryptionPublicKey))
  {
    if StateToOffer(inputs, outputs, encryptionPublicKey, chain).Ok? {
      OfferPartition(inputs, outputs, encryptionPublicKey, chain);
    }
  }

  lemma OfferPartition(inputs: seq<CoinObject>, outputs: seq<OutputData>, encryptionPublicKey: string, chain: Option<Chain>)
    requires Typed(inputs, outputs) && DistinctInputs(inputs) && DistinctOutputs(outputs)
    requires StateToOffer(inputs, outputs, encryptionPublicKey, chain).Ok?
    ensures var offer := StateToOffer(inputs, outputs, encryptionPublicKey, chain).value;
      && offer.inputs == multiset(InputPart(inputs, outputs, chain))
      && offer.outputs == multiset(OutputPart(inputs, outputs, encryptionPublicKey))
      && offer.transients == multiset(TransientPart(inputs, outputs, encryptionPublicKey))
  {
    var ins, keyed := KeyedInputs(inputs), KeyedOutputs(outputs, encryptionPublicKey);
    var checked := CheckedChain(chain);
    InputKeysDistinct(inputs);
    OutputKeysDistinct(outputs, encryptionPublicKey);
    KeyedSeqsByItem(inputs, outputs, encryptionPublicKey);
    KeyedPartition(ins, keyed, checked);
    var outs := AsMap(OutputTable(keyed).value);
    OutputPartMeaning(inputs, outputs, encryptionPublicKey);
    TransientPartMeaning(inputs, outputs, encryptionPublicKey);
    if checked.Ok? {
      InputPartMeaning(inputs, outputs, encryptionPublicKey, chain, outs);
    } else {
      AllCreatedNoInputPart(inputs, outputs, encryptionPublicKey, chain, outs);
    }
  }

  // Order

  lemma SameElements<T>(s: seq<T>, t: seq<T>)
    requires multiset(s) == multiset(t)
    ensures forall x :: x in s <==> x in t
  {
    assert forall x :: x in s <==> x in multiset(s);
    assert forall x :: x in t <==> x in multiset(t);
  }

  lemma TypedPermutation(inputs: seq<CoinObject>, outputs: seq<OutputData>, inputs': seq<CoinObject>, outputs': seq<OutputData>)
    requires Typed(inputs, outputs) && multiset(inputs) == multiset(inputs') && multiset(outputs) == multiset(outputs')
    ensures Typed(inputs', outputs')
    ensures forall c :: CreatedHere(c, outputs) <==> CreatedHere(c, outputs')
    ensures forall c :: SpentHere(c, inputs) <==> SpentHere(c, inputs')
  {
    SameElements(inputs, inputs');
    SameElements(outputs, outputs');
    forall i | 0 <= i < |inputs'| ensures IsQualifiedCoin(inputs'[i]) {
      assert inputs'[i] in inputs;
    }
    forall i | 0 <= i < |outputs'| ensures IsCoin(outputs'[i].coinInfo) {
      assert outputs'[i] in outputs;
    }
    forall c ensures CreatedHere(c, outputs) <==> CreatedHere(c, outputs') {
      assert CreatedHere(c, outputs) <==> exists o :: o in outputs && o.coinInfo == c;
      assert CreatedHere(c, outputs') <==> exists o :: o in outputs' && o.coinInfo == c;
    }
    forall c ensures SpentHere(c, inputs) <==> SpentHere(c, inputs') {
      assert SpentHere(c, inputs) <==> exists q :: q in inputs && DropIndex(q) == c;
      assert SpentHere(c, inputs') <==> exists q :: q in inputs' && DropIndex(q) == c;
    }
  }

  lemma PermutationNoRepeats<T>(s: seq<T>, t: seq<T>)
    requires multiset(s) == multiset(t) && NoRepeats(s)
    ensures NoRepeats(t)
  {
    forall i, j | 0 <= i < j < |t| ensures t[i] != t[j] {
      CountedOnce(s, t[i]);
      assert t == t[..i] + [t[i]] + t[i + 1..j] + [t[j]] + t[j + 1..];
      assert multiset(t) == multiset(t[..i]) + multiset{t[i]} + multiset(t[i + 1..j]) + multiset{t[j]} + multiset(t[j + 1..]);
    }
  }

  lemma DistinctPermutation(inputs: seq<CoinObject>, outputs: seq<OutputData>, inputs': seq<CoinObject>, outputs': seq<OutputData>)
    requires multiset(inputs) == multiset(inputs') && multiset(outputs) == multiset(outputs')
    requires DistinctInputs(inputs) && DistinctOutputs(outputs)
    ensures DistinctInputs(inputs') && DistinctOutputs(outputs')
  {
    SameElements(inputs, inputs');
    SameElements(outputs, outputs');
    assert NoRepeats(inputs) && NoRepeats(outputs);
    PermutationNoRepeats(inputs, inputs');
    PermutationNoRepeats(outputs, outputs');
    forall i, j | 0 <= i < j < |inputs'| ensures DropIndex(inputs'[i]) != DropIndex(inputs'[j]) {
      assert inputs'[i] in inputs && inputs'[j] in inputs;
      var a :| 0 <= a < |inputs| && inputs[a] == inputs'[i];
      var b :| 0 <= b < |inputs| && inputs[b] == inputs'[j];
    }
    forall i, j | 0 <= i < j < |outputs'| ensures outputs'[i].coinInfo != outputs'[j].coinInfo {
      assert outputs'[i] in outputs && outputs'[j] in outputs;
      var a :| 0 <= a < |outputs| && outputs[a] == outputs'[i];
      var b :| 0 <= b < |outputs| && outputs[b] == outputs'[j];
    }
  }

  lemma SameParts(inputs: seq<CoinObject>, outputs: seq<OutputData>, inputs': seq<CoinObject>, outputs': seq<OutputData>,
                  encryptionPublicKey: string, chain: Option<Chain>)
    requires Typed(inputs, outputs) && multiset(inputs) == multiset(inputs') && multiset(outputs) == multiset(outputs')
    ensures InputPart(inputs, outputs, chain) == InputPart(inputs', outputs', chain)
    ensures OutputPart(inputs, outputs, encryptionPublicKey) == OutputPart(inputs', outputs', encryptionPublicKey)
    ensures TransientPart(inputs, outputs, encryptionPublicKey) == TransientPart(inputs', outputs', encryptionPublicKey)
  {
    SameElements(inputs, inputs');
    SameElements(outputs, outputs');
    TypedPermutation(inputs, outputs, inputs', outputs');
  }

  /** Permuting the inputs and the outputs of a run of distinct coins changes neither success nor the offer. */
  lemma OrderDoesNotMatter(inputs: seq<CoinObject>, outputs: seq<OutputData>, inputs': seq<CoinObject>, outputs': seq<OutputData>,
                           encryptionPublicKey: string, chain: Option<Chain>, tokenType: string)
    requires Typed(inputs, outputs) && DistinctInputs(inputs) && DistinctOutputs(outputs)
    requires multiset(inputs) == multiset(inputs') && multiset(outputs) == multiset(outputs')
    ensures var a := StateToOffer(inputs, outputs, encryptionPublicKey, chain);
      var b := StateToOffer(inputs', outputs', encryptionPublicKey, chain);
      && (a.Ok? <==> b.Ok?)
      && (a.Ok? ==> a.value.inputs == b.value.inputs && a.value.outputs == b.value.outputs
                    && a.value.transients == b.value.transients && a.value.Delta(tokenType) == b.value.Delta(tokenType))
  {
    TypedPermutation(inputs, outputs, inputs', outputs');
    DistinctPermutation(inputs, outputs, inputs', outputs');
    SucceedsIff(inputs, outputs, encryptionPublicKey, chain);
    SucceedsIff(inputs', outputs', encryptionPublicKey, chain);
    AllCreatedPermutation(inputs, inputs', outputs, outputs');
    if StateToOffer(inputs, outputs, encryptionPublicKey, chain).Ok? {
      Partition(inputs, outputs, encryptionPublicKey, chain);
      Partition(inputs', outputs', encryptionPublicKey, chain);
      SameParts(inputs, outputs, inputs', outputs', encryptionPublicKey, chain);
      Conservation(inputs, outputs, encryptionPublicKey, chain, tokenType);
      Conservation(inputs', outputs', encryptionPublicKey, chain, tokenType);
      SumByPermutation(inputs, inputs', (q: CoinObject) => ValueIn(DropIndex(q), tokenType));
      SumByPermutation(outputs, outputs', (o: OutputData) => ValueIn(o.coinInfo, tokenType));
    }
  }

  lemma AllCreatedPermutation(inputs: seq<CoinObject>, inputs': seq<CoinObject>, outputs: seq<OutputData>, outputs': seq<OutputData>)
    requires multiset(inputs) == multiset(inputs')
    requires forall c :: CreatedHere(c, outputs) <==> CreatedHere(c, outputs')
    ensures (forall i :: 0 <= i < |inputs| ==> CreatedHere(DropIndex(inputs[i]), outputs))
            <==> forall i :: 0 <= i < |inputs'| ==> CreatedHere(DropIndex(inputs'[i]), outputs')
  {
    SameElements(inputs, inputs');
    assert (forall i :: 0 <= i < |inputs| ==> CreatedHere(DropIndex(inputs[i]), outputs))
           <==> forall q :: q in inputs ==> CreatedHere(DropIndex(q), outputs);
    assert (forall i :: 0 <= i < |inputs'| ==> CreatedHere(DropIndex(inputs'[i]), outputs'))
           <==> forall q :: q in inputs' ==> CreatedHere(DropIndex(q), outputs');
  }

  lemma PairLost(a: OutputData, b: OutputData, tokenType: string)
    requires b.coinInfo == a.coinInfo
    ensures LostOutputs([a, b], tokenType) == ValueIn(a.coinInfo, tokenType) && LostInputs([], [a, b], tokenType) == 0
  {
    var coin, value := a.coinInfo, (c: CoinObject) => ValueIn(c, tokenType);
    assert CreatedCoins([a, b]) == [coin, coin] && [coin, coin][..1] == [coin] && [coin][..0] == [];
    assert multiset([coin])[coin] == 1;
    assert Overwritten([coin], {}, value) == 0;
    assert Overwritten([coin, coin], {}, value) == value(coin);
  }

  lemma PairTotal(a: OutputData, b: OutputData, tokenType: string)
    ensures OutputTotal([a, b], tokenType) == ValueIn(a.coinInfo, tokenType) + ValueIn(b.coinInfo, tokenType)
  {
    var f := (o: OutputData) => ValueIn(o.coinInfo, tokenType);
    assert [a, b][..1] == [a] && [a][..0] == [];
    assert SumBy([a], f) == SumBy([], f) + f(a);
    assert SumBy([a, b], f) == SumBy([a], f) + f(b);
    assert OutputTotal([a, b], tokenType) == SumBy([a, b], f);
  }

  /** Two outputs of one coin collapse into one Map entry: the offer is short by the coin's value. */
  lemma RepeatedOutputNotConserved(a: OutputData, b: OutputData, encryptionPublicKey: string)
    requires IsCoin(a.coinInfo) && b.coinInfo == a.coinInfo && CoinValue(a.coinInfo) != 0
    ensures var r, tokenType := StateToOffer([], [a, b], encryptionPublicKey, None), TokenType(a.coinInfo);
      r.Ok? && r.value.Delta(tokenType) == -CoinValue(a.coinInfo) && !Conserved(r.value, [], [a, b], tokenType)
  {
    var tokenType := TokenType(a.coinInfo);
    SucceedsIff([], [a, b], encryptionPublicKey, None);
    Balance([], [a, b], encryptionPublicKey, None, tokenType);
    PairTotal(a, b, tokenType);
    PairLost(a, b, tokenType);
  }
}
