/** What the offer of a run contains and balances, in terms of the coins spent and created. */
module ZswapProperties {
  import opened Results
  import opened Seqs
  import opened CoinInfo
  import opened InsertionMap
  import opened ZswapOffer
  import opened SplitProperties
  import opened Sums

  /** Inputs and outputs carry coins of their declared types. */
  predicate Typed(inputs: seq<CoinObject>, outputs: seq<OutputData>) {
    && (forall i :: 0 <= i < |inputs| ==> IsQualifiedCoin(inputs[i]))
    && (forall i :: 0 <= i < |outputs| ==> IsCoin(outputs[i].coinInfo))
  }

  // The coin behind a key

  function KeyDelta(key: string, tokenType: string): int {
    match KeyCoin(key) case Ok((t, v)) => (if t == tokenType then v else 0) case Err(_) => 0
  }

  function Weight(tokenType: string): string -> int {
    key => KeyDelta(key, tokenType)
  }

  function TokenType(coin: CoinObject): string {
    match Lookup(coin, "type") case Some(Text(s)) => s case _ => ""
  }

  function CoinValue(coin: CoinObject): int {
    match Lookup(coin, "value") case Some(Big(n)) => n case _ => 0
  }

  function ValueIn(coin: CoinObject, tokenType: string): int {
    if TokenType(coin) == tokenType then CoinValue(coin) else 0
  }

  lemma {:induction false} FindMember(coin: CoinObject, name: string)
    ensures Find(AsMembers(coin), name)
            == match Lookup(coin, name)
               case None => None
               case Some(prop) => Some(EntryMember(Entry(name, prop)).value)
  {
    if coin != [] {
      FindMember(coin[1..], name);
      assert AsMembers(coin)[1..] == AsMembers(coin[1..]);
    }
  }

  /** A coin's key deserialises to the coin's token type and value. */
  lemma KeyReadsCoin(coin: CoinObject)
    requires IsCoin(coin)
    ensures Serialize(coin).Ok? && KeyCoin(Serialize(coin).value) == Ok((TokenType(coin), CoinValue(coin)))
  {
    DeserializeSerialize(coin);
    var t :| 0 <= t < |coin| && coin[t].name == "type" && coin[t].prop.Text?;
    var v :| 0 <= v < |coin| && coin[v].name == "value" && coin[v].prop.Big?;
    LookupEntry(coin, t);
    LookupEntry(coin, v);
    FindMember(coin, "type");
    FindMember(coin, "value");
  }

  // Balance

  lemma {:induction false} SumSnoc<V>(t: Table<V>, weight: string -> int)
    requires t != []
    ensures SumOf(t, weight) == SumOf(t[..|t| - 1], weight) + weight(t[|t| - 1].key)
  {
    if |t| > 1 {
      SumSnoc(t[1..], weight);
      assert t[1..][..|t| - 2] == t[..|t| - 1][1..];
    }
  }

  /** Merging a Map's offers adds up what its keys weigh, if every single offer's delta is its key's weight. */
  lemma {:induction false} MergedDelta<U(!new)>(
    t: Table<U>, coinOf: string -> Result<(string, int), OfferError>, f: (U, string, int) -> Offer,
    tokenType: string, weight: string -> int)
    requires MergeAll(t, coinOf, f).Ok?
    requires forall k, u :: coinOf(k).Ok? ==> f(u, coinOf(k).value.0, coinOf(k).value.1).Delta(tokenType) == weight(k)
    ensures MergeAll(t, coinOf, f).value.Delta(tokenType) == SumOf(t, weight)
  {
    if t != [] {
      var last := t[|t| - 1];
      MergedDelta(t[..|t| - 1], coinOf, f, tokenType, weight);
      SumSnoc(t, weight);
      var acc := MergeAll(t[..|t| - 1], coinOf, f).value;
      var (ty, v) := coinOf(last.key).value;
      MergeDelta(acc, f(last.item, ty, v), tokenType);
    }
  }

  lemma MergeDelta(a: Offer, b: Offer, tokenType: string)
    ensures a.Merge(b).Delta(tokenType) == a.Delta(tokenType) + b.Delta(tokenType)
  {
  }

  lemma {:induction false} SumNegated<V>(t: Table<V>, weight: string -> int, negated: string -> int)
    requires forall k :: negated(k) == -weight(k)
    ensures SumOf(t, negated) == -SumOf(t, weight)
  {
    if t != [] {
      SumNegated(t[1..], weight, negated);
    }
  }

  lemma {:induction false} SumZero<V>(t: Table<V>, weight: string -> int)
    requires forall k :: weight(k) == 0
    ensures SumOf(t, weight) == 0
  {
    if t != [] {
      SumZero(t[1..], weight);
    }
  }

  lemma OfferDelta(t: Tables, tokenType: string)
    requires OfferOf(t).Ok?
    ensures OfferOf(t).value.Delta(tokenType) == SumOf(t.inputs, Weight(tokenType)) - SumOf(t.outputs, Weight(tokenType))
  {
    var weight := Weight(tokenType);
    var negated, zero := (k: string) => -weight(k), (k: string) => 0;
    MergedDelta(t.inputs, KeyCoin, FromInput, tokenType, weight);
    MergedDelta(t.outputs, KeyCoin, FromOutput, tokenType, negated);
    MergedDelta(t.transients, KeyCoin, FromTransient, tokenType, zero);
    SumNegated(t.outputs, weight, negated);
    SumZero(t.transients, zero);
    var i, o := OfferFromMap(t.inputs, FromInput).value, OfferFromMap(t.outputs, FromOutput).value;
    MergeDelta(i, o, tokenType);
    MergeDelta(i.Merge(o), OfferFromMap(t.transients, FromTransient).value, tokenType);
  }

  lemma KeyBalance(inputs: seq<Keyed<CoinObject>>, outputs: seq<Keyed<UnprovenOutput>>,
                   checked: Result<Chain, OfferError>, tokenType: string)
    requires OutputTable(outputs).Ok? && Split(OutputTable(outputs).value, inputs, checked).Ok?
    requires OfferOf(Split(OutputTable(outputs).value, inputs, checked).value).Ok?
    ensures var weight := Weight(tokenType);
      OfferOf(Split(OutputTable(outputs).value, inputs, checked).value).value.Delta(tokenType)
      == Total(Keys(inputs), weight) - Overwritten(Keys(inputs), (set k | k in Keys(outputs)), weight)
         - (Total(Keys(outputs), weight) - Overwritten(Keys(outputs), {}, weight))
  {
    var outs := OutputTable(outputs).value;
    OutputTableMeaning(outputs);
    OutputTableSum(outputs, Weight(tokenType));
    SplitSum(outs, inputs, checked, Weight(tokenType));
    OfferDelta(Split(outs, inputs, checked).value, tokenType);
    assert AsMap(outs).Keys == set k | k in Keys(outputs);
  }

  function InputTotal(inputs: seq<CoinObject>, tokenType: string): int {
    SumBy(inputs, (q: CoinObject) => ValueIn(DropIndex(q), tokenType))
  }

  function OutputTotal(outputs: seq<OutputData>, tokenType: string): int {
    SumBy(outputs, (o: OutputData) => ValueIn(o.coinInfo, tokenType))
  }

  lemma CoinWeight(coin: CoinObject, tokenType: string)
    requires IsCoin(coin)
    ensures Serialize(coin).Ok? && Weight(tokenType)(Serialize(coin).value) == ValueIn(coin, tokenType)
  {
    KeyReadsCoin(coin);
  }

  lemma InputKeysTotal(inputs: seq<CoinObject>, tokenType: string)
    requires forall i :: 0 <= i < |inputs| ==> IsQualifiedCoin(inputs[i])
    ensures Total(Keys(KeyedInputs(inputs)), Weight(tokenType)) == InputTotal(inputs, tokenType)
  {
    var keyed, weight := KeyedInputs(inputs), Weight(tokenType);
    var f := (q: CoinObject) => ValueIn(DropIndex(q), tokenType);
    forall i | 0 <= i < |inputs| ensures weight(KeyOf(keyed[i])) == f(inputs[i]) {
      CoinWeight(DropIndex(inputs[i]), tokenType);
    }
    TotalAsSum(inputs, keyed, f, weight);
  }

  lemma OutputKeysTotal(outputs: seq<OutputData>, encryptionPublicKey: string, tokenType: string)
    requires forall i :: 0 <= i < |outputs| ==> IsCoin(outputs[i].coinInfo)
    ensures Total(Keys(KeyedOutputs(outputs, encryptionPublicKey)), Weight(tokenType)) == OutputTotal(outputs, tokenType)
  {
    var keyed, weight := KeyedOutputs(outputs, encryptionPublicKey), Weight(tokenType);
    var f := (o: OutputData) => ValueIn(o.coinInfo, tokenType);
    forall i | 0 <= i < |outputs| ensures weight(KeyOf(keyed[i])) == f(outputs[i]) {
      CoinWeight(outputs[i].coinInfo, tokenType);
    }
    TotalAsSum(outputs, keyed, f, weight);
  }

  // Repeated coins

  lemma SameKeyIff(a: CoinObject, b: CoinObject)
    requires IsCoin(a) && IsCoin(b)
    ensures Serialize(a).Ok? && Serialize(b).Ok?
    ensures Serialize(a).value == Serialize(b).value <==> a == b
  {
    KeysAgreeIff(a, b);
    CoinSerialises(a);
    CoinSerialises(b);
  }

  function SpentCoins(inputs: seq<CoinObject>): seq<CoinObject> {
    seq(|inputs|, i requires 0 <= i < |inputs| => DropIndex(inputs[i]))
  }

  function CreatedCoins(outputs: seq<OutputData>): seq<CoinObject> {
    seq(|outputs|, i requires 0 <= i < |outputs| => outputs[i].coinInfo)
  }

  /** The value that repeats of an input lose: every spending of a coin but the first two if the run creates it, else but one. */
  function LostInputs(inputs: seq<CoinObject>, outputs: seq<OutputData>, tokenType: string): int {
    Overwritten(SpentCoins(inputs), (set c | c in CreatedCoins(outputs)), (c: CoinObject) => ValueIn(c, tokenType))
  }

  /** The value that repeats of an output lose: every creation of a coin but one. */
  function LostOutputs(outputs: seq<OutputData>, tokenType: string): int {
    Overwritten(CreatedCoins(outputs), {}, (c: CoinObject) => ValueIn(c, tokenType))
  }

  predicate KeysOf(keys: seq<string>, coins: seq<CoinObject>) {
    |keys| == |coins| && forall i :: 0 <= i < |coins| ==> IsCoin(coins[i]) && Serialize(coins[i]) == Ok(keys[i])
  }

  lemma KeysPattern(coins: seq<CoinObject>, keys: seq<string>)
    requires KeysOf(keys, coins)
    ensures SamePattern(coins, keys)
  {
    forall i, j | 0 <= i < |coins| && 0 <= j < |coins| ensures coins[i] == coins[j] <==> keys[i] == keys[j] {
      KeysAgreeIff(coins[i], coins[j]);
    }
  }

  lemma KeyListed(coin: CoinObject, key: string, coins: seq<CoinObject>, keys: seq<string>)
    requires KeysOf(keys, coins) && IsCoin(coin) && Serialize(coin) == Ok(key)
    ensures coin in coins <==> key in keys
  {
    forall i | 0 <= i < |coins| ensures coin == coins[i] <==> key == keys[i] {
      KeysAgreeIff(coin, coins[i]);
    }
  }

  /** The Maps lose by key what repeated coins lose. */
  lemma LostByKey(coins: seq<CoinObject>, keys: seq<string>, others: seq<CoinObject>, otherKeys: seq<string>, tokenType: string)
    requires KeysOf(keys, coins) && KeysOf(otherKeys, others)
    ensures Overwritten(coins, (set c | c in others), (c: CoinObject) => ValueIn(c, tokenType))
            == Overwritten(keys, (set k | k in otherKeys), Weight(tokenType))
  {
    var value := (c: CoinObject) => ValueIn(c, tokenType);
    KeysPattern(coins, keys);
    forall i | 0 <= i < |coins|
      ensures value(coins[i]) == Weight(tokenType)(keys[i]) && (coins[i] in others <==> keys[i] in otherKeys)
    {
      CoinWeight(coins[i], tokenType);
      KeyListed(coins[i], keys[i], others, otherKeys);
    }
    OverwrittenAlong(coins, keys, (set c | c in others), (set k | k in otherKeys), value, Weight(tokenType));
  }

  lemma LostInputKeys(inputs: seq<CoinObject>, outputs: seq<OutputData>, encryptionPublicKey: string, tokenType: string)
    requires Typed(inputs, outputs)
    ensures var created := Keys(KeyedOutputs(outputs, encryptionPublicKey));
      LostInputs(inputs, outputs, tokenType)
      == Overwritten(Keys(KeyedInputs(inputs)), (set k | k in created), Weight(tokenType))
  {
    CoinKeys(inputs, outputs, encryptionPublicKey);
    LostByKey(SpentCoins(inputs), Keys(KeyedInputs(inputs)),
              CreatedCoins(outputs), Keys(KeyedOutputs(outputs, encryptionPublicKey)), tokenType);
  }

  lemma LostOutputKeys(inputs: seq<CoinObject>, outputs: seq<OutputData>, encryptionPublicKey: string, tokenType: string)
    requires Typed(inputs, outputs)
    ensures LostOutputs(outputs, tokenType) == Overwritten(Keys(KeyedOutputs(outputs, encryptionPublicKey)), {}, Weight(tokenType))
  {
    CoinKeys(inputs, outputs, encryptionPublicKey);
    LostByKey(CreatedCoins(outputs), Keys(KeyedOutputs(outputs, encryptionPublicKey)), [], [], tokenType);
    assert (set c: CoinObject | c in []) == {} && (set k: string | k in []) == {};
  }

  lemma CoinKeys(inputs: seq<CoinObject>, outputs: seq<OutputData>, encryptionPublicKey: string)
    requires Typed(inputs, outputs)
    ensures var spent, created := Keys(KeyedInputs(inputs)), Keys(KeyedOutputs(outputs, encryptionPublicKey));
      && |spent| == |inputs| && |created| == |outputs|
      && (forall i :: 0 <= i < |inputs| ==> Serialize(DropIndex(inputs[i])) == Ok(spent[i]))
      && (forall i :: 0 <= i < |outputs| ==> Serialize(outputs[i].coinInfo) == Ok(created[i]))
  {
    KeysAt(KeyedInputs(inputs));
    KeysAt(KeyedOutputs(outputs, encryptionPublicKey));
    forall i | 0 <= i < |inputs| ensures Serialize(DropIndex(inputs[i])) == Ok(KeyOf(KeyedInputs(inputs)[i])) {
      CoinSerialises(DropIndex(inputs[i]));
    }
    forall i | 0 <= i < |outputs| ensures Serialize(outputs[i].coinInfo) == Ok(KeyOf(KeyedOutputs(outputs, encryptionPublicKey)[i])) {
      CoinSerialises(outputs[i].coinInfo);
    }
  }

  // Conservation

  /** Every run's balance: what the inputs are worth without what repeats lose, minus the same of the outputs. */
  lemma Balance(
    inputs: seq<CoinObject>, outputs: seq<OutputData>, encryptionPublicKey: string, chain: Option<Chain>, tokenType: string)
    requires Typed(inputs, outputs)
    ensures var r := StateToOffer(inputs, outputs, encryptionPublicKey, chain);
      r.Ok? ==> r.value.Delta(tokenType)
                == InputTotal(inputs, tokenType) - LostInputs(inputs, outputs, tokenType)
                   - (OutputTotal(outputs, tokenType) - LostOutputs(outputs, tokenType))
  {
    if StateToOffer(inputs, outputs, encryptionPublicKey, chain).Ok? {
      KeyBalance(KeyedInputs(inputs), KeyedOutputs(outputs, encryptionPublicKey), CheckedChain(chain), tokenType);
      InputKeysTotal(inputs, tokenType);
      OutputKeysTotal(outputs, encryptionPublicKey, tokenType);
      LostInputKeys(inputs, outputs, encryptionPublicKey, tokenType);
      LostOutputKeys(inputs, outputs, encryptionPublicKey, tokenType);
    }
  }

  /** The value of a token type in the offer is what the inputs are worth minus what the outputs are worth. */
  predicate Conserved(offer: Offer, inputs: seq<CoinObject>, outputs: seq<OutputData>, tokenType: string) {
    offer.Delta(tokenType) == InputTotal(inputs, tokenType) - OutputTotal(outputs, tokenType)
  }

  /** A token type is conserved exactly when repeated inputs and repeated outputs lose the same value of it. */
  lemma ConservationIff(
    inputs: seq<CoinObject>, outputs: seq<OutputData>, encryptionPublicKey: string, chain: Option<Chain>, tokenType: string)
    requires Typed(inputs, outputs)
    ensures var r := StateToOffer(inputs, outputs, encryptionPublicKey, chain);
      r.Ok? ==> (Conserved(r.value, inputs, outputs, tokenType)
                 <==> LostInputs(inputs, outputs, tokenType) == LostOutputs(outputs, tokenType))
  {
    Balance(inputs, outputs, encryptionPublicKey, chain, tokenType);
  }

  predicate DistinctInputs(inputs: seq<CoinObject>) {
    forall i, j :: 0 <= i < j < |inputs| ==> DropIndex(inputs[i]) != DropIndex(inputs[j])
  }

  predicate DistinctOutputs(outputs: seq<OutputData>) {
    forall i, j :: 0 <= i < j < |outputs| ==> outputs[i].coinInfo != outputs[j].coinInfo
  }

  lemma InputKeysDistinct(inputs: seq<CoinObject>)
    requires forall i :: 0 <= i < |inputs| ==> IsQualifiedCoin(inputs[i])
    ensures DistinctInputs(inputs) <==> NoRepeats(Keys(KeyedInputs(inputs)))
  {
    var keys := Keys(KeyedInputs(inputs));
    KeysAt(KeyedInputs(inputs));
    forall i, j | 0 <= i < j < |inputs| ensures keys[i] == keys[j] <==> DropIndex(inputs[i]) == DropIndex(inputs[j]) {
      SameKeyIff(DropIndex(inputs[i]), DropIndex(inputs[j]));
    }
  }

  lemma OutputKeysDistinct(outputs: seq<OutputData>, encryptionPublicKey: string)
    requires forall i :: 0 <= i < |outputs| ==> IsCoin(outputs[i].coinInfo)
    ensures DistinctOutputs(outputs) <==> NoRepeats(Keys(KeyedOutputs(outputs, encryptionPublicKey)))
  {
    var keys := Keys(KeyedOutputs(outputs, encryptionPublicKey));
    KeysAt(KeyedOutputs(outputs, encryptionPublicKey));
    forall i, j | 0 <= i < j < |outputs| ensures keys[i] == keys[j] <==> outputs[i].coinInfo == outputs[j].coinInfo {
      SameKeyIff(outputs[i].coinInfo, outputs[j].coinInfo);
    }
  }

  /** With inputs pairwise distinct and outputs pairwise distinct, every token type is conserved. */
  lemma Conservation(
    inputs: seq<CoinObject>, outputs: seq<OutputData>, encryptionPublicKey: string, chain: Option<Chain>, tokenType: string)
    requires Typed(inputs, outputs) && DistinctInputs(inputs) && DistinctOutputs(outputs)
    ensures var r := StateToOffer(inputs, outputs, encryptionPublicKey, chain);
      r.Ok? ==> Conserved(r.value, inputs, outputs, tokenType)
  {
    var value := (c: CoinObject) => ValueIn(c, tokenType);
    Balance(inputs, outputs, encryptionPublicKey, chain, tokenType);
    NothingOverwritten(SpentCoins(inputs), (set c | c in CreatedCoins(outputs)), value);
    NothingOverwritten(CreatedCoins(outputs), {}, value);
  }
}
