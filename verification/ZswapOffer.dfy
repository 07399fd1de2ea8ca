/**
  The offer of a circuit run: its local inputs and outputs are split through three Maps into unspent outputs,
  inputs and transients, and merged. Ledger objects stand for the arguments they were built from.
 */
module ZswapOffer {
  import opened Results
  import opened CoinInfo
  import opened InsertionMap
  import HexUtils

  datatype Recipient = Recipient(isLeft: bool, left: string, right: string)

  datatype OutputData = OutputData(coinInfo: CoinObject, recipient: Recipient)

  datatype UnprovenOutput =
    | UserOwned(coin: CoinObject, segment: nat, publicKey: string, encryptionPublicKey: string)
    | ContractOwned(coin: CoinObject, segment: nat, address: string)

  datatype UnprovenInput = UnprovenInput(coin: CoinObject, segment: nat, address: string, chainState: nat)

  datatype UnprovenTransient = UnprovenTransient(coin: CoinObject, segment: nat, output: UnprovenOutput)

  /** The optional contract address and (opaque) chain state that inputs are proved against. */
  datatype Chain = Chain(contractAddress: string, chainState: nat)

  datatype OfferError = Coin(error: CoinError) | NoChainState | BadAddress(hexError: HexUtils.HexError) | NotACoin

  const DEFAULT_SEGMENT_NUMBER := 0

  // Offers

  datatype Offer = Offer(
    inputs: multiset<UnprovenInput>,
    outputs: multiset<UnprovenOutput>,
    transients: multiset<UnprovenTransient>,
    deltas: map<string, int>)
  {
    function Delta(tokenType: string): int {
      if tokenType in deltas then deltas[tokenType] else 0
    }

    function Merge(that: Offer): Offer {
      Offer(inputs + that.inputs, outputs + that.outputs, transients + that.transients,
            map t | t in deltas.Keys + that.deltas.Keys :: Delta(t) + that.Delta(t))
    }
  }

  const EMPTY_OFFER := Offer(multiset{}, multiset{}, multiset{}, map[])

  function FromInput(u: UnprovenInput, tokenType: string, value: int): Offer {
    EMPTY_OFFER.(inputs := multiset{u}, deltas := map[tokenType := value])
  }

  function FromOutput(u: UnprovenOutput, tokenType: string, value: int): Offer {
    EMPTY_OFFER.(outputs := multiset{u}, deltas := map[tokenType := -value])
  }

  function FromTransient(u: UnprovenTransient, tokenType: string, value: int): Offer {
    EMPTY_OFFER.(transients := multiset{u})
  }

  /** The token type and value that a Map key is deserialised to. */
  function KeyCoin(key: string): Result<(string, int), OfferError> {
    match Deserialize(key)
    case Ok(Object(fields)) =>
      (match (Find(fields, "type"), Find(fields, "value"))
       case (Some(Plain(Str(tokenType))), Some(BigInt(value))) => Ok((tokenType, value))
       case _ => Err(NotACoin))
    case Ok(_) => Err(NotACoin)
    case Err(error) => Err(Coin(error))
  }

  /** The entries in insertion order, each turned into an offer for the coin its key stands for, merged from the left. */
  function MergeAll<U>(
    t: Table<U>, coinOf: string -> Result<(string, int), OfferError>, f: (U, string, int) -> Offer
  ): Result<Offer, OfferError>
  {
    if t == [] then Ok(EMPTY_OFFER)
    else
      var last := t[|t| - 1];
      var acc :- MergeAll(t[..|t| - 1], coinOf, f);
      var coin :- coinOf(last.key);
      Ok(acc.Merge(f(last.item, coin.0, coin.1)))
  }

  /** `unprovenOfferFromMap`. */
  function OfferFromMap<U>(t: Table<U>, f: (U, string, int) -> Offer): Result<Offer, OfferError> {
    MergeAll(t, KeyCoin, f)
  }

  // The split

  function NewOutput(output: OutputData, encryptionPublicKey: string): UnprovenOutput {
    if output.recipient.isLeft
    then UserOwned(output.coinInfo, DEFAULT_SEGMENT_NUMBER, output.recipient.left, encryptionPublicKey)
    else ContractOwned(output.coinInfo, DEFAULT_SEGMENT_NUMBER, output.recipient.right)
  }

  function NewInput(coin: CoinObject, chain: Chain): UnprovenInput {
    UnprovenInput(coin, DEFAULT_SEGMENT_NUMBER, chain.contractAddress, chain.chainState)
  }

  function NewTransient(coin: CoinObject, output: UnprovenOutput): UnprovenTransient {
    UnprovenTransient(coin, DEFAULT_SEGMENT_NUMBER, output)
  }

  /** A value with the outcome of serialising its coin. */
  datatype Keyed<V> = Keyed(key: Result<string, CoinError>, item: V)

  function KeyedOutputs(outputs: seq<OutputData>, encryptionPublicKey: string): seq<Keyed<UnprovenOutput>> {
    seq(|outputs|, i requires 0 <= i < |outputs| =>
      Keyed(Serialize(outputs[i].coinInfo), NewOutput(outputs[i], encryptionPublicKey)))
  }

  function KeyedInputs(inputs: seq<CoinObject>): seq<Keyed<CoinObject>> {
    seq(|inputs|, i requires 0 <= i < |inputs| => Keyed(SerializeQualified(inputs[i]), inputs[i]))
  }

  function OutputTable<V>(outputs: seq<Keyed<V>>): Result<Table<V>, OfferError> {
    if outputs == [] then Ok([])
    else
      var last := outputs[|outputs| - 1];
      var t :- OutputTable(outputs[..|outputs| - 1]);
      match last.key
      case Err(error) => Err(Coin(error))
      case Ok(key) => Ok(Set(t, key, last.item))
  }

  datatype Tables = Tables(
    outputs: Table<UnprovenOutput>,
    inputs: Table<UnprovenInput>,
    transients: Table<UnprovenTransient>)

  /** The checks made on the chain before it is used for an input. */
  function CheckedChain(chain: Option<Chain>): Result<Chain, OfferError> {
    match chain
    case None => Err(NoChainState)
    case Some(c) =>
      match HexUtils.AssertIsContractAddress(c.contractAddress)
      case Err(error) => Err(BadAddress(error))
      case Ok(_) => Ok(c)
  }

  /** One turn of the `forEach` over the inputs. */
  function Step(t: Tables, input: Keyed<CoinObject>, checked: Result<Chain, OfferError>): Result<Tables, OfferError> {
    match input.key
    case Err(error) => Err(Coin(error))
    case Ok(key) =>
      match Get(t.outputs, key)
      case Some(output) =>
        Ok(Tables(Delete(t.outputs, key), t.inputs, Set(t.transients, key, NewTransient(input.item, output))))
      case None =>
        var chain :- checked;
        Ok(t.(inputs := Set(t.inputs, key, NewInput(input.item, chain))))
  }

  function Split(
    outs: Table<UnprovenOutput>, inputs: seq<Keyed<CoinObject>>, checked: Result<Chain, OfferError>
  ): Result<Tables, OfferError>
  {
    if inputs == [] then Ok(Tables(outs, [], []))
    else
      var before :- Split(outs, inputs[..|inputs| - 1], checked);
      Step(before, inputs[|inputs| - 1], checked)
  }

  function OfferOf(t: Tables): Result<Offer, OfferError> {
    var i :- OfferFromMap(t.inputs, FromInput);
    var o :- OfferFromMap(t.outputs, FromOutput);
    var r :- OfferFromMap(t.transients, FromTransient);
    Ok(i.Merge(o).Merge(r))
  }

  /** What `zswapStateToOffer` returns or throws. */
  function StateToOffer(
    inputs: seq<CoinObject>, outputs: seq<OutputData>, encryptionPublicKey: string, chain: Option<Chain>
  ): Result<Offer, OfferError>
  {
    var table :- OutputTable(KeyedOutputs(outputs, encryptionPublicKey));
    var tables :- Split(table, KeyedInputs(inputs), CheckedChain(chain));
    OfferOf(tables)
  }

  lemma {:induction false} SplitFailsEarly(
    outs: Table<UnprovenOutput>, inputs: seq<Keyed<CoinObject>>, checked: Result<Chain, OfferError>, n: nat)
    requires n <= |inputs| && Split(outs, inputs[..n], checked).Err?
    ensures Split(outs, inputs, checked) == Split(outs, inputs[..n], checked)
  {
    if n < |inputs| {
      assert inputs[..|inputs| - 1][..n] == inputs[..n];
      SplitFailsEarly(outs, inputs[..|inputs| - 1], checked, n);
    } else {
      assert inputs[..n] == inputs;
    }
  }

  lemma {:induction false} OutputTableFailsEarly<V>(outputs: seq<Keyed<V>>, n: nat)
    requires n <= |outputs| && OutputTable(outputs[..n]).Err?
    ensures OutputTable(outputs) == OutputTable(outputs[..n])
  {
    if n < |outputs| {
      assert outputs[..|outputs| - 1][..n] == outputs[..n];
      OutputTableFailsEarly(outputs[..|outputs| - 1], n);
    } else {
      assert outputs[..n] == outputs;
    }
  }

  /** The Map of outputs that the function starts from. */
  method OutputMap(outputs: seq<Keyed<UnprovenOutput>>) returns (r: Result<Table<UnprovenOutput>, OfferError>)
    ensures r == OutputTable(outputs)
  {
    var table: Table<UnprovenOutput> := [];
    for i := 0 to |outputs|
      invariant OutputTable(outputs[..i]) == Ok(table)
    {
      assert outputs[..i + 1][..i] == outputs[..i];
      if outputs[i].key.Err? {
        OutputTableFailsEarly(outputs, i + 1);
        return Err(Coin(outputs[i].key.error));
      }
      table := Set(table, outputs[i].key.value, outputs[i].item);
    }
    assert outputs[..|outputs|] == outputs;
    r := Ok(table);
  }

  lemma SplitStep(
    outs: Table<UnprovenOutput>, inputs: seq<Keyed<CoinObject>>, checked: Result<Chain, OfferError>, i: nat, t: Tables)
    requires i < |inputs| && Split(outs, inputs[..i], checked) == Ok(t)
    ensures Split(outs, inputs[..i + 1], checked) == Step(t, inputs[i], checked)
    ensures Step(t, inputs[i], checked).Err? ==> Split(outs, inputs, checked) == Step(t, inputs[i], checked)
  {
    assert inputs[..i + 1][..i] == inputs[..i];
    if Step(t, inputs[i], checked).Err? {
      SplitFailsEarly(outs, inputs, checked, i + 1);
    }
  }

  method ZswapStateToOffer(
    inputs: seq<CoinObject>, outputs: seq<OutputData>, encryptionPublicKey: string, chain: Option<Chain>
  ) returns (r: Result<Offer, OfferError>)
    ensures r == StateToOffer(inputs, outputs, encryptionPublicKey, chain)
  {
    var keyedInputs := KeyedInputs(inputs);
    var table := OutputMap(KeyedOutputs(outputs, encryptionPublicKey));
    if table.Err? {
      return Err(table.error);
    }
    var unprovenOutputs := table.value;
    var checked := CheckedChain(chain);
    var unprovenInputs: Table<UnprovenInput> := [];
    var unprovenTransients: Table<UnprovenTransient> := [];
    for i := 0 to |inputs|
      invariant Split(table.value, keyedInputs[..i], checked) == Ok(Tables(unprovenOutputs, unprovenInputs, unprovenTransients))
    {
      SplitStep(table.value, keyedInputs, checked, i, Tables(unprovenOutputs, unprovenInputs, unprovenTransients));
      var serialized := keyedInputs[i].key;
      if serialized.Err? {
        return Err(Coin(serialized.error));
      }
      var unprovenOutput := Get(unprovenOutputs, serialized.value);
      if unprovenOutput.Some? {
        unprovenTransients :=
          Set(unprovenTransients, serialized.value, NewTransient(inputs[i], unprovenOutput.value));
        unprovenOutputs := Delete(unprovenOutputs, serialized.value);
      } else {
        if checked.Err? {
          return Err(checked.error);
        }
        unprovenInputs := Set(unprovenInputs, serialized.value, NewInput(inputs[i], checked.value));
      }
    }
    assert keyedInputs[..|inputs|] == keyedInputs;
    r := OfferOf(Tables(unprovenOutputs, unprovenInputs, unprovenTransients));
  }
}
