/**
  Coins as the JavaScript objects they are, and their serialised form, which is the Map key of the offer builder.
  An object is the list of its properties in insertion order.
 */
module CoinInfo {
  import opened Results
  import opened Numerals
  import opened JsonText
  import HexUtils

  datatype Prop = Text(text: string) | Big(n: int)

  datatype Entry = Entry(name: string, prop: Prop)

  type CoinObject = seq<Entry>

  datatype CoinError = UnexpectedKey | MissingValue | NotSerialisable | BadJson | BadBigInt

  predicate DistinctKeys(coin: CoinObject) {
    forall i, j :: 0 <= i < j < |coin| ==> coin[i].name != coin[j].name
  }

  /** A `CoinInfo` by its declared type: `type` and `nonce` are strings, `value` is a bigint, in any order. */
  predicate IsCoin(coin: CoinObject) {
    && DistinctKeys(coin)
    && (exists i :: 0 <= i < |coin| && coin[i].name == "type" && coin[i].prop.Text?)
    && (exists i :: 0 <= i < |coin| && coin[i].name == "nonce" && coin[i].prop.Text?)
    && (exists i :: 0 <= i < |coin| && coin[i].name == "value" && coin[i].prop.Big?)
    && CheckKeys(coin)
  }

  predicate CoinKey(name: string) {
    name == "value" || name == "type" || name == "nonce"
  }

  /** `checkKeys`: false is the TypeError. */
  predicate CheckKeys(coin: CoinObject) {
    forall i :: 0 <= i < |coin| ==> CoinKey(coin[i].name)
  }

  function Lookup(coin: CoinObject, name: string): Option<Prop> {
    if coin == [] then None else if coin[0].name == name then Some(coin[0].prop) else Lookup(coin[1..], name)
  }

  const BIG_INT_KEY := "__big_int_val__"
  const BYTES_KEY := "__uint8Array_val__"

  function BigIntJson(digits: string): Json {
    Obj([Field(BIG_INT_KEY, Str(digits))])
  }

  /** The value is wrapped, as the text it prints to; the rest is written as it is. */
  function EntryJson(e: Entry): Field {
    var text := match e.prop case Text(s) => s case Big(n) => PrintInt(n);
    Field(e.name, if e.name == "value" then BigIntJson(text) else Str(text))
  }

  function CoinJson(coin: CoinObject): Json {
    Obj(seq(|coin|, i requires 0 <= i < |coin| => EntryJson(coin[i])))
  }

  /** `serializeCoinInfo`. A bigint anywhere but under `value` is refused by `JSON.stringify`. */
  function Serialize(coin: CoinObject): Result<string, CoinError> {
    if !CheckKeys(coin) then Err(UnexpectedKey)
    else
      match Lookup(coin, "value")
      case None => Err(MissingValue)
      case Some(_) =>
        if exists i :: 0 <= i < |coin| && coin[i].name != "value" && coin[i].prop.Big? then Err(NotSerialisable)
        else Ok(Stringify(CoinJson(coin)))
  }

  /** The coin without its Merkle tree index. */
  function DropIndex(coin: CoinObject): CoinObject {
    if coin == [] then []
    else if coin[0].name == "mt_index" then DropIndex(coin[1..])
    else [coin[0]] + DropIndex(coin[1..])
  }

  function SerializeQualified(coin: CoinObject): Result<string, CoinError> {
    Serialize(DropIndex(coin))
  }

  // Deserialisation

  datatype Value =
    | Plain(json: Json)
    | BigInt(n: int)
    | Bytes(bytes: seq<HexUtils.byte>)
    | List(elems: seq<Value>)
    | Object(fields: seq<Member>)

  datatype Member = Member(name: string, value: Value)

  function Find(fields: seq<Member>, name: string): Option<Value> {
    if fields == [] then None else if fields[0].name == name then Some(fields[0].value) else Find(fields[1..], name)
  }

  /** The reviver's treatment of one property whose own properties have been revived already. */
  function ReviveProperty(key: string, v: Value): Result<Value, CoinError> {
    if v.Object? then
      match (Find(v.fields, BIG_INT_KEY), Find(v.fields, BYTES_KEY))
      case (Some(Plain(Str(digits))), _) =>
        if key == "value" then (match BigIntOf(digits) case Some(n) => Ok(BigInt(n)) case None => Err(BadBigInt))
        else ReviveBytes(key, v)
      case _ => ReviveBytes(key, v)
    else Ok(v)
  }

  function ReviveBytes(key: string, v: Value): Result<Value, CoinError>
    requires v.Object?
  {
    match Find(v.fields, BYTES_KEY)
    case Some(Plain(Str(hex))) => if key == "color" || key == "nonce" then Ok(Bytes(HexUtils.FromHex(hex))) else Ok(v)
    case _ => Ok(v)
  }

  /** `JSON.parse` with the reviver, which visits the innermost properties first. */
  function Revive(key: string, v: Json): Result<Value, CoinError>
    decreases v, 1
  {
    match v
    case Arr(elems) => var vs :- ReviveElems(elems, 0); ReviveProperty(key, List(vs))
    case Obj(fields) => var ms :- ReviveFields(fields); ReviveProperty(key, Object(ms))
    case _ => ReviveProperty(key, Plain(v))
  }

  function ReviveElems(elems: seq<Json>, index: nat): Result<seq<Value>, CoinError>
    decreases elems, 0
  {
    if elems == [] then Ok([])
    else
      var head :- Revive(Print(index), elems[0]);
      var tail :- ReviveElems(elems[1..], index + 1);
      Ok([head] + tail)
  }

  function ReviveFields(fields: seq<Field>): Result<seq<Member>, CoinError>
    decreases fields, 0
  {
    if fields == [] then Ok([])
    else
      var head :- Revive(fields[0].name, fields[0].value);
      var tail :- ReviveFields(fields[1..]);
      Ok([Member(fields[0].name, head)] + tail)
  }

  /** `checkKeys` on whatever was parsed: characters and elements are keyed by position, other scalars have no keys. */
  predicate RevivedKeysOk(v: Value) {
    match v
    case Object(fields) => forall i :: 0 <= i < |fields| ==> CoinKey(fields[i].name)
    case List(elems) => elems == []
    case Plain(Null) => false
    case Plain(Str(s)) => s == ""
    case _ => true
  }

  function Deserialize(text: string): Result<Value, CoinError> {
    match Parse(text)
    case None => Err(BadJson)
    case Some(json) =>
      var v :- Revive("", json);
      if RevivedKeysOk(v) then Ok(v) else Err(UnexpectedKey)
  }

  function EntryMember(e: Entry): Member {
    Member(e.name, match e.prop case Text(s) => Plain(Str(s)) case Big(n) => BigInt(n))
  }

  /** The same object, as the deserialiser presents it. */
  function AsMembers(coin: CoinObject): seq<Member> {
    seq(|coin|, i requires 0 <= i < |coin| => EntryMember(coin[i]))
  }

  // Round trip

  /** Bigints stand under `value` only: what `JSON.stringify` accepts of a checked coin. */
  predicate Serialisable(coin: CoinObject) {
    && DistinctKeys(coin) && CheckKeys(coin)
    && forall i :: 0 <= i < |coin| ==> (coin[i].prop.Big? <==> coin[i].name == "value")
  }

  lemma {:induction false} LookupEntry(coin: CoinObject, i: nat)
    requires DistinctKeys(coin) && i < |coin|
    ensures Lookup(coin, coin[i].name) == Some(coin[i].prop)
  {
    if i > 0 {
      assert coin[0].name != coin[i].name;
      LookupEntry(coin[1..], i - 1);
    }
  }

  lemma CoinSerialises(coin: CoinObject)
    requires IsCoin(coin)
    ensures Serialisable(coin) && Serialize(coin) == Ok(Stringify(CoinJson(coin)))
  {
    var t :| 0 <= t < |coin| && coin[t].name == "type" && coin[t].prop.Text?;
    var n :| 0 <= n < |coin| && coin[n].name == "nonce" && coin[n].prop.Text?;
    var v :| 0 <= v < |coin| && coin[v].name == "value" && coin[v].prop.Big?;
    forall i | 0 <= i < |coin| ensures coin[i].prop.Big? <==> coin[i].name == "value" {
      assert CoinKey(coin[i].name);
      assert i == t || i == n || i == v;
    }
    LookupEntry(coin, v);
  }

  lemma CoinJsonWellFormed(coin: CoinObject)
    requires DistinctKeys(coin)
    ensures WellFormed(CoinJson(coin))
  {
    var fields := CoinJson(coin).fields;
    forall i | 0 <= i < |fields| ensures WellFormed(fields[i].value) {
      assert fields[i] == EntryJson(coin[i]);
    }
  }

  lemma ReviveEntry(e: Entry)
    requires e.prop.Big? <==> e.name == "value"
    ensures Revive(e.name, EntryJson(e).value) == Ok(EntryMember(e).value)
  {
    if e.prop.Big? {
      BigIntOfPrint(e.prop.n);
      ReviveBigInt(PrintInt(e.prop.n), e.prop.n);
    }
  }

  lemma ReviveWrapped(digits: string)
    ensures ReviveFields([Field(BIG_INT_KEY, Str(digits))]) == Ok([Member(BIG_INT_KEY, Plain(Str(digits)))])
  {
    var inner := Member(BIG_INT_KEY, Plain(Str(digits)));
    assert ReviveFields([]) == Ok([]);
    assert [Field(BIG_INT_KEY, Str(digits))][1..] == [] && [inner] + [] == [inner];
  }

  lemma ReviveBigInt(digits: string, n: int)
    requires BigIntOf(digits) == Some(n)
    ensures Revive("value", BigIntJson(digits)) == Ok(BigInt(n))
  {
    var inner := Member(BIG_INT_KEY, Plain(Str(digits)));
    ReviveWrapped(digits);
    assert Find([inner], BIG_INT_KEY) == Some(inner.value);
  }

  lemma {:induction false} ReviveCoin(coin: CoinObject)
    requires forall i :: 0 <= i < |coin| ==> (coin[i].prop.Big? <==> coin[i].name == "value")
    ensures ReviveFields(CoinJson(coin).fields) == Ok(AsMembers(coin))
  {
    if coin != [] {
      ReviveEntry(coin[0]);
      ReviveCoin(coin[1..]);
      assert CoinJson(coin).fields[1..] == CoinJson(coin[1..]).fields;
      assert AsMembers(coin) == [EntryMember(coin[0])] + AsMembers(coin[1..]);
    }
  }

  /** The reviver turns no whole coin into anything else: it is called on it with the empty key. */
  lemma ReviveWhole(coin: CoinObject)
    requires forall i :: 0 <= i < |coin| ==> (coin[i].prop.Big? <==> coin[i].name == "value")
    ensures Revive("", CoinJson(coin)) == Ok(Object(AsMembers(coin)))
  {
    ReviveCoin(coin);
  }

  /** Deserialising the serialised coin returns the coin, property by property and in order. */
  lemma DeserializeSerialize(coin: CoinObject)
    requires IsCoin(coin)
    ensures Serialize(coin).Ok? && Deserialize(Serialize(coin).value) == Ok(Object(AsMembers(coin)))
  {
    CoinSerialises(coin);
    CoinJsonWellFormed(coin);
    ParseStringify(CoinJson(coin));
    ReviveWhole(coin);
    forall i | 0 <= i < |AsMembers(coin)| ensures CoinKey(AsMembers(coin)[i].name) {
      assert AsMembers(coin)[i].name == coin[i].name;
    }
  }

  lemma AsMembersInjective(a: CoinObject, b: CoinObject)
    requires AsMembers(a) == AsMembers(b)
    ensures a == b
  {
    assert |a| == |b|;
    forall i | 0 <= i < |a| ensures a[i] == b[i] {
      assert EntryMember(a[i]) == AsMembers(a)[i] == AsMembers(b)[i] == EntryMember(b[i]);
    }
  }

  /** Two coins share a key exactly when they are the same properties in the same order. */
  lemma KeysAgreeIff(a: CoinObject, b: CoinObject)
    requires IsCoin(a) && IsCoin(b)
    ensures Serialize(a) == Serialize(b) <==> a == b
  {
    if Serialize(a) == Serialize(b) {
      DeserializeSerialize(a);
      DeserializeSerialize(b);
      AsMembersInjective(a, b);
    }
  }

  /** A qualified coin: a coin with an `mt_index` somewhere among its properties. */
  predicate IsQualifiedCoin(coin: CoinObject) {
    && DistinctKeys(coin) && IsCoin(DropIndex(coin))
    && exists i :: 0 <= i < |coin| && coin[i].name == "mt_index" && coin[i].prop.Big?
  }

  /** Two qualified coins share a key exactly when they differ at most in `mt_index`. */
  lemma QualifiedKeysAgreeIff(a: CoinObject, b: CoinObject)
    requires IsQualifiedCoin(a) && IsQualifiedCoin(b)
    ensures SerializeQualified(a) == SerializeQualified(b) <==> DropIndex(a) == DropIndex(b)
  {
    KeysAgreeIff(DropIndex(a), DropIndex(b));
  }

  lemma ThreeProperties(coin: CoinObject)
    requires |coin| == 3 && coin[2].name == "value" && coin[2].prop.Big? && coin[0].prop.Text? && coin[1].prop.Text?
    requires (coin[0].name == "type" && coin[1].name == "nonce") || (coin[0].name == "nonce" && coin[1].name == "type")
    ensures IsCoin(coin)
  {
    if coin[0].name == "type" {
      assert coin[0].name == "type" && coin[1].name == "nonce";
    } else {
      assert coin[1].name == "type" && coin[0].name == "nonce";
    }
  }

  /** The order of the properties is part of the key: the same coin listed in two orders has two keys. */
  lemma FieldOrderSplitsKeys(tokenType: string, nonce: string, value: int)
    ensures var a := [Entry("type", Text(tokenType)), Entry("nonce", Text(nonce)), Entry("value", Big(value))];
      var b := [Entry("nonce", Text(nonce)), Entry("type", Text(tokenType)), Entry("value", Big(value))];
      IsCoin(a) && IsCoin(b) && multiset(a) == multiset(b) && Serialize(a) != Serialize(b)
  {
    var t, n, v := Entry("type", Text(tokenType)), Entry("nonce", Text(nonce)), Entry("value", Big(value));
    var a, b := [t, n, v], [n, t, v];
    assert a[0] == t && b[0] == n;
    ThreeProperties(a);
    ThreeProperties(b);
    KeysAgreeIff(a, b);
  }

  /** Exactly the properties named `mt_index` are dropped, and the order of the others stays. */
  lemma {:induction false} DropIndexMeaning(front: CoinObject, index: Prop, back: CoinObject)
    ensures !HasProperty(front, "mt_index") ==> DropIndex(front) == front
    ensures !HasProperty(front, "mt_index") && !HasProperty(back, "mt_index") ==>
              DropIndex(front + [Entry("mt_index", index)] + back) == front + back
  {
    var all := front + [Entry("mt_index", index)] + back;
    if front == [] {
      assert all[0].name == "mt_index" && all[1..] == back;
      if back != [] && !HasProperty(back, "mt_index") {
        DropNothing(back);
      }
      assert front + back == back;
    } else if !HasProperty(front, "mt_index") {
      assert front[0].name != "mt_index";
      forall i | 0 <= i < |front[1..]| ensures front[1..][i].name != "mt_index" {
        assert front[1..][i] == front[i + 1];
      }
      DropIndexMeaning(front[1..], index, back);
      assert all[0] == front[0] && all[1..] == front[1..] + [Entry("mt_index", index)] + back;
      assert [front[0]] + (front[1..] + back) == front + back;
    }
  }

  lemma {:induction false} DropNothing(coin: CoinObject)
    requires !HasProperty(coin, "mt_index")
    ensures DropIndex(coin) == coin
  {
    if coin != [] {
      assert coin[0].name != "mt_index";
      forall i | 0 <= i < |coin[1..]| ensures coin[1..][i].name != "mt_index" {
        assert coin[1..][i] == coin[i + 1];
      }
      DropNothing(coin[1..]);
    }
  }

  // What is refused

  predicate HasProperty(coin: CoinObject, name: string) {
    exists i :: 0 <= i < |coin| && coin[i].name == name
  }

  lemma {:induction false} LookupIff(coin: CoinObject, name: string)
    ensures Lookup(coin, name).Some? <==> HasProperty(coin, name)
  {
    if coin != [] {
      LookupIff(coin[1..], name);
      if i :| 0 <= i < |coin| && coin[i].name == name {
        assert i > 0 ==> coin[1..][i - 1] == coin[i];
      }
      if HasProperty(coin[1..], name) {
        var i :| 0 <= i < |coin[1..]| && coin[1..][i].name == name;
        assert coin[i + 1].name == name;
      }
    }
  }

  /** A foreign property is refused first, then a missing value, then a bigint that is not the value; nothing else is. */
  lemma SerializeOutcome(coin: CoinObject)
    ensures Serialize(coin)
            == if exists i :: 0 <= i < |coin| && coin[i].name !in {"type", "nonce", "value"} then Err(UnexpectedKey)
               else if !HasProperty(coin, "value") then Err(MissingValue)
               else if exists i :: 0 <= i < |coin| && coin[i].name != "value" && coin[i].prop.Big? then Err(NotSerialisable)
               else Ok(Stringify(CoinJson(coin)))
  {
    LookupIff(coin, "value");
    assert CheckKeys(coin) <==> !exists i :: 0 <= i < |coin| && coin[i].name !in {"type", "nonce", "value"};
  }

  lemma FindOnly(name: string, v: Value)
    ensures Find([Member(name, v)], name) == Some(v)
    ensures forall other :: other != name ==> Find([Member(name, v)], other) == None
  {
    assert [Member(name, v)][1..] == [];
  }

  /** A wrapped bigint is revived under `value` only. */
  lemma BigIntRevived(key: string, text: string)
    ensures Revive(key, Obj([Field("__big_int_val__", Str(text))]))
            == if key != "value" then Ok(Object([Member("__big_int_val__", Plain(Str(text)))]))
               else if BigIntOf(text).Some? then Ok(BigInt(BigIntOf(text).value)) else Err(BadBigInt)
  {
    ReviveWrapped(text);
    FindOnly(BIG_INT_KEY, Plain(Str(text)));
    assert BYTES_KEY[2] != BIG_INT_KEY[2];
  }

  /** Wrapped bytes are revived under `color` and `nonce` only. */
  lemma BytesRevived(key: string, text: string)
    ensures Revive(key, Obj([Field("__uint8Array_val__", Str(text))]))
            == if key == "color" || key == "nonce" then Ok(Bytes(HexUtils.FromHex(text)))
               else Ok(Object([Member("__uint8Array_val__", Plain(Str(text)))]))
  {
    var ms := [Member(BYTES_KEY, Plain(Str(text)))];
    assert [Field(BYTES_KEY, Str(text))][1..] == [] && ms + [] == ms;
    assert ReviveFields([Field(BYTES_KEY, Str(text))]) == Ok(ms);
    FindOnly(BYTES_KEY, Plain(Str(text)));
    assert BYTES_KEY[2] != BIG_INT_KEY[2];
  }

  predicate AllText(fields: seq<Field>) {
    forall i :: 0 <= i < |fields| ==> fields[i].value.Str?
  }

  lemma {:induction false} TextRevived(fields: seq<Field>)
    requires AllText(fields)
    ensures ReviveFields(fields).Ok? && |ReviveFields(fields).value| == |fields|
    ensures forall i :: 0 <= i < |fields| ==> ReviveFields(fields).value[i] == Member(fields[i].name, Plain(fields[i].value))
  {
    if fields != [] {
      TextRevived(fields[1..]);
      assert forall i :: 0 < i < |fields| ==> fields[i] == fields[1..][i - 1];
    }
  }

  /** Deserialising an object refuses it exactly when it has a property that coins do not have. */
  lemma DeserializeRefuses(fields: seq<Field>)
    requires WellFormed(Obj(fields)) && AllText(fields)
    ensures Deserialize(Stringify(Obj(fields))).Ok?
            <==> forall i :: 0 <= i < |fields| ==> fields[i].name in {"type", "nonce", "value"}
    ensures Deserialize(Stringify(Obj(fields))).Err? ==> Deserialize(Stringify(Obj(fields))) == Err(UnexpectedKey)
  {
    ParseStringify(Obj(fields));
    TextRevived(fields);
    var ms := ReviveFields(fields).value;
    TopLevel(ms);
    assert forall i :: 0 <= i < |fields| ==> ms[i].name == fields[i].name;
  }

  /** Of the texts that are no objects it refuses all that have something under a position, and `null`. */
  lemma OtherTexts(v: Json)
    requires WellFormed(v) && !v.Obj?
    ensures Deserialize(Stringify(v)).Ok? <==> v.Bool? || v.Num? || v == Str("") || v == Arr([])
  {
    ParseStringify(v);
    if v.Arr? {
      ReviveLength(v.elems, 0);
    }
  }

  lemma {:induction false} ReviveLength(elems: seq<Json>, index: nat)
    ensures ReviveElems(elems, index).Ok? ==> |ReviveElems(elems, index).value| == |elems|
  {
    if elems != [] {
      ReviveLength(elems[1..], index + 1);
    }
  }

  /** A value that is a text already is wrapped and revived as well. */
  lemma TextValueRevived(text: string, n: int)
    requires BigIntOf(text) == Some(n)
    ensures Revive("value", EntryJson(Entry("value", Text(text))).value) == Ok(BigInt(n))
  {
    ReviveBigInt(text, n);
  }

  /** The object itself is not revived. */
  lemma TopLevel(ms: seq<Member>)
    ensures ReviveProperty("", Object(ms)) == Ok(Object(ms))
  {
  }
}
