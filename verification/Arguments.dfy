/**
  Type-directed parsing of command-line arguments. What JSON5 and numbers do is a parameter, the `Host`;
  `N` is the type of JavaScript numbers. A text is `None` when it is `undefined`.
 */
module Arguments {
  import opened Results
  import opened Numerals
  import HexUtils
  import PlatformHex

  // Type nodes

  datatype Type =
    | NumberType
    | BigIntType
    | StringType
    | BooleanType
    | ArrayType(elem: Type)
    | TupleType(elems: seq<Type>)
    | LiteralType(members: seq<Property>)
    | ReferenceType(name: Option<string>)
    | OtherType

  datatype Property = Property(name: string, propType: Type)

  function TypeName(t: Type): string {
    match t
    case NumberType => "number"
    case BigIntType => "bigint"
    case StringType => "string"
    case BooleanType => "boolean"
    case ArrayType(elem) => TypeName(elem) + "[]"
    case TupleType(elems) => "[" + TypeNames(elems) + "]"
    case LiteralType(members) => "{ " + PropertyNames(members) + " }"
    case ReferenceType(Some(name)) => name
    case _ => "<unknown>"
  }

  function TypeNames(ts: seq<Type>): string {
    if ts == [] then ""
    else if |ts| == 1 then TypeName(ts[0])
    else TypeName(ts[0]) + ", " + TypeNames(ts[1..])
  }

  function PropertyNames(ms: seq<Property>): string {
    if ms == [] then ""
    else
      var first := ms[0].name + ": " + TypeName(ms[0].propType);
      if |ms| == 1 then first else first + ", " + PropertyNames(ms[1..])
  }

  /** Nesting depth: the measure on which the parser terminates. */
  function Depth(t: Type): nat {
    match t
    case ArrayType(elem) => 1 + Depth(elem)
    case TupleType(elems) => 1 + DepthAll(elems)
    case LiteralType(members) => 1 + DepthMembers(members)
    case _ => 0
  }

  function Max(a: nat, b: nat): nat {
    if a < b then b else a
  }

  function DepthAll(ts: seq<Type>): nat {
    if ts == [] then 0 else Max(Depth(ts[0]), DepthAll(ts[1..]))
  }

  function DepthMembers(ms: seq<Property>): nat {
    if ms == [] then 0 else Max(Depth(ms[0].propType), DepthMembers(ms[1..]))
  }

  lemma {:induction false} DepthAt(ts: seq<Type>, i: nat)
    requires i < |ts|
    ensures Depth(ts[i]) <= DepthAll(ts)
  {
    if i > 0 {
      DepthAt(ts[1..], i - 1);
    }
  }

  function Repeat(t: Type, n: nat): (ts: seq<Type>)
    ensures |ts| == n && forall i :: 0 <= i < n ==> ts[i] == t
    ensures DepthAll(ts) <= Depth(t)
  {
    if n == 0 then [] else [t] + Repeat(t, n - 1)
  }

  // Values

  datatype Value<N> =
    | Undefined
    | Null
    | Bool(b: bool)
    | Num(n: N)
    | Big(i: int)
    | Str(s: string)
    | Bytes(bytes: seq<HexUtils.byte>)
    | Arr(elems: seq<Value<N>>, extra: seq<Entry<N>>)  // an array may be given named properties too
    | Obj(entries: seq<Entry<N>>)

  datatype Entry<N> = Entry(name: string, value: Value<N>)

  function GetEntry<N>(es: seq<Entry<N>>, name: string): Value<N> {
    if es == [] then Undefined else if es[0].name == name then es[0].value else GetEntry(es[1..], name)
  }

  function SetEntry<N>(es: seq<Entry<N>>, name: string, v: Value<N>): seq<Entry<N>> {
    if es == [] then [Entry(name, v)]
    else if es[0].name == name then [Entry(name, v)] + es[1..]
    else [es[0]] + SetEntry(es[1..], name, v)
  }

  predicate IsObject<N>(v: Value<N>) {
    v.Obj? || v.Arr?
  }

  function Get<N>(v: Value<N>, name: string): Value<N>
    requires IsObject(v)
  {
    GetEntry(if v.Obj? then v.entries else v.extra, name)
  }

  function Set<N>(v: Value<N>, name: string, p: Value<N>): (r: Value<N>)
    requires IsObject(v)
    ensures IsObject(r)
  {
    if v.Obj? then v.(entries := SetEntry(v.entries, name, p)) else v.(extra := SetEntry(v.extra, name, p))
  }

  /** `JSON5.parse`, `JSON5.stringify`, `Number(text)`, NaN, and the number an integer literal reads as. */
  datatype Host<!N> = Host(
    parse: string -> Option<Value<N>>,
    stringify: Value<N> -> Option<string>,
    number: string -> N,
    nan: N,
    ofInt: int -> N)

  // The parser

  datatype Cause = SyntaxError | TypeError | BadHex(hexError: PlatformHex.ParseError) | Nested(error: ArgError)

  datatype ArgError =
    | WrongCount(expected: nat, actual: nat)
    | AtIndex(index: nat, text: Option<string>, typeName: string, cause: Cause)

  function RemoveQuotes(s: string): string {
    if s == "" then "" else if s[0] == '\'' then RemoveQuotes(s[1..]) else [s[0]] + RemoveQuotes(s[1..])
  }

  /** An absent text reads as the word `undefined` wherever it is coerced to a string. */
  function Coerce(text: Option<string>): string {
    match text case Some(s) => s case None => "undefined"
  }

  predicate EndsWith(s: string, suffix: string) {
    |suffix| <= |s| && s[|s| - |suffix|..] == suffix
  }

  /** The pattern `^true|false$`: each anchor binds one alternative only. */
  predicate TrueOrFalse(s: string) {
    "true" <= s || EndsWith(s, "false")
  }

  function Nest<T>(r: Result<T, ArgError>): Result<T, Cause> {
    match r case Ok(v) => Ok(v) case Err(error) => Err(Nested(error))
  }

  function Texts<N>(h: Host<N>, vs: seq<Value<N>>): seq<Option<string>> {
    seq(|vs|, i requires 0 <= i < |vs| => h.stringify(vs[i]))
  }

  /** A type without parts: everything but arrays, tuples and object literals. */
  function ParseScalar<N>(h: Host<N>, t: Type, text: Option<string>, quoted: bool): Result<Value<N>, Cause>
    requires !t.ArrayType? && !t.TupleType? && !t.LiteralType?
  {
    match t
    case NumberType => Ok(Num(if text.Some? then h.number(text.value) else h.nan))
    case BigIntType =>
      if text.None? then Err(TypeError)
      else (match BigIntOf(text.value) case Some(i) => Ok(Big(i)) case None => Err(SyntaxError))
    case StringType =>
      if text.None? then (if quoted then Err(TypeError) else Ok(Undefined))
      else Ok(Str(if quoted then RemoveQuotes(text.value) else text.value))
    case BooleanType =>
      if TrueOrFalse(Coerce(text)) then Ok(Bool(text == Some("true"))) else Err(SyntaxError)
    case ReferenceType(Some(name)) =>
      if name != "Uint8Array" then Ok(Undefined)
      else if text.None? then Err(if quoted then TypeError else BadHex(PlatformHex.EmptySource))
      else
        (match PlatformHex.ParseHex(if quoted then RemoveQuotes(text.value) else text.value)
         case Ok(p) => Ok(Bytes(HexUtils.FromHex(p.byteChars)))
         case Err(error) => Err(BadHex(error)))
    case _ => Ok(Undefined)
  }

  function ParseOne<N>(h: Host<N>, t: Type, text: Option<string>, quoted: bool): Result<Value<N>, Cause>
    decreases Depth(t), 0, 0
  {
    match t
    case ArrayType(elem) =>
      (match h.parse(Coerce(text))
       case Some(Arr(elems, _)) =>
         var vs :- Nest(Transform(h, Texts(h, elems), Repeat(elem, |elems|), true));
         Ok(Arr(vs, []))
       case _ => Err(SyntaxError))
    case TupleType(types) =>
      (match h.parse(Coerce(text))
       case Some(Arr(elems, _)) =>
         var vs :- Nest(Transform(h, Texts(h, elems), types, true));
         Ok(Arr(vs, []))
       case _ => Err(SyntaxError))
    case LiteralType(members) =>
      (match h.parse(Coerce(text))
       case Some(Null) => if members == [] then Ok(Null) else Err(TypeError)
       case Some(v) => if IsObject(v) then SetMembers(h, v, members) else Err(SyntaxError)
       case None => Err(SyntaxError))
    case _ => ParseScalar(h, t, text, quoted)
  }

  /** The loop over the members of an object literal, which overwrites the parsed object's properties one by one. */
  function SetMembers<N>(h: Host<N>, obj: Value<N>, members: seq<Property>): (r: Result<Value<N>, Cause>)
    requires IsObject(obj)
    ensures r.Ok? ==> IsObject(r.value)
    decreases DepthMembers(members), 3, |members|
  {
    if members == [] then Ok(obj)
    else
      var m := members[0];
      MemberDepth(members, 0);
      var vs :- Nest(Transform(h, [h.stringify(Get(obj, m.name))], [m.propType], true));
      SetMembers(h, Set(obj, m.name, vs[0]), members[1..])
  }

  function TransformFrom<N>(h: Host<N>, texts: seq<Option<string>>, types: seq<Type>, quoted: bool, idx: nat)
    : (r: Result<seq<Value<N>>, ArgError>)
    requires |texts| == |types| && idx <= |types|
    ensures r.Ok? ==> |r.value| == |types| - idx
    decreases DepthAll(types), 1, |types| - idx
  {
    if idx == |types| then Ok([])
    else
      DepthAt(types, idx);
      match ParseOne(h, types[idx], texts[idx], quoted)
      case Err(cause) => Err(AtIndex(idx, texts[idx], TypeName(types[idx]), cause))
      case Ok(v) =>
        var rest :- TransformFrom(h, texts, types, quoted, idx + 1);
        Ok([v] + rest)
  }

  /** What `transformParams` returns. */
  function Transform<N>(h: Host<N>, texts: seq<Option<string>>, types: seq<Type>, quoted: bool)
    : (r: Result<seq<Value<N>>, ArgError>)
    ensures r.Ok? ==> |r.value| == |texts| == |types|
    decreases DepthAll(types), 2, 0
  {
    if |texts| != |types| then Err(WrongCount(|types|, |texts|)) else TransformFrom(h, texts, types, quoted, 0)
  }

  function Prepend<T, E>(front: seq<T>, r: Result<seq<T>, E>): Result<seq<T>, E> {
    match r case Ok(rest) => Ok(front + rest) case Err(error) => Err(error)
  }

  lemma PrependSnoc<T, E>(front: seq<T>, v: T, r: Result<seq<T>, E>)
    ensures Prepend([], r) == r
    ensures Prepend(front + [v], r) == Prepend(front, Prepend([v], r))
  {
    if r.Ok? {
      assert [] + r.value == r.value;
      assert (front + [v]) + r.value == front + ([v] + r.value);
    }
  }

  method TransformParams<N>(h: Host<N>, texts: seq<Option<string>>, types: seq<Type>, quoted: bool)
    returns (r: Result<seq<Value<N>>, ArgError>)
    ensures r == Transform(h, texts, types, quoted)
    decreases DepthAll(types), 2
  {
    if |texts| != |types| {
      return Err(WrongCount(|types|, |texts|));
    }
    var transformed: seq<Value<N>> := [];
    PrependSnoc([], Undefined, Transform(h, texts, types, quoted));
    for idx := 0 to |types|
      invariant Transform(h, texts, types, quoted) == Prepend(transformed, TransformFrom(h, texts, types, quoted, idx))
    {
      DepthAt(types, idx);
      var arg := ParseArgument(h, types[idx], texts[idx], quoted);
      if arg.Err? {
        return Err(AtIndex(idx, texts[idx], TypeName(types[idx]), arg.error));
      }
      PrependSnoc(transformed, arg.value, TransformFrom(h, texts, types, quoted, idx + 1));
      transformed := transformed + [arg.value];
    }
    assert transformed + [] == transformed;
    r := Ok(transformed);
  }

  method ParseArgument<N>(h: Host<N>, t: Type, text: Option<string>, quoted: bool) returns (r: Result<Value<N>, Cause>)
    ensures r == ParseOne(h, t, text, quoted)
    decreases Depth(t), 0
  {
    if !t.ArrayType? && !t.TupleType? && !t.LiteralType? {
      return ParseScalar(h, t, text, quoted);
    }
    var src := h.parse(Coerce(text));
    if src.None? {
      return Err(SyntaxError);
    }
    if !t.LiteralType? {
      if !src.value.Arr? {
        return Err(SyntaxError);
      }
      var elems := src.value.elems;
      var types := if t.ArrayType? then Repeat(t.elem, |elems|) else t.elems;
      var vs := TransformParams(h, Texts(h, elems), types, true);
      return match vs case Ok(values) => Ok(Arr(values, [])) case Err(error) => Err(Nested(error));
    }
    if src.value.Null? {
      return if t.members == [] then Ok(Null) else Err(TypeError);
    }
    if !IsObject(src.value) {
      return Err(SyntaxError);
    }
    var srcObj := src.value;
    for k := 0 to |t.members|
      invariant IsObject(srcObj)
      invariant SetMembers(h, src.value, t.members) == SetMembers(h, srcObj, t.members[k..])
    {
      var m := t.members[k];
      MemberDepth(t.members, k);
      var vs := TransformParams(h, [h.stringify(Get(srcObj, m.name))], [m.propType], true);
      if vs.Err? {
        return Err(Nested(vs.error));
      }
      srcObj := Set(srcObj, m.name, vs.value[0]);
    }
    r := Ok(srcObj);
  }

  lemma {:induction false} MemberDepth(ms: seq<Property>, i: nat)
    requires i < |ms|
    ensures Depth(ms[i].propType) <= DepthMembers(ms)
    ensures DepthAll([ms[i].propType]) == Depth(ms[i].propType)
  {
    if i > 0 {
      MemberDepth(ms[1..], i - 1);
    }
  }
}
