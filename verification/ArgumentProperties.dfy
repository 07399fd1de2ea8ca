/** Soundness of argument parsing for every host, and which argument is blamed. */
module ArgumentProperties {
  import opened Results
  import opened Numerals
  import opened Arguments
  import opened Seqs
  import HexPattern
  import HexUtils
  import PlatformHex

  // Soundness

  /** Property names that are ordinary own properties of objects and arrays alike. */
  predicate OrdinaryName(name: string) {
    name != "__proto__" && name != "length" && !(name != "" && AllDigits(name, 10))
  }

  predicate DistinctMembers(ms: seq<Property>) {
    forall i, j :: 0 <= i < j < |ms| ==> ms[i].name != ms[j].name
  }

  /** Types built only from the kinds the parser handles; an object literal declares at least one property. */
  predicate Supported(t: Type) {
    match t
    case ArrayType(elem) => Supported(elem)
    case TupleType(elems) => forall i :: 0 <= i < |elems| ==> Supported(elems[i])
    case LiteralType(ms) =>
      ms != [] && DistinctMembers(ms) && forall i :: 0 <= i < |ms| ==> OrdinaryName(ms[i].name) && Supported(ms[i].propType)
    case ReferenceType(name) => name == Some("Uint8Array")
    case OtherType => false
    case _ => true
  }

  /** The value belongs to the type, recursively. Object types are structural. */
  predicate Inhabits<N>(v: Value<N>, t: Type)
    decreases t
  {
    match t
    case NumberType => v.Num?
    case BigIntType => v.Big?
    case StringType => v.Str?
    case BooleanType => v.Bool?
    case ArrayType(elem) => v.Arr? && v.extra == [] && forall i :: 0 <= i < |v.elems| ==> Inhabits(v.elems[i], elem)
    case TupleType(elems) =>
      v.Arr? && v.extra == [] && |v.elems| == |elems| && forall i :: 0 <= i < |elems| ==> Inhabits(v.elems[i], elems[i])
    case LiteralType(ms) => IsObject(v) && forall i :: 0 <= i < |ms| ==> Inhabits(Get(v, ms[i].name), ms[i].propType)
    case ReferenceType(_) => v.Bytes?
    case OtherType => false
  }

  lemma {:induction false} GetSetEntry<N>(es: seq<Entry<N>>, name: string, v: Value<N>, other: string)
    ensures GetEntry(SetEntry(es, name, v), other) == if other == name then v else GetEntry(es, other)
  {
    if es != [] {
      GetSetEntry(es[1..], name, v, other);
    }
  }

  lemma GetSet<N>(obj: Value<N>, name: string, v: Value<N>, other: string)
    requires IsObject(obj)
    ensures Get(Set(obj, name, v), other) == if other == name then v else Get(obj, other)
  {
    GetSetEntry(if obj.Obj? then obj.entries else obj.extra, name, v, other);
  }

  lemma {:induction false} ParseOneSound<N>(h: Host<N>, t: Type, text: Option<string>, quoted: bool)
    requires Supported(t) && (quoted || text.Some?)
    requires ParseOne(h, t, text, quoted).Ok?
    ensures Inhabits(ParseOne(h, t, text, quoted).value, t)
    decreases Depth(t), 0, 0
  {
    match t
    case ArrayType(elem) =>
      var elems := h.parse(Coerce(text)).value.elems;
      TransformSound(h, Texts(h, elems), Repeat(elem, |elems|), true);
    case TupleType(types) =>
      TransformSound(h, Texts(h, h.parse(Coerce(text)).value.elems), types, true);
    case LiteralType(members) =>
      SetMembersSound(h, h.parse(Coerce(text)).value, members, members, 0);
    case _ =>
  }

  lemma {:induction false} TransformFromSound<N>(h: Host<N>, texts: seq<Option<string>>, types: seq<Type>, quoted: bool, idx: nat)
    requires |texts| == |types| && idx <= |types|
    requires forall i :: 0 <= i < |types| ==> Supported(types[i]) && (quoted || texts[i].Some?)
    requires TransformFrom(h, texts, types, quoted, idx).Ok?
    ensures forall i :: idx <= i < |types| ==> Inhabits(TransformFrom(h, texts, types, quoted, idx).value[i - idx], types[i])
    decreases DepthAll(types), 1, |types| - idx
  {
    if idx < |types| {
      DepthAt(types, idx);
      ParseOneSound(h, types[idx], texts[idx], quoted);
      TransformFromSound(h, texts, types, quoted, idx + 1);
    }
  }

  /** Whenever parsing succeeds there is one value per declared type and each inhabits its type. */
  lemma {:induction false} TransformSound<N>(h: Host<N>, texts: seq<Option<string>>, types: seq<Type>, quoted: bool)
    requires forall i :: 0 <= i < |types| ==> Supported(types[i])
    requires quoted || forall i :: 0 <= i < |texts| ==> texts[i].Some?
    requires Transform(h, texts, types, quoted).Ok?
    ensures |Transform(h, texts, types, quoted).value| == |types|
    ensures forall i :: 0 <= i < |types| ==> Inhabits(Transform(h, texts, types, quoted).value[i], types[i])
    decreases DepthAll(types), 2, 0
  {
    TransformFromSound(h, texts, types, quoted, 0);
  }

  lemma {:induction false} SetMembersSound<N>(h: Host<N>, obj: Value<N>, all: seq<Property>, rest: seq<Property>, done: nat)
    requires IsObject(obj) && SetMembers(h, obj, rest).Ok?
    requires done <= |all| && rest == all[done..] && DistinctMembers(all)
    requires forall i :: 0 <= i < |all| ==> Supported(all[i].propType)
    requires forall i :: 0 <= i < done ==> Inhabits(Get(obj, all[i].name), all[i].propType)
    ensures forall i :: 0 <= i < |all| ==> Inhabits(Get(SetMembers(h, obj, rest).value, all[i].name), all[i].propType)
    decreases DepthMembers(rest), 3, |rest|
  {
    if rest != [] {
      var m := rest[0];
      var texts := [h.stringify(Get(obj, m.name))];
      MemberDepth(rest, 0);
      TransformSound(h, texts, [m.propType], true);
      var v := Transform(h, texts, [m.propType], true).value[0];
      forall i | 0 <= i < done + 1 ensures Inhabits(Get(Set(obj, m.name, v), all[i].name), all[i].propType) {
        GetSet(obj, m.name, v, all[i].name);
      }
      SetMembersSound(h, Set(obj, m.name, v), all, rest[1..], done + 1);
    }
  }

  // Which argument is blamed

  /** The error names the first argument, from `from` on, that does not parse, with its text, type and cause. */
  predicate FirstFailure<N(==)>(h: Host<N>, texts: seq<Option<string>>, types: seq<Type>, quoted: bool, from: nat, error: ArgError)
    requires |texts| == |types|
  {
    && error.AtIndex? && from <= error.index < |types|
    && error.text == texts[error.index] && error.typeName == TypeName(types[error.index])
    && ParseOne(h, types[error.index], texts[error.index], quoted) == Err(error.cause)
    && forall i :: from <= i < error.index ==> ParseOne(h, types[i], texts[i], quoted).Ok?
  }

  lemma {:induction false} BlamesFirstFrom<N>(h: Host<N>, texts: seq<Option<string>>, types: seq<Type>, quoted: bool, from: nat)
    requires |texts| == |types| && from <= |types|
    ensures var r := TransformFrom(h, texts, types, quoted, from);
      if r.Err? then FirstFailure(h, texts, types, quoted, from, r.error)
      else forall i :: from <= i < |types| ==> ParseOne(h, types[i], texts[i], quoted) == Ok(r.value[i - from])
    decreases |types| - from
  {
    if from < |types| {
      BlamesFirstFrom(h, texts, types, quoted, from + 1);
    }
  }

  /** Parsing fails for a wrong count, or for the first argument that does not parse, and for nothing else. */
  lemma BlamesFirst<N>(h: Host<N>, texts: seq<Option<string>>, types: seq<Type>, quoted: bool)
    ensures var r := Transform(h, texts, types, quoted);
      if |texts| != |types| then r == Err(WrongCount(|types|, |texts|))
      else if r.Err? then FirstFailure(h, texts, types, quoted, 0, r.error)
      else forall i :: 0 <= i < |types| ==> ParseOne(h, types[i], texts[i], quoted) == Ok(r.value[i])
  {
    if |texts| == |types| {
      BlamesFirstFrom(h, texts, types, quoted, 0);
    }
  }

  // What is read and what is refused

  /** A byte string is read from every hex text, prefixed or not, and from nothing else: its whole bytes, in either case. */
  lemma BytesIff<N>(h: Host<N>, text: string, quoted: bool)
    ensures var source := if quoted then RemoveQuotes(text) else text;
      var r := ParseOne(h, ReferenceType(Some("Uint8Array")), Some(text), quoted);
      if HexPattern.IsHexText(source)
      then r.Ok? && r.value.Bytes? && HexUtils.ToHex(r.value.bytes) == HexUtils.LowerCase(HexPattern.Body(source))
      else r == Err(BadHex(PlatformHex.ParseHex(source).error))
  {
    PlatformHex.ParsedBytes(if quoted then RemoveQuotes(text) else text);
  }

  /** What an absent text gives, as a member that the object does not have does. */
  lemma AbsentText<N>(h: Host<N>, quoted: bool)
    ensures ParseOne(h, NumberType, None, quoted) == Ok(Num(h.nan))
    ensures ParseOne(h, BigIntType, None, quoted) == Err(TypeError)
    ensures ParseOne(h, StringType, None, quoted) == if quoted then Err(TypeError) else Ok(Undefined)
    ensures ParseOne(h, BooleanType, None, quoted) == Err(SyntaxError)
    ensures ParseOne(h, ReferenceType(Some("Uint8Array")), None, quoted)
            == Err(if quoted then TypeError else BadHex(PlatformHex.EmptySource))
  {
    assert Coerce(None) == "undefined" && "undefined"[8] == 'd' && "undefined"[0] == 'u';
    assert "false"[4] == 'e' && "true"[0] == 't';
  }

  function NoApostrophe(): char -> bool {
    (c: char) => c != '\''
  }

  /** Unquoting takes every apostrophe out, and nothing else. */
  lemma {:induction false} UnquotedText(s: string)
    ensures RemoveQuotes(s) == Filter(NoApostrophe(), s)
  {
    if s != "" {
      UnquotedText(s[1..]);
    }
  }

  /** Only strings and byte strings are unquoted; a bigint is read from every text that `BigInt` reads. */
  lemma TextsRead<N>(h: Host<N>, before: string, t: string, after: string, quoted: bool)
    requires Blank(before) && Bare(t) && Blank(after)
    ensures var text := before + t + after;
      && ParseOne(h, NumberType, Some(text), quoted) == Ok(Num(h.number(text)))
      && (forall n :: ParseOne(h, BigIntType, Some(text), quoted) == Ok(Big(n)) <==> Denotes(t, n))
      && (ParseOne(h, BigIntType, Some(text), quoted).Err? ==> ParseOne(h, BigIntType, Some(text), quoted) == Err(SyntaxError))
      && ParseOne(h, StringType, Some(text), quoted) == Ok(Str(if quoted then Filter(NoApostrophe(), text) else text))
  {
    UnquotedText(before + t + after);
    forall n ensures BigIntOf(before + t + after) == Some(n) <==> Denotes(t, n) {
      BigIntOfIff(before, t, after, n);
    }
  }

  /** A type that the parser does not know gives nothing, and no error. */
  lemma UnknownTypes<N>(h: Host<N>, name: string, text: Option<string>, quoted: bool)
    ensures ParseOne(h, OtherType, text, quoted) == ParseOne(h, ReferenceType(None), text, quoted) == Ok(Undefined)
    ensures name != "Uint8Array" ==> ParseOne(h, ReferenceType(Some(name)), text, quoted) == Ok(Undefined)
  {
  }

  /** A list type refuses a text that is no array, a wrong number of elements, and otherwise blames the first bad element. */
  lemma ListRefusal<N>(h: Host<N>, t: Type, text: Option<string>, quoted: bool)
    requires t.ArrayType? || t.TupleType?
    ensures var value, r := h.parse(Coerce(text)), ParseOne(h, t, text, quoted);
      if value.None? || !value.value.Arr? then r == Err(SyntaxError)
      else
        var texts := Texts(h, value.value.elems);
        var types := if t.ArrayType? then Repeat(t.elem, |texts|) else t.elems;
        if |texts| != |types| then r == Err(Nested(WrongCount(|types|, |texts|)))
        else r.Err? ==> r.error.Nested? && FirstFailure(h, texts, types, true, 0, r.error.error)
  {
    var value := h.parse(Coerce(text));
    if value.Some? && value.value.Arr? {
      var texts := Texts(h, value.value.elems);
      BlamesFirst(h, texts, if t.ArrayType? then Repeat(t.elem, |texts|) else t.elems, true);
    }
  }

  /** An object literal refuses `null`, if it declares properties, and what is no object. */
  lemma LiteralRefusal<N>(h: Host<N>, ms: seq<Property>, text: Option<string>, quoted: bool)
    ensures var value, r := h.parse(Coerce(text)), ParseOne(h, LiteralType(ms), text, quoted);
      && (value.None? ==> r == Err(SyntaxError))
      && (value == Some(Null) && ms != [] ==> r == Err(TypeError))
      && (value.Some? && !value.value.Null? && !value.value.Obj? && !value.value.Arr? ==> r == Err(SyntaxError))
  {
  }

  /** Otherwise it blames the first member whose text does not parse, as the one argument there is. */
  lemma {:induction false} MemberRefusal<N>(h: Host<N>, obj: Value<N>, ms: seq<Property>)
    requires IsObject(obj) && DistinctMembers(ms) && SetMembers(h, obj, ms).Err?
    ensures exists k :: 0 <= k < |ms| && RefusedAt(h, obj, ms, k, SetMembers(h, obj, ms).error)
    decreases |ms|
  {
    var m, rest := ms[0], ms[1..];
    var texts := [h.stringify(Get(obj, m.name))];
    BlamesFirst(h, texts, [m.propType], true);
    var first := Transform(h, texts, [m.propType], true);
    if first.Err? {
      assert RefusedAt(h, obj, ms, 0, SetMembers(h, obj, ms).error);
    } else {
      var next := Set(obj, m.name, first.value[0]);
      MemberRefusal(h, next, rest);
      var k :| 0 <= k < |rest| && RefusedAt(h, next, rest, k, SetMembers(h, next, rest).error);
      forall i | 0 <= i < |rest| ensures ms[i + 1] == rest[i] && Get(next, rest[i].name) == Get(obj, rest[i].name) {
        GetSet(obj, m.name, first.value[0], rest[i].name);
      }
      assert forall i :: 0 <= i < k + 1 ==> MemberParses(h, obj, ms[i]) by {
        assert forall i :: 0 <= i < k ==> MemberParses(h, next, rest[i]) && MemberParses(h, obj, ms[i + 1]);
      }
      assert RefusedAt(h, obj, ms, k + 1, SetMembers(h, obj, ms).error);
    }
  }

  predicate MemberParses<N>(h: Host<N>, obj: Value<N>, m: Property)
    requires IsObject(obj)
  {
    ParseOne(h, m.propType, h.stringify(Get(obj, m.name)), true).Ok?
  }

  ghost predicate RefusedAt<N>(h: Host<N>, obj: Value<N>, ms: seq<Property>, k: nat, error: Cause)
    requires IsObject(obj) && k < |ms|
  {
    var text := h.stringify(Get(obj, ms[k].name));
    && (forall i :: 0 <= i < k ==> MemberParses(h, obj, ms[i]))
    && var r := ParseOne(h, ms[k].propType, text, true);
       r.Err? && error == Nested(AtIndex(0, text, TypeName(ms[k].propType), r.error))
  }

  // How types are named in messages

  lemma Separated(a: string, b: string, c: string)
    ensures a + ", " + (b + ", " + c) == a + ", " + b + ", " + c && "" + c == c
  {
  }

  lemma NamesFirst(ts: seq<Type>, rest: seq<Type>)
    requires ts != [] && rest == ts[1..]
    ensures TypeNames(ts) == if rest == [] then TypeName(ts[0]) else TypeName(ts[0]) + ", " + TypeNames(rest)
  {
  }

  lemma {:induction false} NamesJoined(ts: seq<Type>, t: Type)
    ensures TypeNames(ts + [t]) == (if ts == [] then "" else TypeNames(ts) + ", ") + TypeName(t)
  {
    if ts == [] {
      NamesFirst([t], []);
      assert ts + [t] == [t];
      Separated("", "", TypeName(t));
    } else {
      var all, rest := ts + [t], ts[1..];
      assert all[0] == ts[0] && all[1..] == rest + [t];
      NamesFirst(all, rest + [t]);
      NamesFirst(ts, rest);
      NamesJoined(rest, t);
      Separated(TypeName(ts[0]), TypeNames(rest), TypeName(t));
    }
  }

  lemma {:induction false} PropertiesJoined(ms: seq<Property>, m: Property)
    ensures PropertyNames(ms + [m]) == (if ms == [] then "" else PropertyNames(ms) + ", ") + (m.name + ": " + TypeName(m.propType))
  {
    var last := m.name + ": " + TypeName(m.propType);
    if ms == [] {
      assert ms + [m] == [m] && "" + last == last;
    } else {
      var all, first := ms + [m], ms[0].name + ": " + TypeName(ms[0].propType);
      assert all[0] == ms[0] && all[1..] == ms[1..] + [m];
      PropertiesJoined(ms[1..], m);
      if |ms| == 1 {
        assert ms[1..] == [] && "" + last == last;
      }
      assert first + ", " + (PropertyNames(ms[1..]) + ", " + last) == first + ", " + PropertyNames(ms[1..]) + ", " + last;
    }
  }

  /** Keywords by themselves, brackets and braces around the rest, and a fixed name where there is none. */
  lemma NamesInMessages(t: Type, ts: seq<Type>, ms: seq<Property>, name: string)
    ensures [TypeName(NumberType), TypeName(BigIntType), TypeName(StringType), TypeName(BooleanType)]
            == ["number", "bigint", "string", "boolean"]
    ensures TypeName(ArrayType(t)) == TypeName(t) + "[]" && TypeName(TupleType(ts + [t])) == "[" + TypeNames(ts + [t]) + "]"
    ensures TypeName(LiteralType(ms)) == "{ " + PropertyNames(ms) + " }"
    ensures TypeName(ReferenceType(Some(name))) == name && TypeName(ReferenceType(None)) == TypeName(OtherType) == "<unknown>"
  {
  }
}
