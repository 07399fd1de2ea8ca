/** Rendering a typed value as text and parsing it again, under the laws of JSON5 and of JavaScript numbers. */
module ArgumentRoundTrip {
  import opened Results
  import opened Numerals
  import opened JsNumbers
  import opened NumberText
  import opened Arguments
  import opened ArgumentProperties
  import HexPattern
  import HexUtils
  import PlatformHex

  // JSON5 string literals

  const APOSTROPHE := '\''
  const DOUBLE_QUOTE := '\"'
  const BACKSLASH := '\\'

  function Count(s: string, c: char): nat {
    if s == "" then 0 else (if s[0] == c then 1 else 0) + Count(s[1..], c)
  }

  /** Characters that JSON5 never writes as themselves inside a string. */
  predicate Escaped(c: char) {
    c == BACKSLASH || c as int < 0x20 || c as int == 0x2028 || c as int == 0x2029
  }

  function EscapeText(c: char, rest: string): string
    requires Escaped(c)
  {
    var code := c as int;
    if c == BACKSLASH then [BACKSLASH, BACKSLASH]
    else if code == 0 then
      if rest != "" && IsDigit(rest[0], 10) then [BACKSLASH, 'x', '0', '0'] else [BACKSLASH, '0']
    else if code == 8 then [BACKSLASH, 'b']
    else if code == 9 then [BACKSLASH, 't']
    else if code == 10 then [BACKSLASH, 'n']
    else if code == 11 then [BACKSLASH, 'v']
    else if code == 12 then [BACKSLASH, 'f']
    else if code == 13 then [BACKSLASH, 'r']
    else if code == 0x2028 then [BACKSLASH, 'u', '2', '0', '2', '8']
    else if code == 0x2029 then [BACKSLASH, 'u', '2', '0', '2', '9']
    else [BACKSLASH, 'x', Digit(code / 16), Digit(code % 16)]
  }

  function EscapeAll(s: string, quote: char): string {
    if s == "" then ""
    else
      (if s[0] == quote then [BACKSLASH, quote] else if Escaped(s[0]) then EscapeText(s[0], s[1..]) else [s[0]])
      + EscapeAll(s[1..], quote)
  }

  /** `JSON5.stringify` of a string: in apostrophes unless the string holds more of them than double quotes. */
  function Quote(s: string): string {
    var quote := if Count(s, APOSTROPHE) <= Count(s, DOUBLE_QUOTE) then APOSTROPHE else DOUBLE_QUOTE;
    [quote] + EscapeAll(s, quote) + [quote]
  }

  /** No apostrophe, and nothing JSON5 escapes. */
  predicate Plain(s: string) {
    forall i :: 0 <= i < |s| ==> s[i] != APOSTROPHE && !Escaped(s[i])
  }

  lemma {:induction false} RemoveQuotesConcat(a: string, b: string)
    ensures RemoveQuotes(a + b) == RemoveQuotes(a) + RemoveQuotes(b)
  {
    if a == "" {
      assert a + b == b;
    } else {
      var first := if a[0] == APOSTROPHE then "" else [a[0]];
      RemoveQuotesConcat(a[1..], b);
      assert (a + b)[0] == a[0] && (a + b)[1..] == a[1..] + b;
      assert first + (RemoveQuotes(a[1..]) + RemoveQuotes(b)) == first + RemoveQuotes(a[1..]) + RemoveQuotes(b);
    }
  }

  lemma {:induction false} RemoveQuotesFree(s: string)
    ensures APOSTROPHE !in RemoveQuotes(s)
    ensures APOSTROPHE !in s ==> RemoveQuotes(s) == s
  {
    if s != "" {
      RemoveQuotesFree(s[1..]);
    }
  }

  lemma {:induction false} EscapeGrows(s: string)
    requires APOSTROPHE !in s
    ensures APOSTROPHE !in EscapeAll(s, APOSTROPHE)
    ensures Plain(s) ==> EscapeAll(s, APOSTROPHE) == s
    ensures !Plain(s) ==> |EscapeAll(s, APOSTROPHE)| > |s|
    ensures |EscapeAll(s, APOSTROPHE)| >= |s|
  {
    if s != "" {
      assert s[0] != APOSTROPHE;
      EscapeGrows(s[1..]);
      assert Plain(s) <==> !Escaped(s[0]) && Plain(s[1..]);
      if Escaped(s[0]) {
        EscapeTextShape(s[0], s[1..]);
      }
    }
  }

  lemma EscapeTextShape(c: char, rest: string)
    requires Escaped(c)
    ensures |EscapeText(c, rest)| >= 2 && APOSTROPHE !in EscapeText(c, rest)
  {
    var code := c as int;
    if 0x10 <= code < 0x20 || code < 0x10 {
      assert DigitValue(Digit(code / 16)) == code / 16 && DigitValue(Digit(code % 16)) == code % 16;
    }
  }

  lemma {:induction false} CountNone(s: string, c: char)
    requires c !in s
    ensures Count(s, c) == 0
  {
    if s != "" {
      assert s[0] != c;
      CountNone(s[1..], c);
    }
  }

  /** A nested string survives quoting and the removal of apostrophes exactly when it is plain. */
  lemma UnquoteIff(s: string)
    ensures RemoveQuotes(Quote(s)) == s <==> Plain(s)
  {
    RemoveQuotesFree(Quote(s));
    if APOSTROPHE in s {
      var i :| 0 <= i < |s| && s[i] == APOSTROPHE;
      assert !Plain(s);
    } else {
      CountNone(s, APOSTROPHE);
      EscapeGrows(s);
      var body := EscapeAll(s, APOSTROPHE);
      assert Quote(s) == "'" + (body + "'");
      RemoveQuotesConcat("'", body + "'");
      RemoveQuotesConcat(body, "'");
      RemoveQuotesFree(body);
      assert RemoveQuotes("'") == "";
    }
  }

  // The host's laws

  predicate DistinctEntries<N>(es: seq<Entry<N>>) {
    forall i, j :: 0 <= i < j < |es| ==> es[i].name != es[j].name
  }

  predicate IsJson<N>(v: Value<N>) {
    match v
    case Arr(elems, extra) => extra == [] && forall i :: 0 <= i < |elems| ==> IsJson(elems[i])
    case Obj(es) =>
      DistinctEntries(es) && forall i :: 0 <= i < |es| ==> OrdinaryName(es[i].name) && IsJson(es[i].value)
    case Null => true
    case Bool(_) => true
    case Num(_) => true
    case Str(_) => true
    case _ => false
  }

  /**
    The text of the number an integer literal reads as. Below 10^21 it is an integer literal too, in the shortest
    digits; from there it has an exponent or is `Infinity`, which `BigInt` does not read.
   */
  ghost predicate PrintsNumber<N>(h: Host<N>, i: int) {
    if WithoutExponent(i) then h.stringify(Num(h.ofInt(i))) == Some(PrintInt(Shown(i)))
    else BigIntOf(Coerce(h.stringify(Num(h.ofInt(i))))) == None
  }

  /** Text and value correspond; strings are quoted as above and booleans are words. */
  ghost predicate TextLaws<N(!new)>(h: Host<N>) {
    && (forall v :: IsJson(v) ==> h.stringify(v).Some? && h.parse(h.stringify(v).value) == Some(v))
    && (forall s :: h.stringify(Str(s)) == Some(Quote(s)))
    && (forall b :: h.stringify(Bool(b)) == Some(if b then "true" else "false"))
  }

  /** A number's text reads back as the number; an integer literal reads as the nearest double, whose text is as above. */
  ghost predicate NumberLaws<N(!new)>(h: Host<N>) {
    && (forall n :: h.stringify(Num(n)).Some? && h.number(h.stringify(Num(n)).value) == n)
    && (forall i :: h.parse(PrintInt(i)) == Some(Num(h.ofInt(i))))
    && (forall i :: h.ofInt(i) == h.ofInt(Round(i)))
    && (forall i :: PrintsNumber(h, i))
  }

  /** What is assumed of JSON5 and of numbers. */
  ghost predicate Laws<N(!new)>(h: Host<N>) {
    TextLaws(h) && NumberLaws(h)
  }

  // Rendering

  function MemberIndex(ms: seq<Property>, name: string): Option<nat> {
    if ms == [] then None
    else if ms[0].name == name then Some(0)
    else (match MemberIndex(ms[1..], name) case Some(i) => Some(i + 1) case None => None)
  }

  lemma {:induction false} MemberAt(ms: seq<Property>, name: string)
    ensures MemberIndex(ms, name).Some? ==> MemberIndex(ms, name).value < |ms| && ms[MemberIndex(ms, name).value].name == name
    ensures MemberIndex(ms, name).None? ==> forall i :: 0 <= i < |ms| ==> ms[i].name != name
  {
    if ms != [] {
      MemberAt(ms[1..], name);
    }
  }

  /** The entries are the declared properties, each once, in any order. */
  predicate MatchesMembers<N>(es: seq<Entry<N>>, ms: seq<Property>) {
    && DistinctEntries(es) && DistinctMembers(ms)
    && (forall i :: 0 <= i < |ms| ==> OrdinaryName(ms[i].name))
    && (forall i :: 0 <= i < |ms| ==> exists j :: 0 <= j < |es| && es[j].name == ms[i].name)
    && (forall j :: 0 <= j < |es| ==> MemberIndex(ms, es[j].name).Some?)
  }

  /** The place of an entry's name in the declaration. */
  function Place<N>(es: seq<Entry<N>>, ms: seq<Property>, j: nat): (k: nat)
    requires MatchesMembers(es, ms) && j < |es|
    ensures k < |ms| && ms[k].name == es[j].name
  {
    MemberAt(ms, es[j].name);
    MemberIndex(ms, es[j].name).value
  }

  /** Values of a type, with the properties that it declares and no others. */
  predicate HasShape<N>(v: Value<N>, t: Type)
    decreases t
  {
    match t
    case NumberType => v.Num?
    case BigIntType => v.Big?
    case StringType => v.Str?
    case BooleanType => v.Bool?
    case ArrayType(elem) => v.Arr? && v.extra == [] && forall i :: 0 <= i < |v.elems| ==> HasShape(v.elems[i], elem)
    case TupleType(types) =>
      v.Arr? && v.extra == [] && |v.elems| == |types| && forall i :: 0 <= i < |types| ==> HasShape(v.elems[i], types[i])
    case LiteralType(ms) =>
      && v.Obj? && MatchesMembers(v.entries, ms)
      && forall j :: 0 <= j < |v.entries| ==> HasShape(v.entries[j].value, ms[Place(v.entries, ms, j)].propType)
    case ReferenceType(name) => name == Some("Uint8Array") && v.Bytes?
    case OtherType => false
  }

  /** Every string in it is plain, every bigint is printed as itself and no byte string is empty. */
  predicate Survives<N>(v: Value<N>, t: Type)
    requires HasShape(v, t)
    decreases t
  {
    match t
    case BigIntType => PrintedAsItself(v.i)
    case StringType => Plain(v.s)
    case ArrayType(elem) => forall i :: 0 <= i < |v.elems| ==> Survives(v.elems[i], elem)
    case TupleType(types) => forall i :: 0 <= i < |types| ==> Survives(v.elems[i], types[i])
    case LiteralType(ms) =>
      forall j :: 0 <= j < |v.entries| ==> Survives(v.entries[j].value, ms[Place(v.entries, ms, j)].propType)
    case ReferenceType(_) => v.bytes != []
    case _ => true
  }

  predicate Printable<N>(v: Value<N>, t: Type) {
    HasShape(v, t) && Survives(v, t)
  }

  /** The JSON value that stands for a value of a type inside a text. */
  function Render<N>(h: Host<N>, v: Value<N>, t: Type): Value<N>
    requires HasShape(v, t)
    decreases t
  {
    match t
    case BigIntType => Num(h.ofInt(v.i))
    case ArrayType(elem) => Arr(seq(|v.elems|, i requires 0 <= i < |v.elems| => Render(h, v.elems[i], elem)), [])
    case TupleType(types) => Arr(seq(|v.elems|, i requires 0 <= i < |v.elems| => Render(h, v.elems[i], types[i])), [])
    case LiteralType(ms) =>
      Obj(seq(|v.entries|, j requires 0 <= j < |v.entries| =>
        Entry(v.entries[j].name, Render(h, v.entries[j].value, ms[Place(v.entries, ms, j)].propType))))
    case ReferenceType(_) => Str(HexUtils.ToHex(v.bytes))
    case _ => v
  }

  // The round trip of nested values

  lemma TransformStep<N>(h: Host<N>, texts: seq<Option<string>>, types: seq<Type>, quoted: bool, idx: nat,
                         v: Value<N>, rest: seq<Value<N>>)
    requires |texts| == |types| && idx < |types| && ParseOne(h, types[idx], texts[idx], quoted) == Ok(v)
    requires TransformFrom(h, texts, types, quoted, idx + 1) == Ok(rest)
    ensures TransformFrom(h, texts, types, quoted, idx) == Ok([v] + rest)
  {
  }

  lemma {:induction false} TransformAll<N>(h: Host<N>, texts: seq<Option<string>>, types: seq<Type>, quoted: bool,
                                           vs: seq<Value<N>>, idx: nat)
    requires |texts| == |types| == |vs| && idx <= |vs|
    requires forall i :: 0 <= i < |vs| ==> ParseOne(h, types[i], texts[i], quoted) == Ok(vs[i])
    ensures TransformFrom(h, texts, types, quoted, idx) == Ok(vs[idx..])
    decreases |vs| - idx
  {
    if idx == |vs| {
      assert vs[idx..] == [];
    } else {
      assert vs[idx..] == [vs[idx]] + vs[idx + 1..];
      TransformAll(h, texts, types, quoted, vs, idx + 1);
      TransformStep(h, texts, types, quoted, idx, vs[idx], vs[idx + 1..]);
    }
  }

  lemma {:induction false} EntryAt<N>(es: seq<Entry<N>>, p: nat, v: Value<N>)
    requires p < |es| && DistinctEntries(es)
    ensures GetEntry(es, es[p].name) == es[p].value
    ensures SetEntry(es, es[p].name, v) == es[p := Entry(es[p].name, v)]
  {
    if p > 0 {
      assert es[1..][p - 1] == es[p];
      EntryAt(es[1..], p - 1, v);
      assert es[p := Entry(es[p].name, v)] == [es[0]] + es[1..][p - 1 := Entry(es[p].name, v)];
    }
  }

  lemma BytesRoundTrip(bytes: seq<HexUtils.byte>)
    requires bytes != []
    ensures Plain(HexUtils.ToHex(bytes))
    ensures PlatformHex.ParseHex(HexUtils.ToHex(bytes)) == Ok(HexPattern.Parsed(false, HexUtils.ToHex(bytes), ""))
    ensures HexUtils.FromHex(HexUtils.ToHex(bytes)) == bytes
  {
    HexUtils.FromToHex(bytes);
    DigitsArePlainHex(HexUtils.ToHex(bytes));
  }

  lemma DigitsArePlainHex(text: string)
    requires |text| >= 2 && |text| % 2 == 0 && AllDigits(text, 16)
    ensures Plain(text) && PlatformHex.ParseHex(text) == Ok(HexPattern.Parsed(false, text, ""))
  {
    assert IsDigit(text[1], 16) && text[1] != 'x';
    assert !("0x" <= text);
    PlatformHex.ParsersAgree(text);
  }

  lemma {:induction false} RenderIsJson<N>(h: Host<N>, v: Value<N>, t: Type)
    requires HasShape(v, t)
    ensures IsJson(Render(h, v, t))
    decreases t
  {
    match t
    case ArrayType(elem) =>
      forall i | 0 <= i < |v.elems| ensures IsJson(Render(h, v.elems[i], elem)) {
        RenderIsJson(h, v.elems[i], elem);
      }
    case TupleType(types) =>
      forall i | 0 <= i < |types| ensures IsJson(Render(h, v.elems[i], types[i])) {
        RenderIsJson(h, v.elems[i], types[i]);
      }
    case LiteralType(ms) =>
      var before := Render(h, v, t).entries;
      forall j | 0 <= j < |before| ensures OrdinaryName(before[j].name) && IsJson(before[j].value) {
        assert OrdinaryName(ms[Place(v.entries, ms, j)].name);
        RenderIsJson(h, v.entries[j].value, ms[Place(v.entries, ms, j)].propType);
      }
      assert IsJson(Obj(before));
    case _ =>
  }

  /** A nested value of a type without parts, rendered and parsed again, is the same value. */
  lemma ScalarRoundTrip<N(!new)>(h: Host<N>, v: Value<N>, t: Type)
    requires Laws(h) && Printable(v, t)
    requires !t.ArrayType? && !t.TupleType? && !t.LiteralType?
    ensures IsJson(Render(h, v, t))
    ensures ParseOne(h, t, h.stringify(Render(h, v, t)), true) == Ok(v)
  {
    match t
    case StringType => UnquoteIff(v.s);
    case BigIntType =>
      assert PrintsNumber(h, v.i);
      BigIntOfPrint(v.i);
    case ReferenceType(_) =>
      BytesRoundTrip(v.bytes);
      UnquoteIff(HexUtils.ToHex(v.bytes));
    case BooleanType =>
      assert EndsWith("false", "false");
    case _ =>
  }

  /** A list whose elements parse to the values parses to the list of values. */
  lemma ElementsParse<N(!new)>(h: Host<N>, parts: seq<Value<N>>, types: seq<Type>, vs: seq<Value<N>>)
    requires Laws(h) && |parts| == |types| == |vs|
    requires forall i :: 0 <= i < |parts| ==> IsJson(parts[i]) && ParseOne(h, types[i], h.stringify(parts[i]), true) == Ok(vs[i])
    ensures IsJson(Arr(parts, [])) && h.parse(Coerce(h.stringify(Arr(parts, [])))) == Some(Arr(parts, []))
    ensures Transform(h, Texts(h, parts), types, true) == Ok(vs)
  {
    TransformAll(h, Texts(h, parts), types, true, vs, 0);
  }

  /** A nested value, rendered and parsed again, is the same value, at any depth. */
  lemma {:induction false} NestedRoundTrip<N(!new)>(h: Host<N>, v: Value<N>, t: Type)
    requires Laws(h) && Printable(v, t)
    ensures IsJson(Render(h, v, t))
    ensures ParseOne(h, t, h.stringify(Render(h, v, t)), true) == Ok(v)
    decreases t, 1
  {
    RenderIsJson(h, v, t);
    match t
    case ArrayType(elem) =>
      var parts := Render(h, v, t).elems;
      forall i | 0 <= i < |parts| ensures IsJson(parts[i]) && ParseOne(h, elem, h.stringify(parts[i]), true) == Ok(v.elems[i]) {
        NestedRoundTrip(h, v.elems[i], elem);
      }
      ElementsParse(h, parts, Repeat(elem, |parts|), v.elems);
    case TupleType(types) =>
      var parts := Render(h, v, t).elems;
      forall i | 0 <= i < |parts| ensures IsJson(parts[i]) && ParseOne(h, types[i], h.stringify(parts[i]), true) == Ok(v.elems[i]) {
        NestedRoundTrip(h, v.elems[i], types[i]);
      }
      ElementsParse(h, parts, types, v.elems);
    case LiteralType(ms) => MembersRoundTrip(h, v, ms);
    case _ => ScalarRoundTrip(h, v, t);
  }

  function Places<N>(es: seq<Entry<N>>, ms: seq<Property>): (places: seq<nat>)
    requires MatchesMembers(es, ms)
    ensures |places| == |es|
    ensures forall j :: 0 <= j < |es| ==> places[j] == Place(es, ms, j)
  {
    seq(|es|, j requires 0 <= j < |es| => Place(es, ms, j))
  }

  predicate SameNames<N>(before: seq<Entry<N>>, after: seq<Entry<N>>) {
    |before| == |after| && forall j :: 0 <= j < |before| ==> before[j].name == after[j].name
  }

  /** The object when the first `k` members have been overwritten. */
  function Mixed<N>(before: seq<Entry<N>>, after: seq<Entry<N>>, places: seq<nat>, k: nat): seq<Entry<N>>
    requires |before| == |after| == |places|
  {
    seq(|after|, j requires 0 <= j < |after| => if places[j] < k then after[j] else before[j])
  }

  /** Each member of the rendered object parses to the entry of the value. */
  ghost predicate PartsParse<N>(h: Host<N>, before: seq<Entry<N>>, after: seq<Entry<N>>, ms: seq<Property>)
    requires MatchesMembers(after, ms)
  {
    && SameNames(before, after)
    && forall j :: 0 <= j < |after| ==>
         ParseOne(h, ms[Place(after, ms, j)].propType, h.stringify(before[j].value), true) == Ok(after[j].value)
  }

  lemma MixedStep<N>(before: seq<Entry<N>>, after: seq<Entry<N>>, places: seq<nat>, k: nat, p: nat)
    requires SameNames(before, after) && DistinctEntries(after)
    requires p < |places| == |after| && places[p] == k
    requires forall j :: 0 <= j < |places| && j != p ==> places[j] != k
    ensures GetEntry(Mixed(before, after, places, k), after[p].name) == before[p].value
    ensures SetEntry(Mixed(before, after, places, k), after[p].name, after[p].value) == Mixed(before, after, places, k + 1)
  {
    var now := Mixed(before, after, places, k);
    assert forall j :: 0 <= j < |now| ==> now[j].name == after[j].name;
    EntryAt(now, p, after[p].value);
    assert Mixed(before, after, places, k + 1) == now[p := after[p]];
  }

  /** The one entry that stands at the `k`-th member. */
  lemma EntryOfMember<N>(es: seq<Entry<N>>, ms: seq<Property>, k: nat) returns (p: nat)
    requires MatchesMembers(es, ms) && k < |ms|
    ensures p < |es| && es[p].name == ms[k].name && Place(es, ms, p) == k
    ensures forall j :: 0 <= j < |es| && j != p ==> Place(es, ms, j) != k
  {
    var name := ms[k].name;
    p :| 0 <= p < |es| && es[p].name == name;
    forall j | 0 <= j < |es| && j != p ensures Place(es, ms, j) != k {
      assert es[j].name != es[p].name;
    }
  }

  lemma SetMember<N>(h: Host<N>, obj: Value<N>, rest: seq<Property>, v: Value<N>)
    requires IsObject(obj) && rest != []
    requires ParseOne(h, rest[0].propType, h.stringify(Get(obj, rest[0].name)), true) == Ok(v)
    ensures SetMembers(h, obj, rest) == SetMembers(h, Set(obj, rest[0].name, v), rest[1..])
  {
    TransformAll(h, [h.stringify(Get(obj, rest[0].name))], [rest[0].propType], true, [v], 0);
  }

  lemma {:induction false} SetMembersMixed<N>(h: Host<N>, before: seq<Entry<N>>, after: seq<Entry<N>>, ms: seq<Property>, k: nat)
    requires MatchesMembers(after, ms) && PartsParse(h, before, after, ms) && k <= |ms|
    ensures SetMembers(h, Obj(Mixed(before, after, Places(after, ms), k)), ms[k..]) == Ok(Obj(after))
    decreases |ms| - k
  {
    var places := Places(after, ms);
    if k == |ms| {
      assert Mixed(before, after, places, k) == after;
    } else {
      var p := EntryOfMember(after, ms, k);
      MixedStep(before, after, places, k, p);
      SetMember(h, Obj(Mixed(before, after, places, k)), ms[k..], after[p].value);
      assert ms[k..][1..] == ms[k + 1..];
      SetMembersMixed(h, before, after, ms, k + 1);
    }
  }

  lemma MembersRoundTrip<N(!new)>(h: Host<N>, v: Value<N>, ms: seq<Property>)
    requires Laws(h) && Printable(v, LiteralType(ms)) && IsJson(Render(h, v, LiteralType(ms)))
    ensures ParseOne(h, LiteralType(ms), h.stringify(Render(h, v, LiteralType(ms))), true) == Ok(v)
    decreases LiteralType(ms), 0
  {
    var before, after := Render(h, v, LiteralType(ms)).entries, v.entries;
    forall j | 0 <= j < |after|
      ensures before[j].name == after[j].name
      ensures ParseOne(h, ms[Place(after, ms, j)].propType, h.stringify(before[j].value), true) == Ok(after[j].value)
    {
      NestedRoundTrip(h, after[j].value, ms[Place(after, ms, j)].propType);
    }
    SetMembersMixed(h, before, after, ms, 0);
    assert Mixed(before, after, Places(after, ms), 0) == before;
    assert ms[0..] == ms;
  }

  // Only printable values come back

  lemma {:induction false} TransformOk<N>(h: Host<N>, texts: seq<Option<string>>, types: seq<Type>, quoted: bool, idx: nat)
    requires |texts| == |types| && idx <= |types| && TransformFrom(h, texts, types, quoted, idx).Ok?
    ensures var vs := TransformFrom(h, texts, types, quoted, idx).value;
      forall i :: idx <= i < |types| ==> ParseOne(h, types[i], texts[i], quoted) == Ok(vs[i - idx])
    decreases |types| - idx
  {
    if idx < |types| {
      TransformOk(h, texts, types, quoted, idx + 1);
    }
  }

  lemma TransformOnly<N>(h: Host<N>, texts: seq<Option<string>>, types: seq<Type>, quoted: bool, vs: seq<Value<N>>)
    requires |texts| == |types| == |vs| && TransformFrom(h, texts, types, quoted, 0) == Ok(vs)
    ensures forall i :: 0 <= i < |vs| ==> ParseOne(h, types[i], texts[i], quoted) == Ok(vs[i])
  {
    TransformOk(h, texts, types, quoted, 0);
    forall i | 0 <= i < |vs| ensures ParseOne(h, types[i], texts[i], quoted) == Ok(vs[i]) {
      assert vs[i - 0] == vs[i];
    }
  }

  ghost predicate AllParse<N>(h: Host<N>, texts: seq<Option<string>>, types: seq<Type>, quoted: bool, vs: seq<Value<N>>)
    requires |texts| == |types| == |vs|
  {
    forall i :: 0 <= i < |vs| ==> ParseOne(h, types[i], texts[i], quoted) == Ok(vs[i])
  }

  lemma TransformIff<N>(h: Host<N>, texts: seq<Option<string>>, types: seq<Type>, quoted: bool, vs: seq<Value<N>>)
    requires |texts| == |types| == |vs|
    ensures Transform(h, texts, types, quoted) == Ok(vs) <==> AllParse(h, texts, types, quoted, vs)
  {
    if AllParse(h, texts, types, quoted, vs) {
      TransformAll(h, texts, types, quoted, vs, 0);
      assert vs[0..] == vs;
    } else if TransformFrom(h, texts, types, quoted, 0) == Ok(vs) {
      TransformOnly(h, texts, types, quoted, vs);
    }
  }

  predicate Named(ms: seq<Property>, name: string) {
    exists i :: 0 <= i < |ms| && ms[i].name == name
  }

  lemma SetMemberOk<N>(h: Host<N>, obj: Value<N>, m: Property, rest: seq<Property>) returns (v: Value<N>)
    requires IsObject(obj) && SetMembers(h, obj, [m] + rest).Ok?
    ensures ParseOne(h, m.propType, h.stringify(Get(obj, m.name)), true) == Ok(v)
    ensures SetMembers(h, obj, [m] + rest) == SetMembers(h, Set(obj, m.name, v), rest)
  {
    var texts, types := [h.stringify(Get(obj, m.name))], [m.propType];
    assert ([m] + rest)[1..] == rest;
    TransformOk(h, texts, types, true, 0);
    v := Transform(h, texts, types, true).value[0];
  }

  /** Where the member loop succeeds, every declared property has become what its own text parses to, and nothing else has changed. */
  lemma {:induction false} SetMembersOk<N>(h: Host<N>, obj: Value<N>, ms: seq<Property>)
    requires IsObject(obj) && DistinctMembers(ms) && SetMembers(h, obj, ms).Ok?
    ensures var r := SetMembers(h, obj, ms).value;
      && (forall i :: 0 <= i < |ms| ==>
            ParseOne(h, ms[i].propType, h.stringify(Get(obj, ms[i].name)), true) == Ok(Get(r, ms[i].name)))
      && forall name :: !Named(ms, name) ==> Get(r, name) == Get(obj, name)
    decreases |ms|
  {
    if ms != [] {
      var m, rest := ms[0], ms[1..];
      assert ms == [m] + rest;
      var v := SetMemberOk(h, obj, m, rest);
      var next, r := Set(obj, m.name, v), SetMembers(h, obj, ms).value;
      SetMembersOk(h, next, rest);
      assert forall i :: 0 < i < |ms| ==> ms[i] == rest[i - 1] && ms[i].name != m.name;
      assert !Named(rest, m.name);
      GetSet(obj, m.name, v, m.name);
      forall i | 0 < i < |ms|
        ensures ParseOne(h, ms[i].propType, h.stringify(Get(obj, ms[i].name)), true) == Ok(Get(r, ms[i].name))
      {
        GetSet(obj, m.name, v, ms[i].name);
      }
      forall name | !Named(ms, name) ensures Get(r, name) == Get(obj, name) {
        assert ms[0].name != name && !Named(rest, name);
        GetSet(obj, m.name, v, name);
      }
    }
  }

  lemma ScalarOnly<N(!new)>(h: Host<N>, v: Value<N>, t: Type)
    requires Laws(h) && HasShape(v, t) && !t.ArrayType? && !t.TupleType? && !t.LiteralType?
    requires ParseOne(h, t, h.stringify(Render(h, v, t)), true) == Ok(v)
    ensures Survives(v, t)
  {
    match t
    case StringType => UnquoteIff(v.s);
    case BigIntType =>
      assert PrintsNumber(h, v.i);
      BigIntOfPrint(Shown(v.i));
    case ReferenceType(_) => UnquoteIff("");
    case _ =>
  }

  lemma ElementsOnly<N>(h: Host<N>, parts: seq<Value<N>>, types: seq<Type>, vs: seq<Value<N>>)
    requires |parts| == |types| && Transform(h, Texts(h, parts), types, true) == Ok(vs)
    ensures |vs| == |parts| && forall i :: 0 <= i < |parts| ==> ParseOne(h, types[i], h.stringify(parts[i]), true) == Ok(vs[i])
  {
    TransformOnly(h, Texts(h, parts), types, true, vs);
    assert forall i :: 0 <= i < |parts| ==> Texts(h, parts)[i] == h.stringify(parts[i]);
  }

  /** A nested value that comes back is printable. */
  lemma {:induction false} OnlyPrintable<N(!new)>(h: Host<N>, v: Value<N>, t: Type)
    requires Laws(h) && HasShape(v, t) && ParseOne(h, t, h.stringify(Render(h, v, t)), true) == Ok(v)
    ensures Survives(v, t)
    decreases t, 1
  {
    RenderIsJson(h, v, t);
    match t
    case ArrayType(elem) =>
      var parts := Render(h, v, t).elems;
      ElementsOnly(h, parts, Repeat(elem, |parts|), v.elems);
      forall i | 0 <= i < |parts| ensures Survives(v.elems[i], elem) {
        OnlyPrintable(h, v.elems[i], elem);
      }
    case TupleType(types) =>
      var parts := Render(h, v, t).elems;
      ElementsOnly(h, parts, types, v.elems);
      forall i | 0 <= i < |parts| ensures Survives(v.elems[i], types[i]) {
        OnlyPrintable(h, v.elems[i], types[i]);
      }
    case LiteralType(ms) => MembersOnly(h, v, ms);
    case _ => ScalarOnly(h, v, t);
  }

  lemma MembersOnly<N(!new)>(h: Host<N>, v: Value<N>, ms: seq<Property>)
    requires Laws(h) && HasShape(v, LiteralType(ms)) && IsJson(Render(h, v, LiteralType(ms)))
    requires ParseOne(h, LiteralType(ms), h.stringify(Render(h, v, LiteralType(ms))), true) == Ok(v)
    ensures Survives(v, LiteralType(ms))
    decreases LiteralType(ms), 0
  {
    var before, after := Render(h, v, LiteralType(ms)).entries, v.entries;
    assert SetMembers(h, Obj(before), ms) == Ok(Obj(after));
    SetMembersOk(h, Obj(before), ms);
    forall j | 0 <= j < |after| ensures Survives(after[j].value, ms[Place(after, ms, j)].propType) {
      EntryAt(before, j, Undefined);
      EntryAt(after, j, Undefined);
      OnlyPrintable(h, after[j].value, ms[Place(after, ms, j)].propType);
    }
  }

  /** A nested value of any depth, rendered and parsed again, is the same value exactly when it is printable. */
  lemma NestedIff<N(!new)>(h: Host<N>, v: Value<N>, t: Type)
    requires Laws(h) && HasShape(v, t)
    ensures ParseOne(h, t, h.stringify(Render(h, v, t)), true) == Ok(v) <==> Survives(v, t)
  {
    if Survives(v, t) {
      NestedRoundTrip(h, v, t);
    } else if ParseOne(h, t, h.stringify(Render(h, v, t)), true) == Ok(v) {
      OnlyPrintable(h, v, t);
    }
  }

  // The round trip of whole argument lists

  /** A top-level argument is not quoted: any string and any bigint survive. */
  predicate TextPrintable<N>(v: Value<N>, t: Type)
    requires HasShape(v, t)
  {
    t.BigIntType? || t.StringType? || Survives(v, t)
  }

  /** The command-line text of a value. */
  function RenderText<N>(h: Host<N>, v: Value<N>, t: Type): Option<string>
    requires HasShape(v, t)
  {
    match t
    case BigIntType => Some(PrintInt(v.i))
    case StringType => Some(v.s)
    case ReferenceType(_) => Some(HexUtils.ToHex(v.bytes))
    case _ => h.stringify(Render(h, v, t))
  }

  /** Quoting matters to strings and bytes only. */
  lemma QuotedOrNot<N>(h: Host<N>, t: Type, text: string)
    requires !t.StringType? && !t.ReferenceType?
    ensures ParseOne(h, t, Some(text), false) == ParseOne(h, t, Some(text), true)
  {
  }

  lemma TextRoundTrip<N(!new)>(h: Host<N>, v: Value<N>, t: Type)
    requires Laws(h) && HasShape(v, t)
    ensures ParseOne(h, t, RenderText(h, v, t), false) == Ok(v) <==> TextPrintable(v, t)
  {
    if t.BigIntType? {
      BigIntOfPrint(v.i);
    } else if t.ReferenceType? {
      if v.bytes != [] {
        BytesRoundTrip(v.bytes);
      }
    } else if !t.StringType? {
      RenderIsJson(h, v, t);
      QuotedOrNot(h, t, RenderText(h, v, t).value);
      NestedIff(h, v, t);
    }
  }

  /** Rendering a list of typed values and parsing the texts returns the values exactly when all of them are printable. */
  lemma RoundTrip<N(!new)>(h: Host<N>, vs: seq<Value<N>>, types: seq<Type>)
    requires Laws(h) && |vs| == |types|
    requires forall i :: 0 <= i < |vs| ==> HasShape(vs[i], types[i])
    ensures var texts := seq(|vs|, i requires 0 <= i < |vs| => RenderText(h, vs[i], types[i]));
      Transform(h, texts, types, false) == Ok(vs) <==> forall i :: 0 <= i < |vs| ==> TextPrintable(vs[i], types[i])
  {
    var texts := seq(|vs|, i requires 0 <= i < |vs| => RenderText(h, vs[i], types[i]));
    forall i | 0 <= i < |vs| ensures ParseOne(h, types[i], texts[i], false) == Ok(vs[i]) <==> TextPrintable(vs[i], types[i]) {
      TextRoundTrip(h, vs[i], types[i]);
    }
    TransformIff(h, texts, types, false, vs);
  }

  // Where the round trip fails

  /** A nested string survives exactly when it is plain, and a byte string exactly when it is not empty. */
  lemma NestedTextIff<N(!new)>(h: Host<N>, s: string, bytes: seq<HexUtils.byte>)
    requires Laws(h)
    ensures ParseOne(h, StringType, h.stringify(Str(s)), true) == Ok(Str(s)) <==> Plain(s)
    ensures ParseOne(h, ReferenceType(Some("Uint8Array")), h.stringify(Str(HexUtils.ToHex(bytes))), true) == Ok(Bytes(bytes))
            <==> bytes != []
  {
    NestedIff(h, Str(s), StringType);
    NestedIff(h, Bytes(bytes), ReferenceType(Some("Uint8Array")));
  }

  /** What a nested bigint literal comes back as: it is read as a number, printed and read again as a bigint. */
  function NestedBig<N>(h: Host<N>, i: int): Result<Value<N>, Cause> {
    var number := h.parse(PrintInt(i));
    ParseOne(h, BigIntType, if number.Some? then h.stringify(number.value) else None, true)
  }

  /**
    A nested bigint comes back as the number that JavaScript prints for the double nearest to it, and is refused where
    that text has an exponent. So it survives if and only if it is below 10^21 and printed as itself.
   */
  lemma NestedBigIntIff<N(!new)>(h: Host<N>, i: int)
    requires Laws(h)
    ensures NestedBig(h, i) == if WithoutExponent(i) then Ok(Big(Shown(i))) else Err(SyntaxError)
    ensures NestedBig(h, i) == Ok(Big(i)) <==> PrintedAsItself(i)
  {
    assert PrintsNumber(h, i);
    BigIntOfPrint(Shown(i));
  }

  /** All bigints up to 2^53 survive, beyond it at most one for each double, and none from 10^21 on. */
  lemma NestedBigInts<N(!new)>(h: Host<N>, i: int, j: int)
    requires Laws(h)
    ensures -TWO_53 <= i <= TWO_53 ==> NestedBig(h, i) == Ok(Big(i))
    ensures NestedBig(h, i) == Ok(Big(i)) && NestedBig(h, j) == Ok(Big(j)) && Round(i) == Round(j) ==> i == j
    ensures i <= -TEN_21 || TEN_21 <= i ==> NestedBig(h, i) == Err(SyntaxError)
    ensures NestedBig(h, i).Ok? ==> NestedBig(h, NestedBig(h, i).value.i) == NestedBig(h, i)
  {
    NestedBigIntIff(h, i);
    NestedBigIntIff(h, j);
    if -TWO_53 <= i <= TWO_53 {
      ShownExact(i);
    }
    if i <= -TEN_21 || TEN_21 <= i {
      ExponentFrom(i);
    }
    ShownRounds(i);
    NestedBigIntIff(h, Shown(i));
  }

  /** 2^53 + 1 comes back as 2^53; 2^60, a double, as 1152921504606847000, which is none and survives. */
  lemma LostBigInts<N(!new)>(h: Host<N>)
    requires Laws(h)
    ensures NestedBig(h, TWO_53 + 1) == Ok(Big(TWO_53))
    ensures IsDouble(TWO_60) && NestedBig(h, TWO_60) == Ok(Big(SHOWN_60))
    ensures !IsDouble(SHOWN_60) && NestedBig(h, SHOWN_60) == Ok(Big(SHOWN_60))
  {
    RoundExact(TWO_53);
    ShownExact(TWO_53);
    ShownBeyond();
    NestedBigIntIff(h, TWO_53 + 1);
    NestedBigIntIff(h, TWO_60);
    NestedBigIntIff(h, SHOWN_60);
  }

  /** `null` passes for an object literal exactly when the literal declares no property, and it does not inhabit it. */
  lemma NullPassesEmptyLiteral<N>(h: Host<N>, ms: seq<Property>, text: string, quoted: bool)
    requires h.parse(text) == Some(Null)
    ensures ParseOne(h, LiteralType(ms), Some(text), quoted).Ok? <==> ms == []
    ensures ms == [] ==> !Inhabits(ParseOne(h, LiteralType(ms), Some(text), quoted).value, LiteralType(ms))
  {
  }

  /**
    Only the word `true` reads as true. What reads as false is every longer text that begins with `true` and every text
    that ends with `false`, so acceptance is exact only on texts of neither kind.
   */
  lemma LooseBooleans<N>(h: Host<N>, s: string, quoted: bool)
    ensures ParseOne(h, BooleanType, Some(s), quoted) == Ok(Bool(true)) <==> s == "true"
    ensures ParseOne(h, BooleanType, Some(s), quoted) == Ok(Bool(false))
            <==> (exists rest :: rest != "" && s == "true" + rest) || (exists front :: s == front + "false")
    ensures ParseOne(h, BooleanType, Some(s), quoted).Err? ==> ParseOne(h, BooleanType, Some(s), quoted) == Err(SyntaxError)
  {
    if "true" <= s {
      assert s == "true" + s[4..];
    }
    if EndsWith(s, "false") {
      assert s == s[..|s| - 5] + "false";
    }
    forall rest | s == "true" + rest ensures "true" <= s {
    }
    forall front | s == front + "false" ensures EndsWith(s, "false") && s != "true" {
      assert s[|s| - 1] == "false"[4] && s[|s| - 2] == 's';
    }
  }
}
