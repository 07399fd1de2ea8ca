/**
  JSON values and their text, as `JSON.stringify` writes it and `JSON.parse` reads it.
  Numbers are integers; no insignificant white space is read or written.
  Printing is written in continuation style: `Put(v, rest)` is the text of `v` followed by `rest`.
 */
module JsonText {
  import opened Results
  import opened Numerals

  datatype Json =
    | Null
    | Bool(b: bool)
    | Num(n: int)
    | Str(s: string)
    | Arr(elems: seq<Json>)
    | Obj(fields: seq<Field>)

  datatype Field = Field(name: string, value: Json)

  const QUOTE := '\"'
  const BACKSLASH := '\\'

  // Strings

  /** The letter of a two-character escape, if `c` has one. */
  function ShortEscape(c: char): Option<char> {
    var code := c as int;
    if c == QUOTE || c == BACKSLASH then Some(c)
    else if code == 8 then Some('b')
    else if code == 9 then Some('t')
    else if code == 10 then Some('n')
    else if code == 12 then Some('f')
    else if code == 13 then Some('r')
    else None
  }

  function PutChar(c: char, rest: string): string {
    match ShortEscape(c)
    case Some(letter) => [BACKSLASH, letter] + rest
    case None =>
      var code := c as int;
      if code < 0x20 then [BACKSLASH, 'u', '0', '0', Digit(code / 16), Digit(code % 16)] + rest
      else [c] + rest
  }

  function PutChars(s: string, rest: string): string {
    if s == "" then rest else PutChar(s[0], PutChars(s[1..], rest))
  }

  function PutString(s: string, rest: string): string {
    [QUOTE] + PutChars(s, [QUOTE] + rest)
  }

  function Unescape(letter: char): Option<char> {
    if letter == QUOTE || letter == BACKSLASH || letter == '/' then Some(letter)
    else if letter == 'b' then Some(8 as char)
    else if letter == 't' then Some(9 as char)
    else if letter == 'n' then Some(10 as char)
    else if letter == 'f' then Some(12 as char)
    else if letter == 'r' then Some(13 as char)
    else None
  }

  /** One character of a string literal, and the text after it. */
  function ParseChar(s: string): (r: Option<(char, string)>)
    requires s != ""
    ensures r.Some? ==> |r.value.1| < |s|
  {
    if s[0] == BACKSLASH then
      if |s| >= 6 && s[1] == 'u' then
        if AllDigits(s[2..6], 16) then
          var code := Value(s[2..6], 16);
          if code < 0xd800 || 0xe000 <= code < 0x10000 then Some((code as char, s[6..])) else None
        else None
      else if |s| >= 2 then (var c :- Unescape(s[1]); Some((c, s[2..])))
      else None
    else if s[0] as int < 0x20 then None
    else Some((s[0], s[1..]))
  }

  /** The rest of a string literal whose opening quote has been read. */
  function ParseChars(s: string): (r: Option<(string, string)>)
    ensures r.Some? ==> |r.value.1| < |s|
    decreases |s|
  {
    if s == "" then None
    else if s[0] == QUOTE then Some(("", s[1..]))
    else
      var (c, rest) :- ParseChar(s);
      var (chars, tail) :- ParseChars(rest);
      Some(([c] + chars, tail))
  }

  lemma FourDigits(a: char, b: char)
    requires IsDigit(a, 16) && IsDigit(b, 16)
    ensures AllDigits(['0', '0', a, b], 16)
    ensures Value(['0', '0', a, b], 16) == DigitValue(a) * 16 + DigitValue(b)
  {
    ValueSnoc("", '0', 16);
    ValueSnoc("0", '0', 16);
    ValueSnoc("00", a, 16);
    ValueSnoc(['0', '0', a], b, 16);
    assert "" + ['0'] == "0" && "0" + ['0'] == "00";
    assert "00" + [a] == ['0', '0', a] && ['0', '0', a] + [b] == ['0', '0', a, b];
  }

  lemma ParsePutChar(c: char, rest: string)
    ensures PutChar(c, rest) != "" && PutChar(c, rest)[0] != QUOTE
    ensures ParseChar(PutChar(c, rest)) == Some((c, rest))
  {
    var text := PutChar(c, rest);
    var code := c as int;
    if ShortEscape(c).Some? {
      assert text[2..] == rest;
    } else if code < 0x20 {
      FourDigits(Digit(code / 16), Digit(code % 16));
      assert text[2..6] == ['0', '0', Digit(code / 16), Digit(code % 16)];
      assert text[6..] == rest;
    } else {
      assert text[1..] == rest;
    }
  }

  /** The two-character escapes are inverse tables; the solidus alone may be escaped and is not. */
  lemma EscapesInverse(c: char, letter: char)
    ensures ShortEscape(c) == Some(letter) <==> Unescape(letter) == Some(c) && c != '/'
    ensures Unescape(letter) == Some('/') <==> letter == '/'
    ensures Unescape(letter).Some? <==> letter in ['\"', '\\', '/', 'b', 'f', 'n', 'r', 't']
  {
  }

  /** What is written for a character: its escape, four digits if it is a control character without one, else itself. */
  lemma PutCharMeaning(c: char, rest: string)
    ensures forall letter :: Unescape(letter) == Some(c) && c != '/' ==> PutChar(c, rest) == [BACKSLASH, letter] + rest
    ensures (forall letter :: Unescape(letter) != Some(c)) && c as int < 32 ==>
              exists x, y :: IsDigit(x, 16) && IsDigit(y, 16) && PutChar(c, rest) == [BACKSLASH, 'u', '0', '0', x, y] + rest
                             && 16 * DigitValue(x) + DigitValue(y) == c as int
    ensures ((forall letter :: Unescape(letter) != Some(c)) && c as int >= 32) || c == '/' ==> PutChar(c, rest) == [c] + rest
  {
    forall letter ensures ShortEscape(c) == Some(letter) <==> Unescape(letter) == Some(c) && c != '/' {
      EscapesInverse(c, letter);
    }
    var code := c as int;
    if code < 32 && ShortEscape(c).None? {
      var x, y := Digit(code / 16), Digit(code % 16);
      assert IsDigit(x, 16) && IsDigit(y, 16) && 16 * DigitValue(x) + DigitValue(y) == code;
    }
  }

  lemma {:induction false} ParsePutChars(s: string, rest: string)
    ensures ParseChars(PutChars(s, [QUOTE] + rest)) == Some((s, rest))
  {
    if s == "" {
      assert ([QUOTE] + rest)[1..] == rest;
    } else {
      var tail := PutChars(s[1..], [QUOTE] + rest);
      ParsePutChar(s[0], tail);
      ParsePutChars(s[1..], rest);
      assert [s[0]] + s[1..] == s;
    }
  }

  // Values

  function Put(v: Json, rest: string): string
    decreases v, 1
  {
    match v
    case Null => "null" + rest
    case Bool(b) => (if b then "true" else "false") + rest
    case Num(n) => PrintInt(n) + rest
    case Str(s) => PutString(s, rest)
    case Arr(elems) => "[" + PutElems(elems, "]" + rest)
    case Obj(fields) => "{" + PutFields(fields, "}" + rest)
  }

  function PutElems(elems: seq<Json>, rest: string): string
    decreases elems, 0
  {
    if elems == [] then rest
    else Put(elems[0], if |elems| == 1 then rest else "," + PutElems(elems[1..], rest))
  }

  function PutFields(fields: seq<Field>, rest: string): string
    decreases fields, 0
  {
    if fields == [] then rest
    else
      var tail := if |fields| == 1 then rest else "," + PutFields(fields[1..], rest);
      PutString(fields[0].name, ":" + Put(fields[0].value, tail))
  }

  function Stringify(v: Json): string {
    Put(v, "")
  }

  /** An object keeps the position of a repeated key's first occurrence and the value of its last. */
  function WithField(fields: seq<Field>, key: string, v: Json): seq<Field> {
    if fields == [] then [Field(key, v)]
    else if fields[0].name == key then [Field(key, v)] + fields[1..]
    else [fields[0]] + WithField(fields[1..], key, v)
  }

  function Collect(fields: seq<Field>): seq<Field> {
    if fields == [] then []
    else
      var last := fields[|fields| - 1];
      WithField(Collect(fields[..|fields| - 1]), last.name, last.value)
  }

  function Token(word: string, v: Json, s: string): Option<(Json, string)> {
    if word <= s then Some((v, s[|word|..])) else None
  }

  /** Digits without a leading zero. */
  function ParseNatural(s: string): (r: Option<(int, string)>)
    ensures r.Some? ==> |r.value.1| < |s|
  {
    var n := if s != "" && s[0] == '0' then 1 else DigitRun(s, 10);
    if n == 0 then None else Some((Value(s[..n], 10), s[n..]))
  }

  function ParseNum(s: string): (r: Option<(Json, string)>)
    ensures r.Some? ==> |r.value.1| < |s|
  {
    if s != "" && s[0] == '-' then (var (n, rest) :- ParseNatural(s[1..]); Some((Num(-n), rest)))
    else (var (n, rest) :- ParseNatural(s); Some((Num(n), rest)))
  }

  function ParseValue(s: string): (r: Option<(Json, string)>)
    ensures r.Some? ==> |r.value.1| < |s|
    decreases |s|, 1
  {
    if s == "" then None
    else if s[0] == 'n' then Token("null", Null, s)
    else if s[0] == 't' then Token("true", Bool(true), s)
    else if s[0] == 'f' then Token("false", Bool(false), s)
    else if s[0] == QUOTE then (var (chars, rest) :- ParseChars(s[1..]); Some((Str(chars), rest)))
    else if s[0] == '[' then
      if "]" <= s[1..] then Some((Arr([]), s[2..])) else (var (elems, rest) :- ParseElems(s[1..]); Some((Arr(elems), rest)))
    else if s[0] == '{' then
      if "}" <= s[1..] then Some((Obj([]), s[2..]))
      else (var (fields, rest) :- ParseFields(s[1..]); Some((Obj(Collect(fields)), rest)))
    else ParseNum(s)
  }

  function ParseElems(s: string): (r: Option<(seq<Json>, string)>)
    ensures r.Some? ==> |r.value.1| < |s|
    decreases |s|, 2
  {
    var (v, rest) :- ParseValue(s);
    if "]" <= rest then Some(([v], rest[1..]))
    else if "," <= rest then (var (vs, tail) :- ParseElems(rest[1..]); Some(([v] + vs, tail)))
    else None
  }

  function ParseField(s: string): (r: Option<(Field, string)>)
    ensures r.Some? ==> |r.value.1| < |s|
    decreases |s|, 1
  {
    if s == "" || s[0] != QUOTE then None
    else
      var (key, afterKey) :- ParseChars(s[1..]);
      if !(":" <= afterKey) then None
      else
        var (v, rest) :- ParseValue(afterKey[1..]);
        Some((Field(key, v), rest))
  }

  function ParseFields(s: string): (r: Option<(seq<Field>, string)>)
    ensures r.Some? ==> |r.value.1| < |s|
    decreases |s|, 2
  {
    var (field, rest) :- ParseField(s);
    if "}" <= rest then Some(([field], rest[1..]))
    else if "," <= rest then (var (fs, tail) :- ParseFields(rest[1..]); Some(([field] + fs, tail)))
    else None
  }

  function Parse(text: string): Option<Json> {
    var (v, rest) :- ParseValue(text);
    if rest == "" then Some(v) else None
  }

  // Repeated names

  function Named(fields: seq<Field>, key: string): Option<Json> {
    if fields == [] then None else if fields[0].name == key then Some(fields[0].value) else Named(fields[1..], key)
  }

  /** The value of the last field with the name. */
  function LastNamed(fields: seq<Field>, key: string): Option<Json> {
    if fields == [] then None
    else if fields[|fields| - 1].name == key then Some(fields[|fields| - 1].value)
    else LastNamed(fields[..|fields| - 1], key)
  }

  lemma {:induction false} NamedWith(fields: seq<Field>, key: string, v: Json, other: string)
    ensures Named(WithField(fields, key, v), other) == if other == key then Some(v) else Named(fields, other)
  {
    if fields != [] {
      NamedWith(fields[1..], key, v, other);
    }
  }

  /** Of fields with one name the last decides. */
  lemma {:induction false} LastDecides(fields: seq<Field>, key: string)
    ensures Named(Collect(fields), key) == LastNamed(fields, key)
  {
    if fields != [] {
      var last := fields[|fields| - 1];
      LastDecides(fields[..|fields| - 1], key);
      NamedWith(Collect(fields[..|fields| - 1]), last.name, last.value, key);
    }
  }

  // Round trip

  predicate DistinctNames(fields: seq<Field>) {
    forall i, j :: 0 <= i < j < |fields| ==> fields[i].name != fields[j].name
  }

  /** No object inside `v` names a field twice. */
  predicate WellFormed(v: Json) {
    match v
    case Arr(elems) => forall i :: 0 <= i < |elems| ==> WellFormed(elems[i])
    case Obj(fields) => DistinctNames(fields) && forall i :: 0 <= i < |fields| ==> WellFormed(fields[i].value)
    case _ => true
  }

  lemma {:induction false} WithNewField(fields: seq<Field>, key: string, v: Json)
    requires forall i :: 0 <= i < |fields| ==> fields[i].name != key
    ensures WithField(fields, key, v) == fields + [Field(key, v)]
  {
    if fields != [] {
      WithNewField(fields[1..], key, v);
    }
  }

  lemma {:induction false} CollectDistinct(fields: seq<Field>)
    requires DistinctNames(fields)
    ensures Collect(fields) == fields
  {
    if fields != [] {
      var front := fields[..|fields| - 1];
      CollectDistinct(front);
      WithNewField(front, fields[|fields| - 1].name, fields[|fields| - 1].value);
    }
  }

  predicate EndsNumber(rest: string) {
    rest == "" || !IsDigit(rest[0], 10)
  }

  lemma ParsePrinted(n: nat, rest: string)
    requires EndsNumber(rest)
    ensures Print(n) != "" && IsDigit(Print(n)[0], 10)
    ensures ParseNatural(Print(n) + rest) == Some((n, rest))
  {
    var digits := Print(n);
    PrintDigits(n);
    ValuePrint(n);
    DigitRunOf(digits, rest, 10);
    assert IsDigit(digits[0], 10) && (digits + rest)[0] == digits[0];
    assert (digits + rest)[..|digits|] == digits && (digits + rest)[|digits|..] == rest;
  }

  lemma ParseSigned(digits: string, n: int, rest: string)
    requires digits != "" && IsDigit(digits[0], 10) && ParseNatural(digits + rest) == Some((n, rest))
    ensures ParseNum(digits + rest) == Some((Num(n), rest))
    ensures ParseNum("-" + digits + rest) == Some((Num(-n), rest))
  {
    assert (digits + rest)[0] == digits[0];
    var s := "-" + digits + rest;
    assert s[0] == '-' && s[1..] == digits + rest;
  }

  lemma ParsePutNum(n: int, rest: string)
    requires EndsNumber(rest)
    ensures PrintInt(n) != "" && (PrintInt(n)[0] == '-' || IsDigit(PrintInt(n)[0], 10))
    ensures ParseNum(PrintInt(n) + rest) == Some((Num(n), rest))
  {
    var size := if n < 0 then -n else n;
    ParsePrinted(size, rest);
    ParseSigned(Print(size), size, rest);
  }

  lemma ParsePutScalar(v: Json, rest: string)
    requires EndsNumber(rest) && !v.Arr? && !v.Obj?
    ensures ParseValue(Put(v, rest)) == Some((v, rest))
  {
    match v
    case Null => ParseWord("null", v, rest);
    case Bool(b) => ParseWord(if b then "true" else "false", v, rest);
    case Num(n) => ParseNumber(n, rest);
    case Str(s) => ParseText(s, rest);
    case _ =>
  }

  lemma ParseNumber(n: int, rest: string)
    requires EndsNumber(rest)
    ensures ParseValue(PrintInt(n) + rest) == Some((Num(n), rest))
  {
    ParsePutNum(n, rest);
    var text := PrintInt(n) + rest;
    assert text[0] == PrintInt(n)[0] && text[0] !in "ntf[{\"";
    ParseNumberValue(text);
  }

  lemma ParseNumberValue(text: string)
    requires text != "" && text[0] !in "ntf[{\""
    ensures ParseValue(text) == ParseNum(text)
  {
    var letters := "ntf[{\"";
    assert letters[0] == 'n' && letters[1] == 't' && letters[2] == 'f' && letters[3] == '[' && letters[4] == '{' && letters[5] == QUOTE;
  }

  lemma ParseText(s: string, rest: string)
    ensures ParseValue(PutString(s, rest)) == Some((Str(s), rest))
  {
    ParsePutChars(s, rest);
    assert ([QUOTE] + PutChars(s, [QUOTE] + rest))[1..] == PutChars(s, [QUOTE] + rest);
  }

  lemma ParseWord(word: string, v: Json, rest: string)
    ensures Token(word, v, word + rest) == Some((v, rest))
  {
    assert (word + rest)[..|word|] == word && (word + rest)[|word|..] == rest;
  }

  /** Parsing the printed text of a value, whatever follows it, returns the value and what follows. */
  lemma {:induction false} ParsePut(v: Json, rest: string)
    requires WellFormed(v) && EndsNumber(rest)
    ensures ParseValue(Put(v, rest)) == Some((v, rest))
    decreases v, 1
  {
    var text := Put(v, rest);
    match v
    case Arr(elems) =>
      if elems == [] {
        assert text[1..] == "]" + rest && text[2..] == rest;
      } else {
        ParsePutElems(elems, rest);
        assert text[1..] == PutElems(elems, "]" + rest);
        assert text[1] != ']';
      }
    case Obj(fields) =>
      if fields == [] {
        assert text[1..] == "}" + rest && text[2..] == rest;
      } else {
        ParsePutFields(fields, rest);
        CollectDistinct(fields);
        assert text[1..] == PutFields(fields, "}" + rest);
        assert text[1] == QUOTE;
      }
    case _ => ParsePutScalar(v, rest);
  }

  lemma {:induction false} ParsePutElems(elems: seq<Json>, rest: string)
    requires elems != [] && forall i :: 0 <= i < |elems| ==> WellFormed(elems[i])
    ensures PutElems(elems, "]" + rest) != "" && PutElems(elems, "]" + rest)[0] != ']'
    ensures ParseElems(PutElems(elems, "]" + rest)) == Some((elems, rest))
    decreases elems, 0
  {
    var tail := if |elems| == 1 then "]" + rest else "," + PutElems(elems[1..], "]" + rest);
    ParsePut(elems[0], tail);
    PutStarts(elems[0], tail);
    if |elems| == 1 {
      assert tail[1..] == rest && elems == [elems[0]];
    } else {
      ParsePutElems(elems[1..], rest);
      assert tail[1..] == PutElems(elems[1..], "]" + rest);
      assert elems == [elems[0]] + elems[1..];
    }
  }

  lemma PutStarts(v: Json, rest: string)
    ensures Put(v, rest) != "" && Put(v, rest)[0] != ']'
  {
    if v.Num? {
      PrintDigits(if v.n < 0 then -v.n else v.n);
      assert IsDigit(Print(if v.n < 0 then -v.n else v.n)[0], 10);
    }
  }

  lemma ParsePutField(field: Field, tail: string)
    requires ParseValue(Put(field.value, tail)) == Some((field.value, tail))
    ensures ParseField(PutString(field.name, ":" + Put(field.value, tail))) == Some((field, tail))
  {
    var value := ":" + Put(field.value, tail);
    ParsePutChars(field.name, value);
    assert ([QUOTE] + PutChars(field.name, [QUOTE] + value))[1..] == PutChars(field.name, [QUOTE] + value);
    assert value[1..] == Put(field.value, tail);
  }

  lemma {:induction false} ParsePutFields(fields: seq<Field>, rest: string)
    requires fields != [] && forall i :: 0 <= i < |fields| ==> WellFormed(fields[i].value)
    ensures PutFields(fields, "}" + rest) != "" && PutFields(fields, "}" + rest)[0] == QUOTE
    ensures ParseFields(PutFields(fields, "}" + rest)) == Some((fields, rest))
    decreases fields, 0
  {
    var tail := if |fields| == 1 then "}" + rest else "," + PutFields(fields[1..], "}" + rest);
    var field := fields[0];
    ParsePut(field.value, tail);
    ParsePutField(field, tail);
    if |fields| == 1 {
      assert tail[1..] == rest && fields == [field];
    } else {
      ParsePutFields(fields[1..], rest);
      assert tail[1..] == PutFields(fields[1..], "}" + rest);
      assert fields == [field] + fields[1..];
    }
  }

  /** `JSON.parse(JSON.stringify(v))` is `v`. */
  lemma ParseStringify(v: Json)
    requires WellFormed(v)
    ensures Parse(Stringify(v)) == Some(v)
  {
    ParsePut(v, "");
  }
}
