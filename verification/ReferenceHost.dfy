/**
  A host that satisfies the laws the argument round trip assumes: JSON5 strings, strict JSON otherwise, integer-valued
  doubles for numbers, with an exponent from 10^21 on.
 */
module ReferenceHost {
  import opened Results
  import opened Numerals
  import opened JsNumbers
  import opened NumberText
  import opened Arguments
  import opened ArgumentRoundTrip
  import J = JsonText

  // Reading JSON5 strings

  /** The character that an escape sequence, after its backslash, stands for, and what follows. */
  function ReadEscape(s: string): Option<(char, string)> {
    if s == "" then None
    else if s[0] == '0' then Some((0 as char, s[1..]))
    else if s[0] == 'b' then Some((8 as char, s[1..]))
    else if s[0] == 't' then Some((9 as char, s[1..]))
    else if s[0] == 'n' then Some((10 as char, s[1..]))
    else if s[0] == 'v' then Some((11 as char, s[1..]))
    else if s[0] == 'f' then Some((12 as char, s[1..]))
    else if s[0] == 'r' then Some((13 as char, s[1..]))
    else if s[0] == 'x' then
      if |s| >= 3 && IsDigit(s[1], 16) && IsDigit(s[2], 16)
      then Some(((16 * DigitValue(s[1]) + DigitValue(s[2])) as char, s[3..])) else None
    else if "u2028" <= s then Some((0x2028 as char, s[5..]))
    else if "u2029" <= s then Some((0x2029 as char, s[5..]))
    else Some((s[0], s[1..]))
  }

  /** The characters up to the closing quote, which must end the text. */
  function ReadChars(s: string, quote: char): Option<string>
    decreases |s|
  {
    if s == "" then None
    else if s[0] == quote then (if |s| == 1 then Some("") else None)
    else if s[0] == BACKSLASH then
      match ReadEscape(s[1..])
      case None => None
      case Some((c, rest)) => if |rest| < |s| then (var cs :- ReadChars(rest, quote); Some([c] + cs)) else None
    else (var cs :- ReadChars(s[1..], quote); Some([s[0]] + cs))
  }

  lemma ReadHex(code: nat, rest: string)
    requires code < 0x20
    ensures ReadEscape(['x', Digit(code / 16), Digit(code % 16)] + rest) == Some((code as char, rest))
  {
    var s := ['x', Digit(code / 16), Digit(code % 16)] + rest;
    assert s[1] == Digit(code / 16) && s[2] == Digit(code % 16) && s[3..] == rest;
    assert code == 16 * (code / 16) + code % 16;
  }

  lemma ReadLineSeparator(last: char, rest: string)
    requires last == '8' || last == '9'
    ensures ReadEscape(['u', '2', '0', '2', last] + rest) == Some(((if last == '8' then 0x2028 else 0x2029) as char, rest))
  {
    var s := ['u', '2', '0', '2', last] + rest;
    assert s[..5] == ['u', '2', '0', '2', last] && s[5..] == rest;
    assert last == '9' ==> s[4] != "u2028"[4];
  }

  lemma ReadLetter(letter: char, rest: string)
    requires letter != 'x' && letter != 'u'
    ensures ReadEscape([letter] + rest).Some? && ReadEscape([letter] + rest).value.1 == rest
    ensures ReadEscape([letter] + rest).value.0
            == if letter == '0' then 0 as char else if letter == 'b' then 8 as char else if letter == 't' then 9 as char
               else if letter == 'n' then 10 as char else if letter == 'v' then 11 as char
               else if letter == 'f' then 12 as char else if letter == 'r' then 13 as char else letter
  {
    var s := [letter] + rest;
    assert s[0] == letter && s[1..] == rest;
  }

  /** The escape sequence of a character, after the backslash. */
  function EscapeTail(c: char, next: string): (tail: string)
    requires Escaped(c)
    ensures EscapeText(c, next) == [BACKSLASH] + tail
  {
    EscapeText(c, next)[1..]
  }

  lemma ReadEscaped(c: char, next: string, rest: string)
    requires Escaped(c)
    ensures ReadEscape(EscapeTail(c, next) + rest) == Some((c, rest))
  {
    var code := c as int;
    var tail := EscapeTail(c, next);
    if c == BACKSLASH || 8 <= code <= 13 || (code == 0 && |tail| == 1) {
      assert tail == [tail[0]];
      ReadLetter(tail[0], rest);
    } else if code < 0x20 {
      assert tail == ['x', Digit(code / 16), Digit(code % 16)];
      ReadHex(code, rest);
    } else {
      assert tail == ['u', '2', '0', '2', tail[4]];
      ReadLineSeparator(tail[4], rest);
    }
  }

  lemma ReadFirstEscaped(c: char, tail: string, rest: string, quote: char, cs: string)
    requires quote != BACKSLASH && ReadChars(rest, quote) == Some(cs) && ReadEscape(tail + rest) == Some((c, rest))
    ensures ReadChars([BACKSLASH] + tail + rest, quote) == Some([c] + cs)
  {
    var s := [BACKSLASH] + tail + rest;
    assert s[0] == BACKSLASH && s[1..] == tail + rest;
  }

  lemma ReadFirstPlain(c: char, rest: string, quote: char, cs: string)
    requires c != quote && c != BACKSLASH && ReadChars(rest, quote) == Some(cs)
    ensures ReadChars([c] + rest, quote) == Some([c] + cs)
  {
    var s := [c] + rest;
    assert s[0] == c && s[1..] == rest;
  }

  lemma FirstOfAll(s: string, quote: char, first: string)
    requires s != ""
    requires first == if s[0] == quote then [BACKSLASH, quote] else if Escaped(s[0]) then EscapeText(s[0], s[1..]) else [s[0]]
    ensures EscapeAll(s, quote) + [quote] == first + (EscapeAll(s[1..], quote) + [quote])
  {
  }

  lemma {:induction false} ReadEscapeAll(s: string, quote: char)
    requires quote == APOSTROPHE || quote == DOUBLE_QUOTE
    ensures ReadChars(EscapeAll(s, quote) + [quote], quote) == Some(s)
  {
    if s == "" {
      assert EscapeAll(s, quote) + [quote] == [quote];
    } else {
      ReadEscapeAll(s[1..], quote);
      assert [s[0]] + s[1..] == s;
      var rest := EscapeAll(s[1..], quote) + [quote];
      if s[0] == quote {
        FirstOfAll(s, quote, [BACKSLASH, quote]);
        ReadLetter(quote, rest);
        ReadFirstEscaped(quote, [quote], rest, quote, s[1..]);
        assert [BACKSLASH] + [quote] == [BACKSLASH, quote];
      } else if Escaped(s[0]) {
        FirstOfAll(s, quote, EscapeText(s[0], s[1..]));
        ReadEscaped(s[0], s[1..], rest);
        ReadFirstEscaped(s[0], EscapeTail(s[0], s[1..]), rest, quote, s[1..]);
      } else {
        FirstOfAll(s, quote, [s[0]]);
        ReadFirstPlain(s[0], rest, quote, s[1..]);
      }
    }
  }

  // Values and JSON

  type Double = n: int | IsDouble(n) witness 0

  function ToDouble(n: int): Double {
    RoundIdempotent(n);
    Round(n)
  }

  function ToJson(v: Value<Double>): J.Json
    requires IsJson(v)
  {
    match v
    case Null => J.Null
    case Bool(b) => J.Bool(b)
    case Num(n) => J.Num(Shown(n))
    case Str(s) => J.Str(s)
    case Arr(elems, _) => J.Arr(seq(|elems|, i requires 0 <= i < |elems| => ToJson(elems[i])))
    case Obj(es) => J.Obj(seq(|es|, i requires 0 <= i < |es| => J.Field(es[i].name, ToJson(es[i].value))))
  }

  function FromJson(j: J.Json): Value<Double> {
    match j
    case Null => Null
    case Bool(b) => Bool(b)
    case Num(n) => Num(ToDouble(n))
    case Str(s) => Str(s)
    case Arr(elems) => Arr(seq(|elems|, i requires 0 <= i < |elems| => FromJson(elems[i])), [])
    case Obj(fs) => Obj(seq(|fs|, i requires 0 <= i < |fs| => Entry(fs[i].name, FromJson(fs[i].value))))
  }

  lemma {:induction false} FromToJson(v: Value<Double>)
    requires IsJson(v)
    ensures J.WellFormed(ToJson(v)) && FromJson(ToJson(v)) == v
    decreases v
  {
    match v
    case Arr(elems, extra) =>
      forall i | 0 <= i < |elems| ensures J.WellFormed(ToJson(elems[i])) && FromJson(ToJson(elems[i])) == elems[i] {
        FromToJson(elems[i]);
      }
      assert FromJson(ToJson(v)).elems == elems;
    case Obj(es) =>
      forall i | 0 <= i < |es| ensures J.WellFormed(ToJson(es[i].value)) && FromJson(ToJson(es[i].value)) == es[i].value {
        FromToJson(es[i].value);
      }
      assert FromJson(ToJson(v)).entries == es;
    case Num(n) => ShownRounds(n);
    case _ =>
  }

  // The host

  const EXPONENT := "e0"

  predicate HasExponent(v: Value<Double>) {
    v.Num? && !WithoutExponent(v.n)
  }

  function Stringify(v: Value<Double>): Option<string> {
    if !IsJson(v) then None
    else if v.Str? then Some(Quote(v.s))
    else if HasExponent(v) then Some(PrintInt(v.n) + EXPONENT)
    else Some(J.Stringify(ToJson(v)))
  }

  function Parse(text: string): Option<Value<Double>> {
    if text != "" && (text[0] == APOSTROPHE || text[0] == DOUBLE_QUOTE) then
      match ReadChars(text[1..], text[0]) case Some(s) => Some(Str(s)) case None => None
    else
      match J.ParseValue(text)
      case Some((j, rest)) => if rest == "" || (j.Num? && rest == EXPONENT) then Some(FromJson(j)) else None
      case None => None
  }

  function Number(text: string): Double {
    match Parse(text)
    case Some(Num(n)) => n
    case _ => 0
  }

  const HOST: Host<Double> := Host((text: string) => Parse(text), (v: Value<Double>) => Stringify(v), (text: string) => Number(text),
                                   0, (i: int) => ToDouble(i))

  lemma StartsUnquoted(text: string, v: Value<Double>)
    requires IsJson(v) && !v.Str? && text == J.Stringify(ToJson(v))
    ensures text != "" && text[0] != APOSTROPHE && text[0] != DOUBLE_QUOTE
  {
    if v.Num? {
      StartsWithDigit(Shown(v.n), "");
    }
  }

  lemma StartsWithDigit(n: int, rest: string)
    ensures var text := PrintInt(n) + rest; text != "" && text[0] != APOSTROPHE && text[0] != DOUBLE_QUOTE
  {
    PrintDigits(if n < 0 then -n else n);
    assert IsDigit(Print(if n < 0 then -n else n)[0], 10);
    assert (PrintInt(n) + rest)[0] == PrintInt(n)[0];
  }

  /** Decimal digits read as the nearest double, with the exponent or without. */
  lemma ParsePrinted(n: int, rest: string)
    requires rest == "" || rest == EXPONENT
    ensures Parse(PrintInt(n) + rest) == Some(Num(ToDouble(n)))
  {
    StartsWithDigit(n, rest);
    J.ParseNumber(n, rest);
  }

  lemma ParseStringified(v: Value<Double>)
    requires IsJson(v)
    ensures Stringify(v).Some? && Parse(Stringify(v).value) == Some(v)
  {
    if v.Str? {
      var quote := Quote(v.s)[0];
      ReadEscapeAll(v.s, quote);
      assert Quote(v.s)[1..] == EscapeAll(v.s, quote) + [quote];
    } else if HasExponent(v) {
      ParsePrinted(v.n, EXPONENT);
    } else {
      FromToJson(v);
      J.ParsePut(ToJson(v), "");
      StartsUnquoted(J.Stringify(ToJson(v)), v);
    }
  }

  /** A text that ends in an exponent is no bigint. */
  lemma ExponentRefused(n: int)
    ensures BigIntOf(PrintInt(n) + EXPONENT) == None
  {
    var size := if n < 0 then -n else n;
    var text := PrintInt(n) + EXPONENT;
    PrintDigits(size);
    assert IsDigit(Print(size)[0], 10) && text[0] == PrintInt(n)[0];
    assert text[|text| - 1] == '0' && text[|text| - 2] == 'e';
    assert Trim(text) == text;
    if n < 0 {
      assert text[1..][|text| - 3] == 'e';
      assert !IsDigit(text[1..][|text| - 3], 10);
    } else {
      assert text[1] == 'e' || IsDigit(text[1], 10);
      assert !IsDigit(text[|text| - 2], 10);
    }
  }

  lemma NumberPrinted(i: int)
    ensures PrintsNumber(HOST, i)
  {
    var d := ToDouble(i);
    RoundIdempotent(i);
    if WithoutExponent(i) {
      assert J.Put(J.Num(Shown(d)), "") == PrintInt(Shown(d)) + "" == PrintInt(Shown(i));
    } else {
      ExponentRefused(d);
    }
  }

  lemma WordPrinted(b: bool)
    ensures Stringify(Bool(b)) == Some(if b then "true" else "false")
  {
    assert J.Put(J.Bool(b), "") == (if b then "true" else "false") + "" == if b then "true" else "false";
  }

  lemma LiteralRead(i: int)
    ensures Parse(PrintInt(i)) == Some(Num(ToDouble(i))) && ToDouble(i) == ToDouble(Round(i))
  {
    ParsePrinted(i, "");
    assert PrintInt(i) + "" == PrintInt(i);
    RoundIdempotent(i);
  }

  lemma NumberRead(n: Double)
    ensures Stringify(Num(n)).Some? && Number(Stringify(Num(n)).value) == n
  {
    ParseStringified(Num(n));
  }

  lemma TextLawsSatisfied()
    ensures TextLaws(HOST)
  {
    forall v: Value<Double> | IsJson(v) ensures HOST.stringify(v).Some? && HOST.parse(HOST.stringify(v).value) == Some(v) {
      ParseStringified(v);
    }
    forall b: bool ensures HOST.stringify(Bool(b)) == Some(if b then "true" else "false") {
      WordPrinted(b);
    }
  }

  lemma NumberLawsSatisfied()
    ensures NumberLaws(HOST)
  {
    forall n: Double ensures HOST.stringify(Num(n)).Some? && HOST.number(HOST.stringify(Num(n)).value) == n {
      NumberRead(n);
    }
    forall i: int ensures HOST.parse(PrintInt(i)) == Some(Num(HOST.ofInt(i))) && HOST.ofInt(i) == HOST.ofInt(Round(i)) {
      LiteralRead(i);
    }
    forall i: int ensures PrintsNumber(HOST, i) {
      NumberPrinted(i);
    }
  }

  /** The laws assumed of JSON5 and of numbers hold together: this host satisfies them all. */
  lemma LawsSatisfied()
    ensures Laws(HOST)
  {
    TextLawsSatisfied();
    NumberLawsSatisfied();
  }
}
