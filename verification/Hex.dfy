/** The hex-string pattern that both validators are built on: optional `0x`, whole bytes, then whatever is left. */
module HexPattern {
  import opened Results
  import opened Numerals

  datatype Parsed = Parsed(hasPrefix: bool, byteChars: string, incompleteChars: string) {
    /** The position reported for an invalid digit: just after the whole bytes. */
    function InvalidCharPos(): nat {
      |byteChars| + (if hasPrefix then 2 else 0)
    }
  }

  // `.` in the pattern does not match these.
  predicate IsLineTerminator(c: char) {
    c as int in {0x0a, 0x0d, 0x2028, 0x2029}
  }

  predicate IsPair(s: string) {
    |s| >= 2 && IsDigit(s[0], 16) && IsDigit(s[1], 16)
  }

  /** The number of characters in the longest run of whole bytes at the start of `s`. */
  function PairRun(s: string): (n: nat)
    ensures n <= |s| && n % 2 == 0
    ensures AllDigits(s[..n], 16)
    ensures !IsPair(s[n..])
  {
    if !IsPair(s) then 0
    else
      var n := PairRun(s[2..]);
      assert s[2..][n..] == s[n + 2..];
      assert s[..n + 2] == [s[0], s[1]] + s[2..][..n];
      n + 2
  }

  function Body(source: string): string {
    if "0x" <= source then source[2..] else source
  }

  /** `None` when the pattern does not match. */
  function Match(source: string): Option<Parsed> {
    var body := Body(source);
    var n := PairRun(body);
    if exists i :: n <= i < |body| && IsLineTerminator(body[i]) then None
    else Some(Parsed("0x" <= source, body[..n], body[n..]))
  }

  /** A whole number of bytes, at least one, in hexadecimal, with or without the prefix. */
  predicate IsHexText(source: string) {
    var body := Body(source);
    body != "" && |body| % 2 == 0 && AllDigits(body, 16)
  }

  lemma {:induction false} PairRunMaximal(s: string, k: nat)
    requires k <= |s| && k % 2 == 0 && AllDigits(s[..k], 16)
    ensures k <= PairRun(s)
  {
    if k > 0 {
      assert IsDigit(s[..k][0], 16) && IsDigit(s[..k][1], 16);
      assert s[2..][..k - 2] == s[..k][2..];
      PairRunMaximal(s[2..], k - 2);
    }
  }

  /** The groups rebuild the source, and no longer even run of hex digits could have been taken as bytes. */
  lemma MatchLosslessMaximal(source: string)
    requires Match(source).Some?
    ensures var p := Match(source).value;
      && source == (if p.hasPrefix then "0x" else "") + p.byteChars + p.incompleteChars
      && |p.byteChars| % 2 == 0 && AllDigits(p.byteChars, 16)
      && forall k :: 0 <= k <= |Body(source)| && k % 2 == 0 && AllDigits(Body(source)[..k], 16) ==> k <= |p.byteChars|
  {
    forall k | 0 <= k <= |Body(source)| && k % 2 == 0 && AllDigits(Body(source)[..k], 16)
      ensures k <= PairRun(Body(source))
    {
      PairRunMaximal(Body(source), k);
    }
  }

  /** No line feed, carriage return, line separator or paragraph separator. */
  predicate OneLine(source: string) {
    forall i :: 0 <= i < |source| ==>
      var code := source[i] as int; code != 10 && code != 13 && code != 0x2028 && code != 0x2029
  }

  /** The pattern matches exactly the strings without a line terminator. */
  lemma MatchesIffOneLine(source: string)
    ensures Match(source).Some? <==> OneLine(source)
  {
    var body := Body(source);
    var n := PairRun(body);
    assert forall i :: 0 <= i < |body| ==> body[i] == source[i + |source| - |body|];
    forall i | 0 <= i < n ensures !IsLineTerminator(body[i]) {
      assert IsDigit(body[..n][i], 16);
    }
    if i :| 0 <= i < |source| && IsLineTerminator(source[i]) {
      assert body[i - (|source| - |body|)] == source[i];
    }
  }

  lemma MatchGroups(source: string)
    requires OneLine(source)
    ensures var body := Body(source); Match(source) == Some(Parsed("0x" <= source, body[..PairRun(body)], body[PairRun(body)..]))
  {
    MatchesIffOneLine(source);
  }

  lemma WholeSlice(body: string, whole: nat)
    requires whole == |body|
    ensures body[..whole] == body && body[whole..] == ""
  {
  }

  /** What the groups are, by the run of hex digits that follows the prefix: its whole bytes, and what is left. */
  lemma MatchByDigits(source: string)
    requires OneLine(source)
    ensures var body := Body(source);
      var digits := DigitRun(body, 16);
      var whole := digits - digits % 2;
      && Match(source) == Some(Parsed("0x" <= source, body[..whole], body[whole..]))
      && (|body| - whole) % 2 == |body| % 2 && (|body| % 2 == 0 ==> (whole == |body| <==> digits == |body|))
      && (whole == |body| ==> body[..whole] == body && body[whole..] == "")
  {
    var body := Body(source);
    MatchGroups(source);
    PairRunEven(body);
    Rest(|body|, DigitRun(body, 16));
    if PairRun(body) == |body| {
      WholeSlice(body, PairRun(body));
    }
  }

  /** The same by numbers: how much is left, where it begins, and what is there if nothing is. */
  lemma MatchLengths(source: string)
    requires OneLine(source)
    ensures Match(source).Some?
    ensures var p, body := Match(source).value, Body(source);
      var digits := DigitRun(body, 16);
      && (|p.incompleteChars| % 2 == |body| % 2) && (|body| % 2 == 0 ==> (p.incompleteChars == "" <==> digits == |body|))
      && p.InvalidCharPos() == |source| - |body| + digits - digits % 2
      && (p.byteChars == "" && p.incompleteChars == "" <==> body == "")
      && (p.incompleteChars == "" ==> p == Parsed("0x" <= source, body, ""))
  {
    MatchByDigits(source);
  }

  /** The rest behind the whole bytes is odd when all is, and empty when all is digits and even. */
  lemma Rest(length: nat, digits: nat)
    requires digits <= length
    ensures var whole := digits - digits % 2;
      (length - whole) % 2 == length % 2 && (length % 2 == 0 ==> (length == whole <==> digits == length))
  {
  }

  lemma PairRunEven(s: string)
    ensures PairRun(s) == DigitRun(s, 16) - DigitRun(s, 16) % 2
  {
    PairRunOfDigits(s);
    EvenPart(PairRun(s), DigitRun(s, 16));
  }

  lemma EvenPart(n: nat, m: nat)
    requires n % 2 == 0 && n <= m <= n + 1
    ensures n == m - m % 2
  {
  }

  lemma WholeBytesIffHexText(source: string)
    ensures IsHexText(source)
            <==> Match(source).Some? && Match(source).value.incompleteChars == "" && Match(source).value.byteChars != ""
    ensures IsHexText(source) ==> Match(source).value.byteChars == Body(source)
  {
    var body := Body(source);
    var n := PairRun(body);
    if IsHexText(source) {
      assert body[..|body|] == body;
      PairRunMaximal(body, |body|);
    } else if n == |body| {
      assert body[..n] == body;
    }
  }

  lemma RestOfRun(body: string, n: nat)
    requires n + 2 <= |body| && !IsPair(body[n..])
    ensures !IsDigit(body[n], 16) || !IsDigit(body[n + 1], 16)
  {
    assert body[n..][0] == body[n] && body[n..][1] == body[n + 1];
  }

  /** With an even, non-empty remainder the reported position exists, and it or the next character is no hex digit. */
  lemma InvalidDigitReported(source: string)
    requires Match(source).Some?
    requires Match(source).value.incompleteChars != "" && |Match(source).value.incompleteChars| % 2 == 0
    ensures var i := Match(source).value.InvalidCharPos();
      i + 1 < |source| && (!IsDigit(source[i], 16) || !IsDigit(source[i + 1], 16))
  {
    var body := Body(source);
    var n, skipped := PairRun(body), |source| - |body|;
    RestOfRun(body, n);
    assert body[n] == source[skipped + n] && body[n + 1] == source[skipped + n + 1];
  }

  /** The run of whole bytes is all of the digits, or all but the last. */
  lemma {:induction false} PairRunOfDigits(s: string)
    ensures DigitRun(s, 16) == PairRun(s) + (if PairRun(s) < |s| && IsDigit(s[PairRun(s)], 16) then 1 else 0)
  {
    if IsPair(s) {
      PairRunOfDigits(s[2..]);
      assert s[1..][1..] == s[2..];
      assert DigitRun(s, 16) == 2 + DigitRun(s[2..], 16);
      assert PairRun(s) < |s| ==> s[PairRun(s)] == s[2..][PairRun(s[2..])];
    } else if s != "" && IsDigit(s[0], 16) {
      assert |s| > 1 ==> !IsDigit(s[1], 16) && s[1..][0] == s[1];
    }
  }

  /** The character named in the message is itself a hex digit exactly when an odd number of them follows the prefix. */
  lemma ReportedDigitIff(source: string)
    requires Match(source).Some?
    requires Match(source).value.incompleteChars != "" && |Match(source).value.incompleteChars| % 2 == 0
    ensures Match(source).value.InvalidCharPos() < |source|
    ensures IsDigit(source[Match(source).value.InvalidCharPos()], 16) <==> DigitRun(Body(source), 16) % 2 == 1
  {
    var body := Body(source);
    var n := PairRun(body);
    assert n < |body| && body[n] == source[|source| - |body| + n];
    OddRunIff(body);
  }

  lemma OddRunIff(s: string)
    requires PairRun(s) < |s|
    ensures IsDigit(s[PairRun(s)], 16) <==> DigitRun(s, 16) % 2 == 1
  {
    PairRunOfDigits(s);
    OneMore(PairRun(s), IsDigit(s[PairRun(s)], 16));
  }

  lemma OneMore(n: nat, more: bool)
    requires n % 2 == 0
    ensures more <==> (n + if more then 1 else 0) % 2 == 1
  {
  }

  /** The shortest such text: `ag` blames `a`. */
  lemma ReportedDigitMayBeValid()
    ensures Match("ag") == Some(Parsed(false, "", "ag"))
    ensures IsDigit("ag"[Match("ag").value.InvalidCharPos()], 16)
  {
    assert PairRun("ag") == 0;
  }
}

/** `packages/utils` hex helpers. */
module HexUtils {
  import opened Results
  import opened Numerals
  import opened HexPattern

  datatype HexError =
    | NoGroups
    | EmptyInput
    | NonPositiveLength
    | LastByteIncomplete
    | InvalidDigit(digit: char, index: nat)
    | NotHex
    | WrongLength(expected: int, actual: int)
    | UnexpectedPrefix

  function ParseHex(source: string): Result<Parsed, HexError> {
    match Match(source)
    case None => Err(NoGroups)
    case Some(p) => Ok(p)
  }

  function IsHex(source: string, byteLen: Option<int>): Result<bool, HexError> {
    if source == "" || (byteLen.Some? && byteLen.value <= 0) then Ok(false)
    else
      var p :- ParseHex(source);
      var validByteLen := if byteLen.Some? then |p.byteChars| / 2 == byteLen.value else |p.byteChars| > 0;
      Ok(validByteLen && p.incompleteChars == "")
  }

  function AssertIsHex(source: string, byteLen: Option<int>): Result<(), HexError> {
    if source == "" then Err(EmptyInput)
    else if byteLen.Some? && byteLen.value <= 0 then Err(NonPositiveLength)
    else
      var p :- ParseHex(source);
      if p.incompleteChars != "" then
        if |p.incompleteChars| % 2 > 0 then Err(LastByteIncomplete)
        else
          InvalidDigitReported(source);
          Err(InvalidDigit(source[p.InvalidCharPos()], p.InvalidCharPos()))
      else if p.byteChars == "" then Err(NotHex)
      else if byteLen.Some? && byteLen.value != |p.byteChars| / 2 then
        Err(WrongLength(byteLen.value, |p.byteChars| / 2))
      else Ok(())
  }

  /** Both validators accept exactly the hex texts of the demanded number of bytes. */
  lemma ValidatorsAgree(source: string, byteLen: Option<int>)
    ensures IsHex(source, byteLen) == Ok(true) <==> AssertIsHex(source, byteLen).Ok?
    ensures AssertIsHex(source, byteLen).Ok?
            <==> IsHexText(source) && (byteLen.Some? ==> 2 * byteLen.value == |Body(source)|)
  {
    WholeBytesIffHexText(source);
    if Match(source).Some? {
      assert |Match(source).value.byteChars| % 2 == 0;
    }
  }

  /** `isHex` throws only where the pattern does not match; everywhere else it answers, and true for hex texts only. */
  lemma IsHexOutcome(source: string, byteLen: Option<int>)
    ensures IsHex(source, byteLen)
            == if source == "" || (byteLen.Some? && byteLen.value <= 0) then Ok(false)
               else if !OneLine(source) then Err(NoGroups)
               else Ok(IsHexText(source) && (byteLen.Some? ==> 2 * byteLen.value == |Body(source)|))
  {
    MatchesIffOneLine(source);
    WholeBytesIffHexText(source);
    if Match(source).Some? {
      assert |Match(source).value.byteChars| % 2 == 0;
    }
  }

  /** `assertIsHex` throws for the first of these that applies. */
  lemma AssertOutcome(source: string, byteLen: Option<int>)
    ensures var body := Body(source);
      var digits := DigitRun(body, 16);
      var place := |source| - |body| + digits - digits % 2;
      AssertIsHex(source, byteLen)
      == if source == "" then Err(EmptyInput)
         else if byteLen.Some? && byteLen.value <= 0 then Err(NonPositiveLength)
         else if !OneLine(source) then Err(NoGroups)
         else if body == "" then Err(NotHex)
         else if |body| % 2 == 1 then Err(LastByteIncomplete)
         else if digits < |body| then Err(InvalidDigit(source[place], place))
         else if byteLen.Some? && 2 * byteLen.value != |body| then Err(WrongLength(byteLen.value, |body| / 2))
         else Ok(())
  {
    MatchesIffOneLine(source);
    if OneLine(source) {
      MatchLengths(source);
    }
  }

  const CONTRACT_ADDRESS_BYTE_LENGTH := 34

  function AssertIsContractAddress(address: string): Result<(), HexError> {
    var _ :- AssertIsHex(address, Some(CONTRACT_ADDRESS_BYTE_LENGTH));
    var p :- ParseHex(address);
    if p.hasPrefix then Err(UnexpectedPrefix) else Ok(())
  }

  /** An address that is refused: for what `assertIsHex` throws, or for its prefix. */
  lemma AddressOutcome(address: string)
    ensures AssertIsContractAddress(address)
            == if AssertIsHex(address, Some(34)).Err? then AssertIsHex(address, Some(34))
               else if "0x" <= address then Err(UnexpectedPrefix) else Ok(())
  {
    WholeBytesIffHexText(address);
    ValidatorsAgree(address, Some(34));
  }

  /** Contract addresses are exactly the strings of 68 hex digits. */
  lemma ContractAddressIff(address: string)
    ensures AssertIsContractAddress(address).Ok? <==> |address| == 68 && AllDigits(address, 16)
  {
    ValidatorsAgree(address, Some(CONTRACT_ADDRESS_BYTE_LENGTH));
    WholeBytesIffHexText(address);
    if "0x" <= address {
      assert !IsDigit(address[1], 16);
    }
  }

  // Codec

  newtype byte = x: int | 0 <= x < 256

  function ToHex(bytes: seq<byte>): string {
    if bytes == [] then ""
    else [Digit(bytes[0] as int / 16), Digit(bytes[0] as int % 16)] + ToHex(bytes[1..])
  }

  /** `Buffer.from(s, 'hex')`: decoding stops at the first pair that is not a byte. */
  function FromHex(s: string): seq<byte> {
    if !IsPair(s) then []
    else [(DigitValue(s[0]) * 16 + DigitValue(s[1])) as byte] + FromHex(s[2..])
  }

  function LowerCase(s: string): string {
    seq(|s|, i requires 0 <= i < |s| => if 'A' <= s[i] <= 'Z' then (s[i] as int + 32) as char else s[i])
  }

  /** Decoding what was encoded returns the same bytes. */
  lemma {:induction false} FromToHex(bytes: seq<byte>)
    ensures |ToHex(bytes)| == 2 * |bytes| && AllDigits(ToHex(bytes), 16)
    ensures FromHex(ToHex(bytes)) == bytes
  {
    if bytes != [] {
      FromToHex(bytes[1..]);
      assert ToHex(bytes)[2..] == ToHex(bytes[1..]);
    }
  }

  lemma LowerDigit(c: char)
    requires IsDigit(c, 16)
    ensures [Digit(DigitValue(c))] == LowerCase([c])
  {
  }

  lemma LowerCaseConcat(s: string, t: string)
    ensures LowerCase(s + t) == LowerCase(s) + LowerCase(t)
  {
  }

  lemma FirstPair(s: string)
    requires IsPair(s)
    ensures ToHex(FromHex(s)) == LowerCase([s[0], s[1]]) + ToHex(FromHex(s[2..]))
  {
    LowerDigit(s[0]);
    LowerDigit(s[1]);
    var b := (DigitValue(s[0]) * 16 + DigitValue(s[1])) as byte;
    assert FromHex(s)[0] == b && FromHex(s)[1..] == FromHex(s[2..]);
    assert b as int / 16 == DigitValue(s[0]) && b as int % 16 == DigitValue(s[1]);
    LowerCaseConcat([s[0]], [s[1]]);
    assert [s[0]] + [s[1]] == [s[0], s[1]];
  }

  /** Encoding what was decoded returns the longest run of whole bytes, in lower case. */
  lemma {:induction false} ToFromHex(s: string)
    ensures ToHex(FromHex(s)) == LowerCase(s[..PairRun(s)])
  {
    if IsPair(s) {
      ToFromHex(s[2..]);
      FirstPair(s);
      assert s[..PairRun(s)] == [s[0], s[1]] + s[2..][..PairRun(s[2..])];
      LowerCaseConcat([s[0], s[1]], s[2..][..PairRun(s[2..])]);
    }
  }

  /** The encoding of the decoding is the lower-cased string exactly when the string is whole hex bytes. */
  lemma ToFromHexIff(s: string)
    ensures ToHex(FromHex(s)) == LowerCase(s) <==> |s| % 2 == 0 && AllDigits(s, 16)
  {
    ToFromHex(s);
    var n := PairRun(s);
    if |s| % 2 == 0 && AllDigits(s, 16) {
      PairRunMaximal(s, |s|);
    }
    if n == |s| {
      assert s[..n] == s;
    } else {
      assert |LowerCase(s[..n])| == n;
    }
  }

  // packages/contracts/src/find-deployed-contract.ts

  function VerifierKeysEqual(a: seq<byte>, b: seq<byte>): bool {
    |a| == |b| && ToHex(a) == ToHex(b)
  }

  lemma VerifierKeysEqualIff(a: seq<byte>, b: seq<byte>)
    ensures VerifierKeysEqual(a, b) <==> a == b
  {
    FromToHex(a);
    FromToHex(b);
  }
}

/** `platform-js` hex strings: its own parser over the same pattern, and constrained constructors. */
module PlatformHex {
  import opened Results
  import opened Numerals
  import opened HexPattern
  import HexUtils
  import Range = IntegerRange

  datatype ParseError = EmptySource | NotHex | LastByteIncomplete | InvalidDigit(digit: char, index: nat)

  function ParseHex(source: string): Result<Parsed, ParseError> {
    if source == "" then Err(EmptySource)
    else
      match Match(source)
      case None => Err(NotHex)
      case Some(p) =>
        if p.incompleteChars != "" then
          if |p.incompleteChars| % 2 > 0 then Err(LastByteIncomplete)
          else
            InvalidDigitReported(source);
            Err(InvalidDigit(source[p.InvalidCharPos()], p.InvalidCharPos()))
        else if p.byteChars == "" then Err(NotHex)
        else Ok(p)
  }

  /** The two packages accept the same strings, and the parse keeps the digits after the prefix. */
  lemma ParsersAgree(source: string)
    ensures ParseHex(source).Ok? <==> HexUtils.IsHex(source, None) == Ok(true)
    ensures ParseHex(source).Ok? <==> IsHexText(source)
    ensures ParseHex(source).Ok? ==> ParseHex(source).value == Parsed("0x" <= source, Body(source), "")
  {
    WholeBytesIffHexText(source);
    HexUtils.ValidatorsAgree(source, None);
  }

  /** The bytes of the digits of a parse, encoded again, are what stands after the prefix, in lower case. */
  lemma ParsedBytes(source: string)
    ensures if IsHexText(source)
            then ParseHex(source).Ok?
                 && HexUtils.ToHex(HexUtils.FromHex(ParseHex(source).value.byteChars)) == HexUtils.LowerCase(Body(source))
            else ParseHex(source).Err?
  {
    ParsersAgree(source);
    if IsHexText(source) {
      HexUtils.ToFromHexIff(Body(source));
    }
  }

  /** The parser refuses with the first of these that applies. */
  lemma ParseOutcome(source: string)
    ensures var body := Body(source);
      var digits := DigitRun(body, 16);
      var place := |source| - |body| + digits - digits % 2;
      ParseHex(source)
      == if source == "" then Err(EmptySource)
         else if !OneLine(source) || body == "" then Err(NotHex)
         else if |body| % 2 == 1 then Err(LastByteIncomplete)
         else if digits < |body| then Err(InvalidDigit(source[place], place))
         else Ok(Parsed("0x" <= source, body, ""))
  {
    MatchesIffOneLine(source);
    if OneLine(source) {
      MatchLengths(source);
    }
  }

  datatype ByteLength = OfRange(range: Range.Range) | OfText(text: string)

  datatype Constraints = Constraints(requirePrefix: bool, byteLength: Option<ByteLength>)

  datatype Verdict = Accepted | Rejected | Thrown

  /** The refinement behind a constrained hex constructor. */
  function Refine(source: string, c: Constraints): Verdict {
    match ParseHex(source)
    case Err(_) => Rejected
    case Ok(p) =>
      if c.requirePrefix != p.hasPrefix then Rejected
      else if c.byteLength.None? || c.byteLength == Some(OfText("")) then Accepted  // an empty text is falsy
      else
        var range := match c.byteLength.value
          case OfRange(r) => Some(r)
          case OfText(text) => Range.FromString(text);
        match range
        case None => Thrown
        case Some(r) => if Range.Contains(r, (|p.byteChars| / 2) as real) then Accepted else Rejected
  }

  /** Any constructor: the text first, then the prefix, then the length, if one is asked for, against the range. */
  lemma RefineOutcome(source: string, c: Constraints)
    ensures var length := (|Body(source)| / 2) as real;
      Refine(source, c)
      == if !IsHexText(source) || c.requirePrefix != ("0x" <= source) then Rejected
         else match c.byteLength
              case None => Accepted
              case Some(OfRange(r)) => if Range.Contains(r, length) then Accepted else Rejected
              case Some(OfText("")) => Accepted
              case Some(OfText(text)) =>
                match Range.FromString(text)
                case None => Thrown
                case Some(r) => if Range.Contains(r, length) then Accepted else Rejected
  {
    ParsersAgree(source);
  }

  predicate Takes(r: Range.Range, length: nat) {
    r.min <= length && if r.tag == Range.Inclusive then length <= r.max else length < r.max
  }

  /** A range with safe bounds contains the lengths that it denotes. */
  lemma SafeContains(r: Range.Range, length: nat)
    requires Range.Safe(r.min) && Range.Safe(r.max)
    ensures Range.Contains(r, length as real) <==> Takes(r, length)
  {
    Range.SafeAgrees(r, length);
    Range.WholeOrder(length, r.min);
    Range.WholeOrder(r.max, length);
    Range.WholeOrder(length, r.max);
  }

  /** Printed, it reads back as itself. */
  lemma SafePrinted(r: Range.Range)
    requires Range.Safe(r.min) && Range.Safe(r.max) && r.min >= 0 && r.max >= 0
    ensures Range.FromString(Range.ToString(r)) == Some(r) && Range.ToString(r) != ""
  {
    Range.SafeNeighbours(r.min);
    Range.SafeNeighbours(r.max);
    Range.RoundTripIff(r);
    assert Range.FromString("") == None;
  }

  /** With a range of safe bounds, given as an object or printed, exactly the lengths that it denotes are taken. */
  lemma ConstructorTakesRange(source: string, requirePrefix: bool, r: Range.Range)
    requires Range.Safe(r.min) && Range.Safe(r.max) && r.min >= 0 && r.max >= 0
    requires IsHexText(source) && requirePrefix == ("0x" <= source)
    ensures var verdict := if Takes(r, |Body(source)| / 2) then Accepted else Rejected;
      && Refine(source, Constraints(requirePrefix, Some(OfRange(r)))) == verdict
      && Refine(source, Constraints(requirePrefix, Some(OfText(Range.ToString(r))))) == verdict
  {
    SafeContains(r, |Body(source)| / 2);
    SafePrinted(r);
    RefineOutcome(source, Constraints(requirePrefix, Some(OfRange(r))));
    RefineOutcome(source, Constraints(requirePrefix, Some(OfText(Range.ToString(r)))));
  }

  /** A constructor whose length is the printed range `a..=b` takes exactly the texts of `a` to `b` whole bytes, one at least. */
  lemma ConstructorAccepts(source: string, requirePrefix: bool, a: nat, b: nat)
    requires Range.Safe(a) && Range.Safe(b)
    ensures var text := Range.ToString(Range.Range(Range.Inclusive, a, b));
      Refine(source, Constraints(requirePrefix, Some(OfText(text)))).Accepted?
      <==> ("0x" <= source) == requirePrefix && |Body(source)| % 2 == 0 && AllDigits(Body(source), 16)
           && a <= |Body(source)| / 2 <= b && 1 <= |Body(source)| / 2
  {
    var r := Range.Range(Range.Inclusive, a, b);
    if IsHexText(source) && requirePrefix == ("0x" <= source) {
      ConstructorTakesRange(source, requirePrefix, r);
    } else {
      RefineOutcome(source, Constraints(requirePrefix, Some(OfText(Range.ToString(r)))));
    }
  }
}
