/** Positional numerals: the digits behind decimal integers, hexadecimal bytes and `\u` escapes. */
module Numerals {
  import opened Results

  /** The value of a digit in any base up to sixteen, and -1 for every other character. */
  function DigitValue(c: char): int {
    if '0' <= c <= '9' then c as int - '0' as int
    else if 'a' <= c <= 'f' then c as int - 'a' as int + 10
    else if 'A' <= c <= 'F' then c as int - 'A' as int + 10
    else -1
  }

  predicate IsDigit(c: char, base: nat) {
    0 <= DigitValue(c) < base
  }

  predicate AllDigits(s: string, base: nat) {
    forall i :: 0 <= i < |s| ==> IsDigit(s[i], base)
  }

  /** The lower-case digit of a value below sixteen. */
  function Digit(d: nat): (c: char)
    requires d < 16
    ensures DigitValue(c) == d
  {
    if d < 10 then (d + '0' as int) as char else (d - 10 + 'a' as int) as char
  }

  /** The decimal digits of a number. */
  function Print(n: nat): string {
    if n < 10 then [Digit(n)] else Print(n / 10) + [Digit(n % 10)]
  }

  function Value(s: string, base: nat): nat
    requires AllDigits(s, base)
  {
    if s == "" then 0
    else
      assert IsDigit(s[|s| - 1], base);
      Value(s[..|s| - 1], base) * base + DigitValue(s[|s| - 1])
  }

  lemma AppendDigit(front: string, d: char)
    requires front != "" && AllDigits(front, 10) && IsDigit(d, 10)
    ensures AllDigits(front + [d], 10) && (front + [d])[0] == front[0]
  {
  }

  lemma {:induction false} PrintDigits(n: nat)
    ensures Print(n) != "" && AllDigits(Print(n), 10)
    ensures n != 0 ==> Print(n)[0] != '0'
    ensures n == 0 ==> Print(n) == "0"
  {
    if n >= 10 {
      PrintDigits(n / 10);
      AppendDigit(Print(n / 10), Digit(n % 10));
    }
  }

  lemma ValueSnoc(front: string, c: char, base: nat)
    requires AllDigits(front, base) && IsDigit(c, base)
    ensures AllDigits(front + [c], base)
    ensures Value(front + [c], base) == Value(front, base) * base + DigitValue(c)
  {
    assert (front + [c])[..|front|] == front;
  }

  /** Printing a number and reading the digits back gives the same number. */
  lemma {:induction false} ValuePrint(n: nat)
    ensures AllDigits(Print(n), 10) && Value(Print(n), 10) == n
  {
    if n < 10 {
      ValueSnoc("", Digit(n), 10);
      assert "" + [Digit(n)] == [Digit(n)];
      assert Value("", 10) == 0;
    } else {
      ValuePrint(n / 10);
      ValueSnoc(Print(n / 10), Digit(n % 10), 10);
    }
  }

  /** The length of the longest prefix made of digits. */
  function DigitRun(s: string, base: nat): (n: nat)
    ensures n <= |s| && AllDigits(s[..n], base)
    ensures forall i :: 0 <= i < n ==> IsDigit(s[i], base)
    ensures n < |s| ==> !IsDigit(s[n], base)
  {
    if s == "" || !IsDigit(s[0], base) then 0 else 1 + DigitRun(s[1..], base)
  }

  lemma DigitRunOf(digits: string, rest: string, base: nat)
    requires AllDigits(digits, base)
    requires rest == "" || !IsDigit(rest[0], base)
    ensures DigitRun(digits + rest, base) == |digits|
  {
    assert forall i :: 0 <= i < |digits| ==> (digits + rest)[i] == digits[i];
    assert rest != "" ==> (digits + rest)[|digits|] == rest[0];
    assert DigitRun(digits + rest, base) >= |digits|;
  }

  /** The decimal text of an integer, as `String(n)` prints a bigint. */
  function PrintInt(n: int): string {
    if n < 0 then "-" + Print(-n) else Print(n)
  }

  /** ECMAScript white space and line terminators, by code point. */
  predicate IsWhiteSpace(c: char) {
    var code := c as int;
    code in {0x09, 0x0a, 0x0b, 0x0c, 0x0d, 0x20, 0xa0, 0x1680, 0x2028, 0x2029, 0x202f, 0x205f, 0x3000, 0xfeff}
    || 0x2000 <= code <= 0x200a
  }

  function Trim(s: string): string {
    if s == "" then s
    else if IsWhiteSpace(s[0]) then Trim(s[1..])
    else if IsWhiteSpace(s[|s| - 1]) then Trim(s[..|s| - 1])
    else s
  }

  /** `BigInt(text)`: `None` is the SyntaxError. Only decimal literals may carry a sign. */
  function BigIntOf(s: string): Option<int> {
    var t := Trim(s);
    if t == "" then Some(0)
    else if |t| > 2 && t[0] == '0' && t[1] in "xX" then Digits(t[2..], 16)
    else if |t| > 2 && t[0] == '0' && t[1] in "oO" then Digits(t[2..], 8)
    else if |t| > 2 && t[0] == '0' && t[1] in "bB" then Digits(t[2..], 2)
    else if t[0] == '+' then Digits(t[1..], 10)
    else if t[0] == '-' then (var n :- Digits(t[1..], 10); Some(-n))
    else Digits(t, 10)
  }

  function Digits(s: string, base: nat): Option<int> {
    if s != "" && AllDigits(s, base) then Some(Value(s, base)) else None
  }

  /** `BigInt(String(n))` is `n` for every bigint. */
  lemma BigIntOfPrint(n: int)
    ensures BigIntOf(PrintInt(n)) == Some(n)
  {
    var digits := Print(if n < 0 then -n else n);
    PrintDigits(if n < 0 then -n else n);
    ValuePrint(if n < 0 then -n else n);
    assert IsDigit(digits[0], 10) && IsDigit(digits[|digits| - 1], 10);
    var t := PrintInt(n);
    assert t[|t| - 1] == digits[|digits| - 1];
    if n < 0 {
      assert t[1..] == digits;
    } else if |t| > 1 {
      assert IsDigit(t[1], 10);
    }
  }

  // Texts that `BigInt` reads

  predicate Blank(s: string) {
    forall i :: 0 <= i < |s| ==> IsWhiteSpace(s[i])
  }

  /** No white space at either end. */
  predicate Bare(t: string) {
    t != "" ==> !IsWhiteSpace(t[0]) && !IsWhiteSpace(t[|t| - 1])
  }

  lemma {:induction false} TrimEnd(t: string, after: string)
    requires t != "" && Bare(t) && Blank(after)
    ensures Trim(t + after) == t
    decreases |after|
  {
    var s := t + after;
    if after == "" {
      assert s == t;
    } else {
      assert s[|s| - 1] == after[|after| - 1] && s[0] == t[0];
      assert s[..|s| - 1] == t + after[..|after| - 1];
      TrimEnd(t, after[..|after| - 1]);
    }
  }

  lemma {:induction false} TrimBlank(s: string)
    requires Blank(s)
    ensures Trim(s) == ""
  {
    if s != "" {
      TrimBlank(s[1..]);
    }
  }

  /** Trimming takes the white space off both ends, and nothing else. */
  lemma {:induction false} TrimAround(before: string, t: string, after: string)
    requires Blank(before) && Bare(t) && Blank(after)
    ensures Trim(before + t + after) == t
    decreases |before|
  {
    if before == "" {
      assert before + t + after == t + after;
      if t == "" {
        assert t + after == after;
        TrimBlank(after);
      } else {
        TrimEnd(t, after);
      }
    } else {
      var s := before + t + after;
      assert s[0] == before[0] && s[1..] == before[1..] + t + after;
      TrimAround(before[1..], t, after);
    }
  }

  predicate IsNumeral(digits: string, base: nat) {
    digits != "" && AllDigits(digits, base)
  }

  /** A literal and its value: nothing, decimal digits with a sign or without, or digits behind a radix prefix. */
  predicate Denotes(t: string, n: int) {
    || (t == "" && n == 0)
    || (IsNumeral(t, 10) && n == Value(t, 10))
    || (|t| > 1 && t[0] == '+' && IsNumeral(t[1..], 10) && n == Value(t[1..], 10))
    || (|t| > 1 && t[0] == '-' && IsNumeral(t[1..], 10) && n + Value(t[1..], 10) == 0)
    || (|t| > 2 && (t[..2] == "0x" || t[..2] == "0X") && IsNumeral(t[2..], 16) && n == Value(t[2..], 16))
    || (|t| > 2 && (t[..2] == "0o" || t[..2] == "0O") && IsNumeral(t[2..], 8) && n == Value(t[2..], 8))
    || (|t| > 2 && (t[..2] == "0b" || t[..2] == "0B") && IsNumeral(t[2..], 2) && n == Value(t[2..], 2))
  }

  lemma Radix(t: string)
    requires |t| > 2
    ensures t[..2] == [t[0], t[1]]
    ensures t[1] in "xXoObB" ==> !IsDigit(t[1], 10)
  {
  }

  /** `BigInt` reads exactly these literals, with white space around them. */
  lemma BigIntOfIff(before: string, t: string, after: string, n: int)
    requires Blank(before) && Bare(t) && Blank(after)
    ensures BigIntOf(before + t + after) == Some(n) <==> Denotes(t, n)
  {
    TrimAround(before, t, after);
    if |t| > 2 {
      Radix(t);
    }
    if t != "" && (t[0] == '+' || t[0] == '-') {
      assert !IsDigit(t[0], 10);
    }
  }
}
