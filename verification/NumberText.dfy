/**
  How JavaScript prints an integer-valued double (section 6.1.6.1.20 of ECMA-262, with the closest digits where several
  of the same number would do): as few significant digits as denote it, padded with zeros. From 10^21 on the text has an
  exponent.
 */
module NumberText {
  import opened JsNumbers
  import opened Numerals

  const TEN_21: int := 1_000_000_000_000_000_000_000

  /** A number without its last `z` decimal digits. */
  function Cut(d: nat, z: nat): nat {
    if z == 0 then d else Cut(d / 10, z - 1)
  }

  /** A number followed by `z` zeros. */
  function Padded(q: nat, z: nat): nat {
    if z == 0 then q else 10 * Padded(q, z - 1)
  }

  /** How many decimal digits a number has. */
  function Width(d: nat): nat {
    if d < 10 then 1 else 1 + Width(d / 10)
  }

  /** Of the two numbers with `z` zeros next to `d` the one that rounds to `d`, and the nearer if both do. */
  function Candidate(d: nat, z: nat): (m: int)
    ensures m >= 0 ==> RoundNat(m) == d && (m == Padded(Cut(d, z), z) || m == Padded(Cut(d, z) + 1, z))
  {
    var q := Cut(d, z);
    var lo, hi := Padded(q, z), Padded(q + 1, z);
    if RoundNat(lo) == d && (RoundNat(hi) != d || d - lo < hi - d || (d - lo == hi - d && q % 2 == 0)) then lo
    else if RoundNat(hi) == d then hi
    else -1
  }

  /** The number that is printed for the double `d`, tried with at most `z` zeros at the end. */
  function ShownNat(d: nat, z: nat): nat {
    if z == 0 then d
    else
      var m := Candidate(d, z);
      if m >= 0 then m else ShownNat(d, z - 1)
  }

  function ShownDouble(d: int): int {
    var shown: int := ShownNat(if d < 0 then -d else d, Width(if d < 0 then -d else d));
    if d < 0 then -shown else shown
  }

  /** The number that is printed for the double nearest to `n`. */
  function Shown(n: int): int {
    ShownDouble(Round(n))
  }

  /** The double nearest to `n` is printed as an integer literal. */
  predicate WithoutExponent(n: int) {
    -TEN_21 < Round(n) < TEN_21
  }

  /** A number without the zeros at its end. */
  function Stripped(m: nat): (q: nat)
    requires m > 0
    ensures q > 0
  {
    if m % 10 == 0 then Stripped(m / 10) else m
  }

  /** The significant digits with a point after the first, if there are more, and the exponent's sign. */
  function Mantissa(digits: string): string
    requires digits != ""
  {
    [digits[0]] + (if |digits| > 1 then "." + digits[1..] else "") + "e+"
  }

  function ExponentText(m: nat): string
    requires m > 0
  {
    PrintDigits(Stripped(m));
    Mantissa(Print(Stripped(m))) + Print(Width(m) - 1)
  }

  function SignedExponent(m: int): string
    requires m != 0
  {
    if m < 0 then "-" + ExponentText(-m) else ExponentText(m)
  }

  /** The text of the double nearest to `n`. */
  function NumberString(n: int): string {
    var m := Shown(n);
    if WithoutExponent(n) || m == 0 then PrintInt(m)
    else SignedExponent(m)
  }

  predicate PrintedAsItself(n: int) {
    WithoutExponent(n) && Shown(n) == n
  }

  /** What is printed denotes the double. */
  lemma {:induction false} ShownNatRounds(d: nat, z: nat)
    requires RoundNat(d) == d
    ensures RoundNat(ShownNat(d, z)) == d
  {
    if z > 0 {
      ShownNatRounds(d, z - 1);
    }
  }

  lemma RoundSign(n: int)
    ensures n >= 0 ==> Round(n) == RoundNat(n) >= 0
    ensures n < 0 ==> Round(n) == -RoundNat(-n) <= 0
  {
    RoundNatIdempotent(if n < 0 then -n else n);
  }

  /** Reading what was printed gives the same double. */
  lemma ShownRounds(n: int)
    ensures Round(Shown(n)) == Round(n)
  {
    RoundIdempotent(n);
    DoubleShownRounds(Round(n));
  }

  lemma DoubleShownRounds(d: int)
    requires Round(d) == d
    ensures Round(ShownDouble(d)) == d
  {
    RoundSign(d);
    if d < 0 {
      ShownNatRounds(-d, Width(-d));
      ShownPositive(-d, Width(-d));
    } else {
      ShownNatRounds(d, Width(d));
    }
  }

  lemma {:induction false} ShownPositive(d: nat, z: nat)
    requires d > 0 && RoundNat(d) == d
    ensures ShownNat(d, z) > 0
  {
    ShownNatRounds(d, z);
    RoundNatExact(0);
  }

  // The fewest digits, and the closest of those

  lemma {:induction false} PaddedOrder(a: nat, b: nat, z: nat)
    requires a <= b
    ensures a <= Padded(a, z) <= Padded(b, z)
  {
    if z > 0 {
      PaddedOrder(a, b, z - 1);
    }
  }

  /** The numbers with `z` zeros on both sides of `d`. */
  lemma {:induction false} CutBounds(d: nat, z: nat)
    ensures Padded(Cut(d, z), z) <= d < Padded(Cut(d, z) + 1, z)
  {
    if z > 0 {
      CutBounds(d / 10, z - 1);
      assert Padded(Cut(d, z), z) == 10 * Padded(Cut(d / 10, z - 1), z - 1);
      assert Padded(Cut(d, z) + 1, z) == 10 * Padded(Cut(d / 10, z - 1) + 1, z - 1);
    }
  }

  /** If any number with `z` zeros denotes the double, the candidate does, and none is closer. */
  lemma CandidateClosest(d: nat, z: nat, q: nat)
    requires RoundNat(d) == d && RoundNat(Padded(q, z)) == d
    ensures Candidate(d, z) >= 0 && Distance(Candidate(d, z), d) <= Distance(Padded(q, z), d)
  {
    var lo, hi := Padded(Cut(d, z), z), Padded(Cut(d, z) + 1, z);
    CutBounds(d, z);
    if q <= Cut(d, z) {
      PaddedOrder(q, Cut(d, z), z);
      RoundNatOrder(Padded(q, z), lo);
      RoundNatOrder(lo, d);
    } else {
      PaddedOrder(Cut(d, z) + 1, q, z);
      RoundNatOrder(d, hi);
      RoundNatOrder(hi, Padded(q, z));
    }
    ChosenClosest(d, z, lo, hi);
  }

  lemma ChosenClosest(d: nat, z: nat, lo: nat, hi: nat)
    requires lo == Padded(Cut(d, z), z) <= d < hi == Padded(Cut(d, z) + 1, z)
    requires RoundNat(lo) == d || RoundNat(hi) == d
    ensures Candidate(d, z) >= 0
    ensures RoundNat(lo) == d ==> Distance(Candidate(d, z), d) <= d - lo
    ensures RoundNat(hi) == d ==> Distance(Candidate(d, z), d) <= hi - d
  {
  }

  /** The number ends in at least `y` zeros, and is no farther from `d` than `m` if in no more. */
  ghost predicate NoWorse(s: nat, d: nat, m: nat, y: nat) {
    exists q: nat, z: nat :: z >= y && s == Padded(q, z) && (z == y ==> Distance(s, d) <= Distance(m, d))
  }

  lemma {:induction false} ShownBest(d: nat, z: nat, q: nat, y: nat)
    requires RoundNat(d) == d && y <= z && RoundNat(Padded(q, y)) == d
    ensures NoWorse(ShownNat(d, z), d, Padded(q, y), y)
  {
    if y == z {
      CandidateClosest(d, z, q);
    }
    if z == 0 {
      assert d == Padded(d, 0);
    } else if Candidate(d, z) >= 0 {
      var c := if Candidate(d, z) == Padded(Cut(d, z), z) then Cut(d, z) else Cut(d, z) + 1;
      assert ShownNat(d, z) == Padded(c, z);
    } else {
      ShownBest(d, z - 1, q, y);
    }
  }

  lemma {:induction false} WidthBounds(d: nat)
    ensures d < Padded(1, Width(d))
  {
    if d >= 10 {
      WidthBounds(d / 10);
    }
  }

  lemma {:induction false} PaddedZeros(y: nat, w: nat)
    requires w <= y
    ensures Padded(1, w) <= Padded(1, y)
  {
    if w < y {
      PaddedZeros(y - 1, w);
    }
  }

  /** No number with more zeros than the double has digits denotes it. */
  lemma TooManyZeros(d: nat, q: nat, y: nat)
    requires d > 0 && y > Width(d)
    ensures RoundNat(Padded(q, y)) != d
  {
    WidthBounds(d);
    PaddedZeros(y - 1, Width(d));
    RoundNatWithin(Padded(q, y));
    if q > 0 {
      PaddedOrder(1, q, y);
    } else {
      PaddedNothing(y);
    }
  }

  lemma {:induction false} PaddedNothing(y: nat)
    ensures Padded(0, y) == 0
  {
    if y > 0 {
      PaddedNothing(y - 1);
    }
  }

  /** Of all numbers that denote a double, none ends in more zeros than the one that is printed, and none of those is closer. */
  lemma ShownShortest(d: nat, q: nat, y: nat)
    requires d > 0 && RoundNat(d) == d && RoundNat(Padded(q, y)) == d
    ensures NoWorse(ShownNat(d, Width(d)), d, Padded(q, y), y)
  {
    if y > Width(d) {
      TooManyZeros(d, q, y);
    } else {
      ShownBest(d, Width(d), q, y);
    }
  }

  // With an exponent

  lemma {:induction false} PrintWidth(n: nat)
    ensures |Print(n)| == Width(n)
  {
    if n >= 10 {
      PrintWidth(n / 10);
    }
  }

  /** The stripped number ends in no zero, and has lost as many as it is narrower. */
  lemma {:induction false} StrippedMeaning(m: nat)
    requires m > 0
    ensures Stripped(m) % 10 != 0 && Width(Stripped(m)) <= Width(m)
    ensures m == Padded(Stripped(m), Width(m) - Width(Stripped(m)))
  {
    if m % 10 == 0 {
      StrippedMeaning(m / 10);
    }
  }

  lemma LastDigit(n: nat)
    requires n % 10 != 0
    ensures Print(n) != "" && Print(n)[|Print(n)| - 1] != '0'
  {
  }

  /**
    One digit that is not zero, behind a point what else there is up to the last digit that is not zero, and the power of
    ten: together the number.
   */
  lemma ExponentMeaning(m: nat) returns (lead: char, tail: string)
    requires m > 0
    ensures AllDigits([lead] + tail, 10) && lead != '0' && (tail != "" ==> tail[|tail| - 1] != '0')
    ensures |tail| < Width(m) && m == Padded(Value([lead] + tail, 10), Width(m) - 1 - |tail|)
    ensures ExponentText(m) == [lead] + (if tail == "" then "" else "." + tail) + "e+" + Print(Width(m) - 1)
  {
    var q := Stripped(m);
    StrippedMeaning(m);
    PrintDigits(q);
    PrintWidth(q);
    LastDigit(q);
    ValuePrint(q);
    lead, tail := Print(q)[0], Print(q)[1..];
    assert [lead] + tail == Print(q);
  }

  lemma SignInFront(n: int, m: nat)
    requires m > 0 && (n == m || n + m == 0)
    ensures SignedExponent(n) == if n < 0 then "-" + ExponentText(m) else ExponentText(m)
  {
  }

  lemma ShownSign(n: int)
    requires !WithoutExponent(n)
    ensures if n < 0 then Shown(n) < 0 else Shown(n) > 0
  {
    RoundSign(n);
    RoundIdempotent(n);
    RoundSign(Round(n));
    var d := Round(n);
    ShownPositive(if d < 0 then -d else d, Width(if d < 0 then -d else d));
  }

  /** Numbers from 10^21 on are printed with an exponent. */
  lemma LargeNumbers(n: int)
    requires !WithoutExponent(n)
    ensures Shown(n) != 0 && NumberString(n) == SignedExponent(Shown(n))
  {
    ShownSign(n);
  }

  // Up to 2^53

  /** Two beyond 2^53 nothing rounds to it any more. */
  lemma RoundsBeyond(m: nat)
    requires m >= TWO_53 + 2
    ensures RoundNat(m) >= TWO_53 + 2
  {
    RoundNatOrder(TWO_53 + 2, m);
    assert Spacing((TWO_53 + 2) / 2) == 1;
    assert Spacing(TWO_53 + 2) == 2;
  }

  /** A multiple of ten that rounds to a number up to 2^53 is that number. */
  lemma SmallCandidate(d: nat, m: nat)
    requires d <= TWO_53 && m % 10 == 0 && RoundNat(m) == d
    ensures m == d
  {
    assert m != TWO_53 + 1;
    if m <= TWO_53 {
      RoundNatExact(m);
    } else {
      RoundsBeyond(m);
    }
  }

  lemma EndsInZero(q: nat, z: nat)
    requires z > 0
    ensures Padded(q, z) % 10 == 0
  {
  }

  lemma CandidateExact(d: nat, z: nat)
    requires d <= TWO_53 && z > 0 && Candidate(d, z) >= 0
    ensures Candidate(d, z) == d
  {
    EndsInZero(Cut(d, z), z);
    EndsInZero(Cut(d, z) + 1, z);
    SmallCandidate(d, Candidate(d, z));
  }

  lemma {:induction false} ShownNatExact(d: nat, z: nat)
    requires d <= TWO_53
    ensures ShownNat(d, z) == d
  {
    if z > 0 {
      ShownNatExact(d, z - 1);
      if Candidate(d, z) >= 0 {
        CandidateExact(d, z);
      }
    }
  }

  /** Up to 2^53 every integer is printed as itself. */
  lemma ShownExact(n: int)
    requires -TWO_53 <= n <= TWO_53
    ensures PrintedAsItself(n)
  {
    RoundExact(n);
    ShownNatExact(if n < 0 then -n else n, Width(if n < 0 then -n else n));
  }

  // Beyond 2^53

  const TWO_60: int := 0x1000_0000_0000_0000
  const SHOWN_60: int := 1_152_921_504_606_847_000

  function PowerOfTwo(k: nat): (p: nat)
    ensures p >= 1
  {
    if k == 0 then 1 else 2 * PowerOfTwo(k - 1)
  }

  lemma {:induction false} SpacingOfPower(k: nat)
    ensures Spacing(TWO_53 * PowerOfTwo(k)) == 2 * PowerOfTwo(k)
  {
    if k == 0 {
      assert Spacing(TWO_53 / 2) == 1;
    } else {
      SpacingOfPower(k - 1);
      assert TWO_53 * PowerOfTwo(k) / 2 == TWO_53 * PowerOfTwo(k - 1);
    }
  }

  /** At 2^60 every 256th integer is a double. */
  lemma SpacingAt60(m: nat)
    requires TWO_60 <= m < 2 * TWO_60
    ensures Spacing(m) == 256
  {
    SpacingOfPower(7);
    assert PowerOfTwo(7) == 128;
    SpacingOf(TWO_60, m);
  }

  lemma DoublesAt60()
    ensures RoundNat(TWO_60 - 128) == TWO_60 - 128
    ensures RoundNat(TWO_60) == TWO_60 && RoundNat(SHOWN_60) == TWO_60
    ensures RoundNat(TWO_60 + 256) == TWO_60 + 256
  {
    SpacingAt60(TWO_60);
    SpacingDoubles(TWO_60);
    SpacingOf(TWO_60 / 2, TWO_60 - 128);
    SpacingAt60(SHOWN_60);
    SpacingAt60(TWO_60 + 256);
  }

  /** The only multiple of a thousand that rounds to 2^60. */
  lemma ThousandsAt60(m: nat)
    requires m % 1000 == 0 && RoundNat(m) == TWO_60
    ensures m == SHOWN_60
  {
    DoublesAt60();
    if m <= TWO_60 - 128 {
      RoundNatOrder(m, TWO_60 - 128);
    } else if m >= TWO_60 + 256 {
      RoundNatOrder(TWO_60 + 256, m);
    }
  }

  lemma Thousands(q: nat, z: nat)
    requires z >= 3
    ensures Padded(q, z) % 1000 == 0
  {
    assert Padded(q, z) == 10 * Padded(q, z - 1) == 100 * Padded(q, z - 2) == 1000 * Padded(q, z - 3);
  }

  lemma {:induction false} ShownThousands(d: nat, z: nat)
    requires z >= 3 && Candidate(d, 3) >= 0
    ensures ShownNat(d, z) % 1000 == 0 && RoundNat(ShownNat(d, z)) == d
  {
    if Candidate(d, z) >= 0 {
      Thousands(Cut(d, z), z);
      Thousands(Cut(d, z) + 1, z);
    } else {
      ShownThousands(d, z - 1);
    }
  }

  lemma CandidateAt60()
    ensures Candidate(TWO_60, 3) >= 0
  {
    assert Cut(TWO_60, 3) == Cut(TWO_60 / 10, 2) == Cut(TWO_60 / 100, 1) == Cut(TWO_60 / 1000, 0) == SHOWN_60 / 1000 - 1;
    assert Padded(SHOWN_60 / 1000, 1) == SHOWN_60 / 100;
    assert Padded(SHOWN_60 / 1000, 2) == SHOWN_60 / 10;
    assert Padded(SHOWN_60 / 1000, 3) == SHOWN_60;
    DoublesAt60();
  }

  /** The bigint 2^60 is a double and is printed as another number, which is none and is printed as itself. */
  lemma ShownBeyond()
    ensures IsDouble(TWO_60) && Shown(TWO_60) == SHOWN_60
    ensures !IsDouble(SHOWN_60) && PrintedAsItself(SHOWN_60)
  {
    DoublesAt60();
    CandidateAt60();
    ShownThousands(TWO_60, Width(TWO_60));
    ThousandsAt60(ShownNat(TWO_60, Width(TWO_60)));
  }

  /** From 10^21 on, which is a double, every text has an exponent. */
  lemma ExponentFrom(n: int)
    requires n <= -TEN_21 || TEN_21 <= n
    ensures !WithoutExponent(n)
  {
    SpacingOfPower(16);
    assert PowerOfTwo(8) == 256 && PowerOfTwo(16) == 65536;
    SpacingOf(TWO_53 * 65536, TEN_21);
    assert RoundNat(TEN_21) == TEN_21;
    if n < 0 {
      RoundOrder(n, -TEN_21);
    } else {
      RoundOrder(TEN_21, n);
    }
  }
}
