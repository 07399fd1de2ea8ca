/** `platform-js` integer ranges: membership, conversion between the two kinds, printing and parsing. */
module IntegerRange {
  import opened Results
  import opened Numerals
  import opened JsNumbers
  import opened NumberText

  datatype Tag = Inclusive | Exclusive

  /** Bounds are integer-valued numbers. */
  datatype Range = Range(tag: Tag, min: int, max: int)

  // The values a range denotes, independently of how `Contains` computes it.
  predicate Denotes(r: Range, v: real) {
    r.min as real <= v && (if r.tag == Inclusive then v <= r.max as real else v < r.max as real)
  }

  function Contains(r: Range, v: real): bool
    decreases r.tag == Inclusive
  {
    if r.tag == Inclusive then Contains(Range(Exclusive, r.min, Round(r.max + 1)), v)
    else v >= r.min as real && v < r.max as real
  }

  function ToInclusive(r: Range): Range {
    if r.tag == Inclusive then r else Range(Inclusive, r.min, Round(r.max - 1))
  }

  function ToExclusive(r: Range): Range {
    if r.tag == Exclusive then r else Range(Exclusive, r.min, Round(r.max + 1))
  }

  // Text

  function ToString(r: Range): string {
    var sep := if r.tag == Inclusive then "..=" else "..";
    NumberString(r.min) + (sep + NumberString(r.max))
  }

  datatype Groups = Groups(n: string, inc: string, x: string)

  /** The groups of the range pattern when `lower` and the two dots have been matched. */
  function GroupsAfter(lower: string, tail: string): Groups {
    var inc := if "=" <= tail then "=" else "";
    var upper := tail[|inc|..];
    Groups(lower, inc, upper[..DigitRun(upper, 10)])
  }

  /** The range pattern matched at the start of `s`. */
  function MatchHere(s: string): Option<Groups> {
    var run := DigitRun(s, 10);
    if ".." <= s[run..] then Some(GroupsAfter(s[..run], s[run + 2..])) else None
  }

  /** The leftmost match: the pattern is not anchored. */
  function Match(s: string): Option<Groups> {
    match MatchHere(s)
    case Some(groups) => Some(groups)
    case None => if s == "" then None else Match(s[1..])
  }

  lemma {:induction false} MatchDigits(s: string)
    ensures Match(s).Some? ==> AllDigits(Match(s).value.n, 10) && AllDigits(Match(s).value.x, 10)
  {
    if MatchHere(s).None? && s != "" {
      MatchDigits(s[1..]);
    }
  }

  /** `from(text)`; an absent bound reads as zero, and `None` is the thrown error. */
  function FromString(s: string): Option<Range> {
    MatchDigits(s);
    var groups :- Match(s);
    Some(Range(if groups.inc == "=" then Inclusive else Exclusive,
               Round(Value(groups.n, 10)),
               Round(Value(groups.x, 10))))
  }

  // Membership

  const TWO_52: int := TWO_53 / 2

  predicate IsWhole(v: real) {
    v == v.Floor as real
  }

  /** `v` is `m` with the point moved by `k` bits. */
  predicate Shifted(v: real, m: int, k: nat) {
    v * PowerOfTwo(k) as real == m as real
  }

  /** The finite doubles: 53 significant bits, with a fraction of up to 1074 bits. */
  ghost predicate IsNumber(v: real) {
    (IsWhole(v) && IsDouble(v.Floor)) || exists m: int, k: nat :: 1 <= k <= 1074 && -TWO_53 < m < TWO_53 && Shifted(v, m, k)
  }

  lemma WholeIsNumber(n: int)
    requires IsDouble(n)
    ensures IsNumber(n as real)
  {
    assert (n as real).Floor == n;
  }

  lemma HalfIsNumber(n: int)
    requires -TWO_52 <= n < TWO_52
    ensures IsNumber(n as real + 0.5)
  {
    assert PowerOfTwo(1) == 2;
    assert Shifted(n as real + 0.5, 2 * n + 1, 1);
  }

  lemma WholeOrder(m: int, n: int)
    ensures m as real < n as real <==> m < n
  {
  }

  lemma Product(x: real, y: real)
    requires y >= 2.0
    ensures x >= 0.0 ==> x * y >= 2.0 * x
    ensures x <= 0.0 ==> x * y <= 2.0 * x
  {
    if x >= 0.0 {
      assert x * (y - 2.0) >= 0.0;
    } else {
      assert (-x) * (y - 2.0) >= 0.0;
      assert (-x) * (y - 2.0) == 2.0 * x - x * y;
    }
  }

  lemma HalfBound(v: real, power: real, product: real, bound: real)
    requires power >= 2.0 && v * power == product && -2.0 * bound < product < 2.0 * bound
    ensures -bound < v < bound
  {
    Product(v, power);
  }

  lemma PowerAtLeastTwo(k: nat)
    requires k >= 1
    ensures PowerOfTwo(k) as real >= 2.0
  {
    assert PowerOfTwo(k) == 2 * PowerOfTwo(k - 1) >= 2;
    WholeOrder(1, PowerOfTwo(k));
  }

  lemma ShiftedSmall(v: real, m: int, k: nat)
    requires Shifted(v, m, k) && k >= 1 && -TWO_53 < m < TWO_53
    ensures -TWO_52 as real < v < TWO_52 as real
  {
    PowerAtLeastTwo(k);
    WholeOrder(m, TWO_53);
    WholeOrder(-TWO_53, m);
    HalfBound(v, PowerOfTwo(k) as real, m as real, TWO_52 as real);
  }

  /** Doubles with a fraction are below 2^52. */
  lemma NumberKinds(v: real)
    requires IsNumber(v)
    ensures (IsWhole(v) && IsDouble(v.Floor)) || -TWO_52 as real < v < TWO_52 as real
  {
    if !(IsWhole(v) && IsDouble(v.Floor)) {
      var m: int, k: nat :| 1 <= k <= 1074 && -TWO_53 < m < TWO_53 && Shifted(v, m, k);
      ShiftedSmall(v, m, k);
    }
  }

  /** No integer-valued double lies between a double and the rounding of its successor. */
  lemma NextDouble(max: int, v: int)
    requires IsDouble(max) && IsDouble(v)
    ensures Round(max + 1) > max ==> (v < Round(max + 1) <==> v <= max)
    ensures max <= Round(max + 1)
  {
    RoundOrder(max, max + 1);
    if v > max {
      RoundOrder(max + 1, v);
    }
  }

  predicate AgreesAt(r: Range, v: real) {
    Contains(r, v) == Denotes(r, v)
  }

  lemma ContainsMeans(r: Range, v: real)
    ensures Contains(r, v) <==> r.min as real <= v && v < (if r.tag == Inclusive then Round(r.max + 1) else r.max) as real
  {
    if r.tag == Inclusive {
      assert Contains(r, v) == Contains(Range(Exclusive, r.min, Round(r.max + 1)), v);
    }
  }

  /** On what `contains` and the interval of an inclusive range differ: too much above the maximum, or the maximum itself. */
  lemma ContainsDiffers(r: Range, v: real)
    requires IsDouble(r.max)
    ensures r.tag == Exclusive ==> AgreesAt(r, v)
    ensures r.tag == Inclusive && Contains(r, v) && !Denotes(r, v) <==>
              r.tag == Inclusive && r.min as real <= v && r.max as real < v < Round(r.max + 1) as real
    ensures Denotes(r, v) && !Contains(r, v) <==>
              r.tag == Inclusive && r.min as real <= v == r.max as real && Round(r.max + 1) == r.max
  {
    ContainsMeans(r, v);
    NextDouble(r.max, r.max);
  }

  /** With integer values only: exactly when the maximum, if it counts, has a successor that does not round back to it. */
  predicate WholeAgreement(r: Range) {
    r.tag == Exclusive || r.max < r.min || Round(r.max + 1) > r.max
  }

  lemma WholeContainsIff(r: Range)
    requires IsDouble(r.min) && IsDouble(r.max)
    ensures (forall v :: IsDouble(v) ==> AgreesAt(r, v as real)) <==> WholeAgreement(r)
  {
    if WholeAgreement(r) {
      forall v | IsDouble(v) ensures AgreesAt(r, v as real) {
        ContainsDiffers(r, v as real);
        NextDouble(r.max, v);
        NextDouble(r.max, r.min);
      }
    } else {
      NextDouble(r.max, r.max);
      ContainsDiffers(r, r.max as real);
      assert !AgreesAt(r, r.max as real);
    }
  }

  /** With fractions: there must not be any above the maximum either, which is so from 2^52 on in magnitude. */
  predicate Agreement(r: Range) {
    r.tag == Exclusive || r.max < r.min || (Round(r.max + 1) > r.max && !(-TWO_52 <= r.max < TWO_52))
  }

  lemma FractionsAgree(r: Range, v: real)
    requires IsDouble(r.min) && IsDouble(r.max) && Agreement(r) && -TWO_52 as real < v < TWO_52 as real
    ensures AgreesAt(r, v)
  {
    ContainsDiffers(r, v);
    NextDouble(r.max, r.min);
    if r.max < -TWO_52 {
      RoundOrder(r.max + 1, -TWO_52);
      RoundExact(-TWO_52);
    }
  }

  /**
    `contains` agrees with the interval on every double exactly when the range is exclusive or empty, or its maximum has
    a successor that does not round back to it and no fractions above it.
   */
  lemma ContainsIffDenotes(r: Range)
    requires IsDouble(r.min) && IsDouble(r.max)
    ensures (forall v :: IsNumber(v) ==> AgreesAt(r, v)) <==> Agreement(r)
  {
    if Agreement(r) {
      WholeContainsIff(r);
      forall v | IsNumber(v) ensures AgreesAt(r, v) {
        NumberKinds(v);
        if IsWhole(v) && IsDouble(v.Floor) {
          assert AgreesAt(r, v.Floor as real);
        } else {
          FractionsAgree(r, v);
        }
      }
    } else if Round(r.max + 1) > r.max {
      RoundExact(r.max + 1);
      HalfIsNumber(r.max);
      ContainsDiffers(r, r.max as real + 0.5);
      assert !AgreesAt(r, r.max as real + 0.5);
    } else {
      NextDouble(r.max, r.max);
      WholeIsNumber(r.max);
      ContainsDiffers(r, r.max as real);
      assert !AgreesAt(r, r.max as real);
    }
  }

  predicate Safe(n: int) {
    -TWO_53 < n < TWO_53
  }

  lemma SafeNeighbours(n: int)
    requires Safe(n)
    ensures IsDouble(n) && Round(n + 1) == n + 1 && Round(n - 1) == n - 1
  {
    RoundExact(n - 1);
    RoundExact(n);
    RoundExact(n + 1);
  }

  lemma WholeBelow(v: int, m: int)
    ensures v as real < (m + 1) as real <==> v as real <= m as real
  {
    WholeOrder(v, m + 1);
    WholeOrder(m, v);
  }

  /** Within safe bounds they agree on every integer. */
  lemma SafeAgrees(r: Range, v: int)
    requires Safe(r.min) && Safe(r.max)
    ensures AgreesAt(r, v as real)
  {
    SafeNeighbours(r.max);
    WholeBelow(v, r.max);
    ContainsMeans(r, v as real);
  }

  /** The maximum is lost at 2^53 and at 2^53 + 4, and kept at 2^53 + 2 and everywhere below 2^53. */
  lemma MaximumLost(min: int, max: int)
    requires IsDouble(min) && min <= max
    ensures max in {TWO_53, TWO_53 + 4} ==> !Contains(Range(Inclusive, min, max), max as real)
    ensures max == TWO_53 + 2 || -TWO_53 <= max < TWO_53 ==> Contains(Range(Inclusive, min, max), max as real)
  {
    RoundExact(max + 1);
    assert Spacing((TWO_53 + 1) / 2) == Spacing((TWO_53 + 3) / 2) == Spacing((TWO_53 + 5) / 2) == 1;
    assert Spacing(TWO_53 + 1) == Spacing(TWO_53 + 3) == Spacing(TWO_53 + 5) == 2;
  }

  /** Below 2^52 half a unit above an inclusive maximum is let in: 10.5 for `0..=10`. */
  lemma FractionLetIn(min: int, max: int)
    requires min <= max && -TWO_52 <= max < TWO_52
    ensures var r, v := Range(Inclusive, min, max), max as real + 0.5; IsNumber(v) && Contains(r, v) && !Denotes(r, v)
  {
    RoundExact(max + 1);
    HalfIsNumber(max);
  }

  // Conversion

  lemma PreviousDouble(max: int, v: int)
    requires IsDouble(max) && IsDouble(v)
    ensures Round(max - 1) < max ==> (v <= Round(max - 1) <==> v < max)
    ensures Round(max - 1) <= max
  {
    RoundOrder(max - 1, max);
    if v < max {
      RoundOrder(v, max - 1);
    }
  }

  /** Both denote the same integer-valued doubles. */
  ghost predicate SameWhole(r: Range, q: Range) {
    forall v :: IsDouble(v) ==> Denotes(r, v as real) == Denotes(q, v as real)
  }

  /** An inclusive range keeps its members as an exclusive one exactly when its maximum does not absorb one. */
  lemma ToExclusiveIff(r: Range)
    requires IsDouble(r.min) && IsDouble(r.max) && r.tag == Inclusive
    ensures SameWhole(r, ToExclusive(r)) <==> r.max < r.min || Round(r.max + 1) > r.max
  {
    var q := ToExclusive(r);
    NextDouble(r.max, r.min);
    if r.max < r.min || Round(r.max + 1) > r.max {
      forall v | IsDouble(v) ensures Denotes(r, v as real) == Denotes(q, v as real) {
        NextDouble(r.max, v);
      }
    } else {
      assert Denotes(r, r.max as real) && !Denotes(q, r.max as real);
    }
  }

  /** An exclusive range keeps its members as an inclusive one exactly when its maximum does not absorb minus one. */
  lemma ToInclusiveIff(r: Range)
    requires IsDouble(r.min) && IsDouble(r.max) && r.tag == Exclusive
    ensures SameWhole(r, ToInclusive(r)) <==> r.max < r.min || Round(r.max - 1) < r.max
  {
    var q := ToInclusive(r);
    PreviousDouble(r.max, r.min);
    if r.max < r.min || Round(r.max - 1) < r.max {
      forall v | IsDouble(v) ensures Denotes(r, v as real) == Denotes(q, v as real) {
        PreviousDouble(r.max, v);
      }
    } else {
      assert !Denotes(r, r.max as real) && Denotes(q, r.max as real);
    }
  }

  /** Conversion keeps the integer-valued members of every range exactly as far as rounding lets it. */
  lemma ConversionsKeepMembers(r: Range)
    requires IsDouble(r.min) && IsDouble(r.max)
    ensures SameWhole(r, ToExclusive(r)) <==> r.tag == Exclusive || r.max < r.min || Round(r.max + 1) > r.max
    ensures SameWhole(r, ToInclusive(r)) <==> r.tag == Inclusive || r.max < r.min || Round(r.max - 1) < r.max
  {
    if r.tag == Inclusive {
      ToExclusiveIff(r);
    } else {
      ToInclusiveIff(r);
    }
  }

  /** With safe bounds each conversion undoes the other, and `contains` goes by the interval before and after. */
  lemma ConversionsInvert(r: Range, v: int)
    requires Safe(r.min) && Safe(r.max)
    ensures r == if r.tag == Inclusive then ToInclusive(ToExclusive(r)) else ToExclusive(ToInclusive(r))
    ensures Contains(ToInclusive(r), v as real) == Contains(r, v as real) == Contains(ToExclusive(r), v as real) == Denotes(r, v as real)
  {
    SafeNeighbours(r.max);
    SafeAgrees(r, v);
    if r.tag == Exclusive {
      InclusiveContains(r, v);
    }
  }

  lemma InclusiveContains(r: Range, v: int)
    requires r.tag == Exclusive && IsDouble(r.max) && Round(r.max - 1) == r.max - 1
    ensures Contains(ToInclusive(r), v as real) == Contains(r, v as real)
  {
    assert ToInclusive(r) == Range(Inclusive, r.min, r.max - 1);
    assert Round(r.max - 1 + 1) == r.max;
  }

  // Printing and parsing

  /** A text in front of `lower` in which no match begins: it holds no two points in a row, nor begins them, nor ends in a digit. */
  predicate Leading(prefix: string, lower: string) {
    && (prefix != "" ==> !IsDigit(prefix[|prefix| - 1], 10) && (lower == "" ==> prefix[|prefix| - 1] != '.'))
    && forall i :: 0 <= i < |prefix| - 1 ==> prefix[i] != '.' || prefix[i + 1] != '.'
  }

  lemma TwoPoints(s: string)
    ensures ".." <= s ==> |s| >= 2 && s[0] == '.' && s[1] == '.'
  {
    if ".." <= s {
      assert s[..2] == "..";
      assert s[0] == s[..2][0] && s[1] == s[..2][1];
    }
  }

  lemma NoMatchHere(prefix: string, lower: string, s: string)
    requires prefix != "" && Leading(prefix, lower) && (lower != "" ==> s != "" && s[0] != '.')
    ensures MatchHere(prefix + s).None?
  {
    var text := prefix + s;
    var run := DigitRun(text, 10);
    assert text[|prefix| - 1] == prefix[|prefix| - 1];
    assert run < |prefix| && text[run] == prefix[run];
    assert run + 1 < |prefix| ==> text[run + 1] == prefix[run + 1];
    assert s != "" ==> text[|prefix|] == s[0];
    TwoPoints(text[run..]);
  }

  /** The match is found behind such a text. */
  lemma {:induction false} MatchSkips(prefix: string, lower: string, s: string)
    requires Leading(prefix, lower) && (lower != "" ==> s != "" && s[0] != '.')
    ensures Match(prefix + s) == Match(s)
  {
    if prefix == "" {
      assert prefix + s == s;
    } else {
      NoMatchHere(prefix, lower, s);
      assert (prefix + s)[1..] == prefix[1..] + s;
      assert forall i :: 0 <= i < |prefix[1..]| ==> prefix[1..][i] == prefix[i + 1];
      MatchSkips(prefix[1..], lower, s);
    }
  }

  lemma MatchLower(lower: string, tail: string)
    requires AllDigits(lower, 10)
    ensures Match(lower + (".." + tail)) == Some(GroupsAfter(lower, tail))
  {
    var s := lower + (".." + tail);
    DigitRunOf(lower, ".." + tail, 10);
    assert s[..|lower|] == lower && s[|lower|..] == ".." + tail && s[|lower| + 2..] == tail;
  }

  lemma MatchUpper(lower: string, inc: string, upper: string, rest: string)
    requires AllDigits(upper, 10) && inc in {"", "="}
    requires rest == "" || !IsDigit(rest[0], 10)
    requires inc == "" && upper + rest != "" ==> (upper + rest)[0] != '='
    ensures GroupsAfter(lower, inc + (upper + rest)) == Groups(lower, inc, upper)
  {
    assert (inc + (upper + rest))[|inc|..] == upper + rest;
    DigitRunOf(upper, rest, 10);
    assert (upper + rest)[..|upper|] == upper;
    assert inc == "" ==> inc + (upper + rest) == upper + rest;
  }

  /** Two points in a row stand somewhere in the text. */
  predicate HoldsTwoPoints(s: string) {
    exists i :: 0 <= i < |s| - 1 && s[i] == '.' && s[i + 1] == '.'
  }

  lemma TwoPointsAt(s: string, i: nat)
    requires i + 1 < |s| && s[i] == '.' && s[i + 1] == '.'
    ensures ".." <= s[i..]
  {
    assert s[i..][..2] == [s[i], s[i + 1]];
  }

  lemma MatchHereHolds(s: string)
    ensures MatchHere(s).Some? ==> HoldsTwoPoints(s)
    ensures |s| >= 2 && s[0] == '.' && s[1] == '.' ==> MatchHere(s).Some?
  {
    var run := DigitRun(s, 10);
    if MatchHere(s).Some? {
      TwoPoints(s[run..]);
      assert s[run] == '.' && s[run + 1] == '.';
    }
    if |s| >= 2 && s[0] == '.' && s[1] == '.' {
      TwoPointsAt(s, 0);
      assert run == 0;
    }
  }

  lemma HoldsLater(s: string)
    requires s != ""
    ensures HoldsTwoPoints(s) <==> (|s| >= 2 && s[0] == '.' && s[1] == '.') || HoldsTwoPoints(s[1..])
  {
    if i :| 0 <= i < |s| - 1 && s[i] == '.' && s[i + 1] == '.' {
      assert i > 0 ==> s[1..][i - 1] == '.' && s[1..][i] == '.';
    }
    if i :| 0 <= i < |s[1..]| - 1 && s[1..][i] == '.' && s[1..][i + 1] == '.' {
      assert s[i + 1] == '.' && s[i + 2] == '.';
    }
  }

  lemma {:induction false} MatchIff(s: string)
    ensures Match(s).Some? <==> HoldsTwoPoints(s)
  {
    MatchHereHolds(s);
    if s != "" {
      HoldsLater(s);
      MatchIff(s[1..]);
    }
  }

  /** Parsing throws exactly on the texts without two points in a row. */
  lemma FromStringIff(s: string)
    ensures FromString(s).Some? <==> HoldsTwoPoints(s)
  {
    MatchIff(s);
    MatchDigits(s);
  }

  /**
    What is read is the digits on both sides of the first two points, zero where there are none, and whether an equals
    sign follows the points; whatever stands around that is ignored.
   */
  lemma FromStringMeaning(prefix: string, lower: string, inclusive: bool, upper: string, rest: string)
    requires Leading(prefix, lower) && AllDigits(lower, 10) && AllDigits(upper, 10)
    requires rest == "" || !IsDigit(rest[0], 10)
    requires !inclusive && upper == "" && rest != "" ==> rest[0] != '='
    ensures FromString(prefix + (lower + (".." + ((if inclusive then "=" else "") + (upper + rest)))))
            == Some(Range(if inclusive then Inclusive else Exclusive, Round(Value(lower, 10)), Round(Value(upper, 10))))
  {
    var inc := if inclusive then "=" else "";
    var s := lower + (".." + (inc + (upper + rest)));
    assert lower != "" ==> IsDigit(lower[0], 10) && s[0] == lower[0];
    MatchSkips(prefix, lower, s);
    MatchLower(lower, inc + (upper + rest));
    assert upper != "" ==> IsDigit(upper[0], 10) && (upper + rest)[0] == upper[0];
    assert upper == "" ==> upper + rest == rest;
    MatchUpper(lower, inc, upper, rest);
    MatchDigits(prefix + s);
  }

  function Abs(n: int): nat {
    if n < 0 then -n else n
  }

  /** The number in the last digits of a printed double: the number itself, or its exponent. */
  function LastDigits(n: int): nat {
    if WithoutExponent(n) || Shown(n) == 0 then Abs(Shown(n)) else Width(Abs(Shown(n))) - 1
  }

  /** The number in the first digits: nothing before a sign, the number, or the first significant digit. */
  function FirstDigits(n: int): string {
    if Shown(n) < 0 then "" else if WithoutExponent(n) || Shown(n) == 0 then Print(Shown(n))
    else (PrintDigits(Stripped(Shown(n))); Print(Stripped(Shown(n)))[..1])
  }

  function Sign(n: int): string {
    if Shown(n) < 0 then "-" else ""
  }

  lemma Associates(a: string, b: string, c: string)
    ensures a + b + c == a + (b + c)
  {
  }

  lemma MantissaLeads(sign: string, digits: string)
    requires sign in {"", "-"} && digits != "" && AllDigits(digits, 10)
    ensures Leading(sign + Mantissa(digits), "")
  {
    var text, k := sign + Mantissa(digits), |sign|;
    assert IsDigit(digits[0], 10);
    if |digits| > 1 {
      assert text == sign + [digits[0]] + "." + digits[1..] + "e+";
      forall i | 0 <= i < |text| ensures text[i] == '.' ==> i == k + 1 {
        if k + 2 <= i < k + 1 + |digits| {
          assert text[i] == digits[i - k - 1] && IsDigit(digits[i - k - 1], 10);
        }
      }
    } else {
      assert text == sign + [digits[0]] + "e+";
    }
  }

  lemma ExponentEnd(sign: string, m: nat) returns (prefix: string)
    requires sign in {"", "-"} && m > 0
    ensures Leading(prefix, "") && sign + ExponentText(m) == prefix + Print(Width(m) - 1)
  {
    var digits := Print(Stripped(m));
    PrintDigits(Stripped(m));
    MantissaLeads(sign, digits);
    prefix := sign + Mantissa(digits);
    Associates(sign, Mantissa(digits), Print(Width(m) - 1));
  }

  /** A printed double is a leading text followed by its last digits. */
  lemma PrintedEnd(n: int) returns (prefix: string)
    ensures Leading(prefix, "") && NumberString(n) == prefix + Print(LastDigits(n))
  {
    var m := Abs(Shown(n));
    if WithoutExponent(n) || m == 0 {
      prefix := Sign(n);
      assert "" + Print(m) == Print(m);
    } else {
      prefix := ExponentEnd(Sign(n), m);
      assert "" + ExponentText(m) == ExponentText(m);
    }
  }

  /** It is its first digits followed by something that is none. */
  lemma PrintedStart(n: int) returns (rest: string)
    ensures AllDigits(FirstDigits(n), 10) && NumberString(n) == FirstDigits(n) + rest
    ensures (rest == "" || !IsDigit(rest[0], 10)) && NumberString(n) != "" && NumberString(n)[0] != '='
  {
    var m := Abs(Shown(n));
    PrintDigits(m);
    rest := NumberString(n)[|FirstDigits(n)|..];
    if Shown(n) < 0 {
      assert FirstDigits(n) == "" && NumberString(n)[0] == '-';
    } else if WithoutExponent(n) || m == 0 {
      assert IsDigit(Print(m)[0], 10);
    } else {
      var digits := Print(Stripped(m));
      PrintDigits(Stripped(m));
      assert IsDigit(digits[0], 10);
      assert rest[0] == if |digits| > 1 then '.' else 'e';
    }
  }

  lemma PrintedMatch(r: Range)
    ensures Match(ToString(r))
            == Some(Groups(Print(LastDigits(r.min)), if r.tag == Inclusive then "=" else "", FirstDigits(r.max)))
  {
    var lower, inc, upper := Print(LastDigits(r.min)), if r.tag == Inclusive then "=" else "", NumberString(r.max);
    var prefix := PrintedEnd(r.min);
    var rest := PrintedStart(r.max);
    PrintDigits(LastDigits(r.min));
    Associates("..", inc, upper);
    assert (if r.tag == Inclusive then "..=" else "..") == ".." + inc;
    Associates(prefix, lower, ".." + (inc + upper));
    MatchSkips(prefix, "", lower + (".." + (inc + upper)));
    MatchLower(lower, inc + upper);
    MatchUpper(lower, inc, FirstDigits(r.max), rest);
  }

  /** What a printed minimum reads back as: its magnitude, or from 10^21 on its decimal exponent. */
  function ReadMinimum(n: int): int {
    if WithoutExponent(n) then Abs(n) else Round(Width(Abs(Shown(n))) - 1)
  }

  /** What a printed maximum reads back as: zero if negative, from 10^21 on its first digit, else itself. */
  function ReadMaximum(n: int): int {
    if n < 0 then 0 else if WithoutExponent(n) || Shown(n) <= 0 then n
    else (PrintDigits(Stripped(Shown(n))); DigitValue(Print(Stripped(Shown(n)))[0]))
  }

  lemma RoundAbs(n: int)
    ensures Round(Abs(n)) == Abs(Round(n))
  {
    RoundNatIdempotent(Abs(n));
  }

  lemma ShownSign(n: int)
    requires IsDouble(n)
    ensures Round(Shown(n)) == n
    ensures n < 0 ==> Shown(n) < 0
    ensures n > 0 ==> Shown(n) > 0
    ensures n == 0 ==> Shown(n) == 0
  {
    ShownRounds(n);
    RoundSign(Shown(n));
    RoundExact(0);
    if n == 0 {
      ShownExact(0);
    }
  }

  lemma MinimumRead(n: int)
    requires IsDouble(n)
    ensures Round(LastDigits(n)) == ReadMinimum(n)
  {
    ShownSign(n);
    RoundAbs(Shown(n));
  }

  lemma MaximumRead(n: int)
    requires IsDouble(n)
    ensures AllDigits(FirstDigits(n), 10) && Round(Value(FirstDigits(n), 10)) == ReadMaximum(n)
  {
    ShownSign(n);
    RoundExact(0);
    var m := Abs(Shown(n));
    PrintDigits(m);
    ValuePrint(m);
    if n > 0 && !WithoutExponent(n) {
      var digits := Print(Stripped(m));
      PrintDigits(Stripped(m));
      assert IsDigit(digits[0], 10) && digits[..1] == "" + [digits[0]];
      ValueSnoc("", digits[0], 10);
      RoundExact(DigitValue(digits[0]));
    }
  }

  /** What a printed range reads back as, for all bounds. */
  lemma FromPrinted(r: Range)
    requires IsDouble(r.min) && IsDouble(r.max)
    ensures FromString(ToString(r)) == Some(Range(r.tag, ReadMinimum(r.min), ReadMaximum(r.max)))
  {
    PrintedMatch(r);
    MatchDigits(ToString(r));
    ValuePrint(LastDigits(r.min));
    MinimumRead(r.min);
    MaximumRead(r.max);
  }

  lemma {:induction false} WidthBound(m: nat)
    requires m > 0
    ensures Width(m) <= m && Width(m) - 1 <= m / 10
  {
    if m >= 10 {
      WidthBound(m / 10);
    }
  }

  /** An exponent is far below its number. */
  lemma ExponentSmaller(n: int)
    requires IsDouble(n) && n > 0
    ensures Round(Width(Abs(Shown(n))) - 1) < n
  {
    ShownSign(n);
    var m := Abs(Shown(n));
    WidthBound(m);
    RoundNatWithin(Width(m) - 1);
    RoundNatWithin(m);
  }

  lemma MinimumIff(n: int)
    requires IsDouble(n)
    ensures ReadMinimum(n) == n <==> 0 <= n < TEN_21
  {
    var exponent := Width(Abs(Shown(n))) - 1;
    RoundNatIdempotent(exponent);
    if n > 0 {
      ExponentSmaller(n);
    }
  }

  lemma MaximumIff(n: int)
    requires IsDouble(n)
    ensures ReadMaximum(n) == n <==> 0 <= n < TEN_21
  {
    ShownSign(n);
  }

  /** Printing then parsing is the identity exactly when no bound is negative and both are below 10^21. */
  lemma RoundTripIff(r: Range)
    requires IsDouble(r.min) && IsDouble(r.max)
    ensures FromString(ToString(r)) == Some(r) <==> 0 <= r.min < TEN_21 && 0 <= r.max < TEN_21
  {
    FromPrinted(r);
    MinimumIff(r.min);
    MaximumIff(r.max);
  }
}
