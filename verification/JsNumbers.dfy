/** Integers as JavaScript numbers hold them: 53 significant bits, ties to even. Overflow to Infinity is left out. */
module JsNumbers {

  const TWO_53: int := 0x20_0000_0000_0000

  /** The distance between neighbouring doubles around `n`: the least power of two `u` with `n < 2^53 * u`. */
  function Spacing(n: nat): (u: nat)
    ensures u >= 1
    ensures n < TWO_53 * u
  {
    if n < TWO_53 then 1 else 2 * Spacing(n / 2)
  }

  function RoundNat(n: nat): int {
    var u := Spacing(n);
    var q, r := n / u, n % u;
    if 2 * r < u || (2 * r == u && q % 2 == 0) then q * u else (q + 1) * u
  }

  /** The double nearest to an integer. */
  function Round(n: int): int {
    if n < 0 then -RoundNat(-n) else RoundNat(n)
  }

  lemma RoundNatExact(n: nat)
    requires n <= TWO_53
    ensures RoundNat(n) == n
  {
    if n == TWO_53 {
      assert Spacing(n / 2) == 1;
      assert Spacing(n) == 2;
    } else {
      assert Spacing(n) == 1;
    }
  }

  /** Every integer up to 2^53 in magnitude is a number, and 2^53 + 1 is the first that is not. */
  lemma RoundExact(n: int)
    ensures -TWO_53 <= n <= TWO_53 ==> Round(n) == n
    ensures Round(TWO_53 + 1) == TWO_53
  {
    if -TWO_53 <= n <= TWO_53 {
      RoundNatExact(if n < 0 then -n else n);
    }
    assert Spacing((TWO_53 + 1) / 2) == 1;
    assert Spacing(TWO_53 + 1) == 2;
  }

  lemma {:induction false} SpacingOf(n: nat, m: nat)
    requires Spacing(n) > 1 ==> TWO_53 * Spacing(n) <= 2 * m
    requires m < TWO_53 * Spacing(n)
    ensures Spacing(m) == Spacing(n)
  {
    if n >= TWO_53 {
      SpacingOf(n / 2, m / 2);
    }
  }

  lemma {:induction false} SpacingBelow(n: nat)
    ensures Spacing(n) > 1 ==> TWO_53 * Spacing(n) <= 2 * n && Spacing(n) % 2 == 0
  {
    if n >= TWO_53 {
      SpacingBelow(n / 2);
    }
  }

  lemma MulOrder(a: int, b: int, u: int)
    requires u > 0
    ensures a <= b ==> a * u <= b * u
    ensures a < b ==> a * u + u <= b * u
  {
    if a < b {
      assert (b - a - 1) * u >= 0;
    } else if a == b {
      assert a * u == b * u;
    }
  }

  lemma MultipleStays(q: nat, u: nat)
    requires u > 0
    ensures q * u / u == q && q * u % u == 0
  {
    var n := q * u;
    var d, r := n / u, n % u;
    assert n == d * u + r;
    MulOrder(d, q, u);
    MulOrder(q, d, u);
  }

  lemma RoundedStays(m: nat, q: nat, u: nat)
    requires u == Spacing(m) && m == q * u
    ensures RoundNat(m) == m
  {
    MultipleStays(q, u);
  }

  lemma RoundNatForm(n: nat) returns (k: nat)
    ensures RoundNat(n) == k * Spacing(n) && n / Spacing(n) <= k <= n / Spacing(n) + 1
    ensures Spacing(n) == 1 ==> RoundNat(n) == n
  {
    var u := Spacing(n);
    var q, r := n / u, n % u;
    k := if 2 * r < u || (2 * r == u && q % 2 == 0) then q else q + 1;
  }

  lemma QuotientBounds(n: nat, u: nat)
    requires u > 0 && TWO_53 * u <= 2 * n && n < TWO_53 * u
    ensures TWO_53 / 2 <= n / u < TWO_53
  {
    var q, r := n / u, n % u;
    assert n == q * u + r;
    MulOrder(TWO_53, q, u);
    MulOrder(q, TWO_53 / 2, u);
  }

  lemma SpacingDoubles(m: nat)
    requires m >= TWO_53
    ensures Spacing(m) == 2 * Spacing(m / 2)
  {
  }

  lemma SmallMultiple(n: nat, k: nat, u: nat)
    requires u == Spacing(n) && u > 1 && TWO_53 / 2 <= k < TWO_53
    ensures RoundNat(k * u) == k * u
  {
    MulOrder(TWO_53 / 2, k, u);
    MulOrder(k, TWO_53, u);
    SpacingOf(n, k * u);
    RoundedStays(k * u, k, u);
  }

  lemma FullMultiple(n: nat, u: nat)
    requires u == Spacing(n) && u > 1 && u % 2 == 0
    ensures RoundNat(TWO_53 * u) == TWO_53 * u
  {
    var m := TWO_53 * u;
    assert m / 2 == TWO_53 / 2 * u;
    SpacingOf(n, m / 2);
    SpacingDoubles(m);
    RoundedStays(m, TWO_53 / 2, 2 * u);
  }

  lemma RoundNatIdempotent(n: nat)
    ensures RoundNat(n) >= 0 && RoundNat(RoundNat(n)) == RoundNat(n)
  {
    var k := RoundNatForm(n);
    SpacingBelow(n);
    if Spacing(n) == 1 {
      RoundNatExactBelow(n);
    } else {
      QuotientBounds(n, Spacing(n));
      if k < TWO_53 {
        SmallMultiple(n, k, Spacing(n));
      } else {
        FullMultiple(n, Spacing(n));
      }
    }
  }

  lemma RoundNatExactBelow(n: nat)
    requires Spacing(n) == 1
    ensures RoundNat(n) == n
  {
  }

  /** A double is its own nearest double. */
  lemma RoundIdempotent(n: int)
    ensures Round(Round(n)) == Round(n)
  {
    RoundNatIdempotent(if n < 0 then -n else n);
  }

  // Order

  lemma {:induction false} SpacingOrder(a: nat, b: nat)
    requires a <= b
    ensures Spacing(a) == Spacing(b) || 2 * Spacing(a) <= Spacing(b)
  {
    if a < TWO_53 <= b {
      SpacingDoubles(b);
    } else if TWO_53 <= a {
      SpacingOrder(a / 2, b / 2);
    }
  }

  lemma DivOrder(a: nat, b: nat, u: nat)
    requires u > 0 && a <= b
    ensures a / u <= b / u
    ensures a / u == b / u ==> a % u <= b % u
  {
    var p, q := a / u, b / u;
    assert a == p * u + a % u && b == q * u + b % u;
    MulOrder(q, p, u);
  }

  lemma RoundNatSameSpacing(a: nat, b: nat, u: nat)
    requires a <= b && u == Spacing(a) == Spacing(b)
    ensures RoundNat(a) <= RoundNat(b)
  {
    var p, q := a / u, b / u;
    DivOrder(a, b, u);
    MulOrder(p + 1, q, u);
    MulOrder(p, p + 1, u);
    MulOrder(q, q + 1, u);
  }

  /** Rounding stays between the powers of two that bound the spacing. */
  lemma RoundNatBounds(n: nat)
    ensures RoundNat(n) <= TWO_53 * Spacing(n)
    ensures Spacing(n) > 1 ==> TWO_53 / 2 * Spacing(n) <= RoundNat(n)
  {
    var u := Spacing(n);
    var k := RoundNatForm(n);
    SpacingBelow(n);
    if u > 1 {
      QuotientBounds(n, u);
      MulOrder(k, TWO_53, u);
      MulOrder(TWO_53 / 2, k, u);
    }
  }

  lemma RoundNatOrder(a: nat, b: nat)
    requires a <= b
    ensures 0 <= RoundNat(a) <= RoundNat(b)
  {
    RoundNatIdempotent(a);
    SpacingOrder(a, b);
    if Spacing(a) == Spacing(b) {
      RoundNatSameSpacing(a, b, Spacing(a));
    } else {
      RoundNatBounds(a);
      RoundNatBounds(b);
    }
  }

  /** Rounding stays within a factor of two. */
  lemma RoundNatWithin(n: nat)
    ensures 0 <= RoundNat(n) <= 2 * n && n <= 2 * RoundNat(n)
  {
    RoundNatBounds(n);
    SpacingBelow(n);
    if Spacing(n) == 1 {
      RoundNatExactBelow(n);
    }
  }

  /** Rounding keeps the order. */
  lemma RoundOrder(a: int, b: int)
    requires a <= b
    ensures Round(a) <= Round(b)
  {
    if a >= 0 {
      RoundNatOrder(a, b);
    } else if b >= 0 {
      RoundNatOrder(0, -a);
      RoundNatOrder(0, b);
    } else {
      RoundNatOrder(-b, -a);
    }
  }

  // Nearest, and even at a tie

  function Distance(m: int, n: int): nat {
    if m < n then n - m else m - n
  }

  lemma MultipleBetween(q: nat, k: nat, u: nat)
    requires u > 0 && q * u <= k * u < (q + 1) * u
    ensures k == q
  {
    MulOrder(k + 1, q, u);
    MulOrder(q + 1, k, u);
    assert k + 1 <= q ==> k * u + u <= q * u;
  }

  lemma QuotientAndRest(n: nat) returns (q: nat, r: nat)
    ensures n == q * Spacing(n) + r && r < Spacing(n) && q == n / Spacing(n) && r == n % Spacing(n)
  {
    q, r := n / Spacing(n), n % Spacing(n);
  }

  lemma SpacingBetween(n: nat, q: nat, m: nat)
    requires q == n / Spacing(n) && q * Spacing(n) <= m < (q + 1) * Spacing(n)
    ensures Spacing(n) > 1 ==> Spacing(m) == Spacing(n)
  {
    var u := Spacing(n);
    if u > 1 {
      SpacingBelow(n);
      QuotientBounds(n, u);
      MulOrder(q + 1, TWO_53, u);
      MulOrder(TWO_53 / 2, q, u);
      SpacingOf(n, m);
    }
  }

  /** Between the two multiples of the spacing around a number there is no double. */
  lemma NoDoubleBetween(n: nat, q: nat, m: nat)
    requires q == n / Spacing(n) && q * Spacing(n) <= m < (q + 1) * Spacing(n) && RoundNat(m) == m
    ensures m == q * Spacing(n)
  {
    SpacingBetween(n, q, m);
    if Spacing(n) > 1 {
      var k := RoundNatForm(m);
      MultipleBetween(q, k, Spacing(n));
    }
  }

  /** Rounding to a multiple of `u`: the number lies between two of them, and neither is nearer than the one chosen. */
  lemma Halves(n: nat, u: nat, q: nat, r: nat, rounded: nat) returns (lo: nat, hi: nat)
    requires u > 0 && n == q * u + r && r < u
    requires rounded == if 2 * r < u || (2 * r == u && q % 2 == 0) then q * u else (q + 1) * u
    ensures lo == q * u && hi == (q + 1) * u
    ensures lo <= n < hi && Distance(rounded, n) <= n - lo && Distance(rounded, n) <= hi - n
  {
    lo, hi := q * u, (q + 1) * u;
    assert hi == lo + u;
  }

  lemma RoundNatChoice(n: nat, q: nat, r: nat)
    requires q == n / Spacing(n) && r == n % Spacing(n)
    ensures RoundNat(n) >= 0
    ensures var u := Spacing(n); RoundNat(n) == if 2 * r < u || (2 * r == u && q % 2 == 0) then q * u else (q + 1) * u
  {
    RoundNatIdempotent(n);
  }

  lemma Neighbours(n: nat, m: nat) returns (lo: nat, hi: nat)
    requires RoundNat(m) == m
    ensures RoundNat(n) >= 0 && lo <= n < hi && (m <= lo || hi <= m)
    ensures Distance(RoundNat(n), n) <= n - lo && Distance(RoundNat(n), n) <= hi - n
  {
    var q, r := QuotientAndRest(n);
    RoundNatChoice(n, q, r);
    lo, hi := Halves(n, Spacing(n), q, r, RoundNat(n));
    if lo <= m < hi {
      NoDoubleBetween(n, q, m);
    }
  }

  lemma Outside(n: nat, lo: nat, hi: nat, m: nat, rounded: nat)
    requires lo <= n < hi && (m <= lo || hi <= m) && Distance(rounded, n) <= n - lo && Distance(rounded, n) <= hi - n
    ensures Distance(rounded, n) <= Distance(m, n)
  {
  }

  /** No double is nearer to a number than the one it is rounded to. */
  lemma RoundNatNearest(n: nat, m: nat)
    requires RoundNat(m) == m
    ensures RoundNat(n) >= 0 && Distance(RoundNat(n), n) <= Distance(m, n)
  {
    var lo, hi := Neighbours(n, m);
    Outside(n, lo, hi, m, RoundNat(n));
  }

  lemma RoundNearest(n: int, d: int)
    requires Round(d) == d
    ensures Distance(Round(n), n) <= Distance(d, n)
  {
    if n >= 0 {
      RoundNatNearest(n, if d >= 0 then d else 0);
      RoundNatExact(0);
    } else {
      RoundNatNearest(-n, if d < 0 then -d else 0);
      RoundNatExact(0);
    }
  }

  /** Of two equally near ones it is the even multiple. */
  lemma RoundNatEven(n: nat) returns (k: nat)
    ensures RoundNat(n) == k * Spacing(n)
    ensures 2 * (n % Spacing(n)) == Spacing(n) ==> k % 2 == 0
  {
    var q, r := n / Spacing(n), n % Spacing(n);
    k := if 2 * r < Spacing(n) || (2 * r == Spacing(n) && q % 2 == 0) then q else q + 1;
  }

  predicate IsDouble(n: int) {
    Round(n) == n
  }
}
