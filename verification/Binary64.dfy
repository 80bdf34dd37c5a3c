/** float(n) for a natural number: the binary64 format of IEEE 754, rounding to nearest, ties to even. */
module Binary64 {
  import opened Wrappers

  const PRECISION: nat := 53
  const MAX_EXPONENT: nat := 1024

  function Pow2(n: nat): (r: nat)
    ensures r >= 1
  {
    if n == 0 then 1 else 2 * Pow2(n - 1)
  }

  /** int.bit_length(). */
  function Bits(n: nat): (b: nat)
    ensures n < Pow2(b)
    ensures b > 0 ==> Pow2(b - 1) <= n
  {
    if n == 0 then 0 else 1 + Bits(n / 2)
  }

  /** The weight of the last bit that a float of this size can hold. */
  function Unit(n: nat): (u: nat)
    ensures u >= 1
  {
    if Bits(n) <= PRECISION then 1 else Pow2(Bits(n) - PRECISION)
  }

  function Times(k: nat, u: nat): nat {
    k * u
  }

  function Rounded(n: nat): nat {
    hide Unit, Bits, Pow2;
    var u := Unit(n);
    var q, r := n / u, n % u;
    Times(if 2 * r > u || (2 * r == u && q % 2 == 1) then q + 1 else q, u)
  }

  /** float(n), or None for the OverflowError. */
  function ToFloat(n: nat): Option<nat> {
    if Rounded(n) < Pow2(MAX_EXPONENT) then Some(Rounded(n)) else None
  }

  lemma {:induction false} Pow2Monotone(a: nat, b: nat)
    requires a <= b
    ensures Pow2(a) <= Pow2(b)
  {
    if a < b {
      Pow2Monotone(a, b - 1);
    }
  }

  lemma {:induction false} Pow2Adds(a: nat, b: nat)
    ensures Pow2(a + b) == Pow2(a) * Pow2(b)
  {
    if a > 0 {
      Pow2Adds(a - 1, b);
      assert Pow2(a + b) == 2 * Pow2(a - 1 + b);
      assert 2 * (Pow2(a - 1) * Pow2(b)) == (2 * Pow2(a - 1)) * Pow2(b);
    } else {
      assert Pow2(0) * Pow2(b) == Pow2(b);
    }
  }

  lemma BitsAreUnique(n: nat, b: nat)
    requires b > 0 && Pow2(b - 1) <= n < Pow2(b)
    ensures Bits(n) == b
  {
    if Bits(n) < b {
      Pow2Monotone(Bits(n), b - 1);
    } else if b < Bits(n) {
      Pow2Monotone(b, Bits(n) - 1);
    }
  }

  lemma Quotient(n: nat, u: nat)
    requires u >= 1
    ensures n == (n / u) * u + n % u && 0 <= n % u < u
  {
  }

  /** A number is kept when no bit below the last one held is set. */
  lemma RoundedIsExactIff(n: nat)
    ensures Rounded(n) == n <==> n % Unit(n) == 0
  {
    var u := Unit(n);
    Quotient(n, u);
    assert (n / u + 1) * u == (n / u) * u + u;
  }

  /**
   float() keeps a whole number exactly when it is below 2 to the 1024th and its bits beyond the 53rd are zero;
   every other number is changed or overflows.
   */
  lemma ToFloatIsExactIff(n: nat)
    ensures ToFloat(n) == Some(n) <==> n < Pow2(MAX_EXPONENT) && n % Unit(n) == 0
  {
    RoundedIsExactIff(n);
  }

  /** The result is off by no more than half of the last bit held. */
  lemma RoundedIsNear(n: nat)
    ensures -(Unit(n) as int) <= 2 * (Rounded(n) - n) <= Unit(n)
  {
    var u := Unit(n);
    Quotient(n, u);
    assert (n / u + 1) * u == (n / u) * u + u;
  }

  lemma QuotientBits(n: nat)
    requires Bits(n) > PRECISION
    ensures Pow2(PRECISION - 1) <= n / Unit(n) < Pow2(PRECISION)
  {
    var u, e := Unit(n), Bits(n) - PRECISION;
    Pow2Adds(PRECISION, e);
    Pow2Adds(PRECISION - 1, e);
    Quotient(n, u);
    DividesBetween(n, u, Pow2(PRECISION - 1), Pow2(PRECISION));
  }

  lemma ProductOrder(a: nat, b: nat, u: nat)
    ensures a <= b ==> a * u <= b * u
  {
  }

  lemma DividesBetween(n: nat, u: nat, low: nat, high: nat)
    requires u >= 1 && low * u <= n < high * u
    ensures low <= n / u < high
  {
    Quotient(n, u);
    var q := n / u;
    assert (q + 1) * u == q * u + u;
    ProductOrder(q + 1, low, u);
    ProductOrder(high, q, u);
  }

  lemma MultipleDivides(k: nat, u: nat)
    requires u >= 1
    ensures (k * u) % u == 0
  {
    Quotient(k * u, u);
    DividesBetween(k * u, u, k, k + 1);
  }

  lemma Pow2Step(n: nat)
    ensures Pow2(n + 1) == 2 * Pow2(n)
  {
  }

  lemma MultipleKeepsUnit(n: nat, k: nat)
    requires Bits(n) > PRECISION && Pow2(PRECISION - 1) <= k <= Pow2(PRECISION)
    ensures (k * Unit(n)) % Unit(k * Unit(n)) == 0
  {
    hide Pow2, Bits;
    var e := Bits(n) - PRECISION;
    var m := k * Pow2(e);
    Pow2Adds(PRECISION, e);
    if k < Pow2(PRECISION) {
      Pow2Adds(PRECISION - 1, e);
      ProductOrder(Pow2(PRECISION - 1), k, Pow2(e));
      ProductOrder(k + 1, Pow2(PRECISION), Pow2(e));
      assert (k + 1) * Pow2(e) == m + Pow2(e);
      BitsAreUnique(m, PRECISION + e);
      MultipleDivides(k, Pow2(e));
    } else {
      Pow2Step(PRECISION + e);
      BitsAreUnique(m, PRECISION + e + 1);
      Pow2Adds(PRECISION - 1, e + 1);
      MultipleDivides(Pow2(PRECISION - 1), Pow2(e + 1));
    }
  }

  /** What float() returns, it keeps: a second conversion changes nothing. */
  lemma ToFloatIsIdempotent(n: nat)
    ensures ToFloat(n).Some? ==> ToFloat(ToFloat(n).value) == ToFloat(n)
  {
    hide Pow2, Bits;
    if Bits(n) > PRECISION {
      QuotientBits(n);
      var q := n / Unit(n);
      MultipleKeepsUnit(n, q);
      MultipleKeepsUnit(n, q + 1);
    } else {
      RoundedIsExactIff(n);
    }
    ToFloatIsExactIff(Rounded(n));
  }

  /** The first whole number that is not kept: it would be rounded down silently. */
  lemma FirstLostNumber()
    ensures ToFloat(Pow2(PRECISION) + 1) == Some(Pow2(PRECISION))
  {
    hide Pow2, Bits;
    var n := Pow2(PRECISION) + 1;
    PowersOfInterest();
    BitsAreUnique(n, PRECISION + 1);
    assert Unit(n) == Pow2(1) == 2;
    assert n % 2 == 1 && n / 2 == Pow2(PRECISION - 1) && (n / 2) % 2 == 0;
  }

  lemma PowersOfInterest()
    ensures Pow2(1) == 2
    ensures Pow2(PRECISION) == 2 * Pow2(PRECISION - 1) && Pow2(PRECISION - 1) == 2 * Pow2(PRECISION - 2)
    ensures Pow2(PRECISION + 1) == 2 * Pow2(PRECISION) && 2 <= Pow2(PRECISION)
    ensures Pow2(PRECISION) < Pow2(PRECISION + 1) <= Pow2(MAX_EXPONENT)
  {
    Pow2Monotone(1, PRECISION);
    Pow2Monotone(PRECISION + 1, MAX_EXPONENT);
  }
}
