/**
 * Scaling of token amounts: src/App/Utils/Amount.ts on bignumber.js with its default settings, a quotient rounded
 * half away from zero to 20 decimal places and exact products. An amount is counted in units of 10^-20.
 */
module Amounts {

  const DECIMAL_PLACES := 20

  function Pow10(n: nat): nat {
    if n == 0 then 1 else 10 * Pow10(n - 1)
  }

  /** a / b rounded to the nearest integer, halves away from zero. */
  function RoundedQuotient(a: int, b: int): int
    requires b > 0
  {
    if a >= 0 then (2 * a + b) / (2 * b) else -((2 * -a + b) / (2 * b))
  }

  /** toFormatted of the integer `v`, in units. */
  function ToFormatted(v: int, decimals: nat): int {
    PowPositive(decimals);
    RoundedQuotient(v * Pow10(DECIMAL_PLACES), Pow10(decimals))
  }

  /** toPrecision of an amount in units, again in units. */
  function ToPrecision(units: int, decimals: nat): int {
    units * Pow10(decimals)
  }

  lemma {:induction false} PowPositive(n: nat)
    ensures Pow10(n) > 0
  {
    if n > 0 {
      PowPositive(n - 1);
    }
  }

  lemma {:induction false} PowSum(m: nat, n: nat)
    ensures Pow10(m + n) == Pow10(m) * Pow10(n)
  {
    if n > 0 {
      PowSum(m, n - 1);
      assert Pow10(m + n) == 10 * (Pow10(m) * Pow10(n - 1)) == Pow10(m) * (10 * Pow10(n - 1));
    }
  }

  /** A quotient q with remainder r is within half of the divisor. */
  lemma QuotientBounds(c: nat, b: nat)
    requires b > 0
    ensures var q := (2 * c + b) / (2 * b); 2 * c - b < 2 * (q * b) <= 2 * c + b
  {
    var n, d := 2 * c + b, 2 * b;
    var q, r := n / d, n % d;
    assert n == d * q + r && 0 <= r < d;
    assert d * q == 2 * (q * b);
  }

  /** Rounding moves a quotient by at most one half, away from zero when it is exactly one half. */
  lemma RoundingError(a: int, b: int)
    requires b > 0
    ensures
      var q := RoundedQuotient(a, b);
      -b <= 2 * (q * b - a) <= b && (a >= 0 ==> 2 * (q * b - a) > -b) && (a <= 0 ==> 2 * (q * b - a) < b)
  {
    if a >= 0 {
      QuotientBounds(a, b);
    } else {
      QuotientBounds(-a, b);
      var p := (2 * -a + b) / (2 * b);
      assert -p * b == -(p * b);
    }
  }

  lemma Distribute(q: int, k: int, b: int)
    ensures (q - k) * b == q * b - k * b
  {
  }

  lemma SmallMultiple(t: int, b: int)
    requires b > 0 && -b < t * b < b
    ensures t == 0
  {
    if t > 0 {
      AtLeastOnce(t, b);
    } else if t < 0 {
      AtLeastOnce(-t, b);
      Negate(t, b);
    }
  }

  lemma {:induction false} AtLeastOnce(t: nat, b: int)
    requires b > 0 && t > 0
    ensures t * b >= b
  {
    if t > 1 {
      AtLeastOnce(t - 1, b);
      Distribute(t, 1, b);
    }
  }

  lemma Negate(t: int, b: int)
    ensures (-t) * b == -(t * b)
  {
  }

  /** Of the multiples of b only one is within half of b. */
  lemma NearestMultiple(q: int, k: int, b: int)
    requires b > 0 && -b <= 2 * (q * b - k * b) <= b
    ensures q == k
  {
    Distribute(q, k, b);
    SmallMultiple(q - k, b);
  }

  lemma ExactQuotient(a: int, b: int, k: int)
    requires b > 0 && a == k * b
    ensures RoundedQuotient(a, b) == k
  {
    RoundingError(a, b);
    NearestMultiple(RoundedQuotient(a, b), k, b);
  }

  /** Scaling an integer amount down and up again loses at most half a unit of the last decimal place kept. */
  lemma {:induction false} RoundTripError(v: int, decimals: nat)
    ensures
      var error := ToPrecision(ToFormatted(v, decimals), decimals) - v * Pow10(20);
      2 * error <= Pow10(decimals) && -2 * error <= Pow10(decimals)
  {
    PowPositive(decimals);
    RoundingError(v * Pow10(DECIMAL_PLACES), Pow10(decimals));
  }

  lemma Associate(a: int, b: int, c: int)
    ensures a * b * c == a * (b * c) && a * b * c == a * c * b
  {
  }

  lemma MultipleRemainder(q: int, k: nat)
    requires k > 0
    ensures (q * k) % k == 0
  {
    var t, r := (q * k) / k, (q * k) % k;
    assert q * k == t * k + r;
    Distribute(q, t, k);
    SmallMultiple(q - t, k);
  }

  lemma CancelRight(a: int, b: int, p: int)
    requires p > 0 && a * p == b * p
    ensures a == b
  {
    Distribute(a, b, p);
    SmallMultiple(a - b, p);
  }

  /** Up to 20 decimals every amount is shown exactly. */
  lemma FewDecimalsExact(v: int, decimals: nat)
    requires decimals <= DECIMAL_PLACES
    ensures ToPrecision(ToFormatted(v, decimals), decimals) == v * Pow10(DECIMAL_PLACES)
  {
    var d, k := Pow10(decimals), Pow10(DECIMAL_PLACES - decimals);
    PowPositive(decimals);
    PowSum(DECIMAL_PLACES - decimals, decimals);
    Associate(v, k, d);
    ExactQuotient(v * Pow10(DECIMAL_PLACES), d, v * k);
  }

  /** With k the power of ten that does not fit, only multiples of k are shown exactly. */
  lemma ManyDecimalsExact(v: int, p: nat, k: nat)
    requires p > 0 && k > 0
    ensures k * p > 0
    ensures RoundedQuotient(v * p, k * p) * (k * p) == v * p <==> v % k == 0
  {
    assert k * p > 0 by {
      if k * p <= 0 {
        SmallMultiple(k, p);
      }
    }
    var q := RoundedQuotient(v * p, k * p);
    if v % k == 0 {
      var w := v / k;
      assert v == w * k;
      Associate(w, k, p);
      ExactQuotient(v * p, k * p, w);
    }
    if q * (k * p) == v * p {
      Associate(q, k, p);
      CancelRight(q * k, v, p);
      MultipleRemainder(q, k);
    }
  }

  /**
   * The round trip gives the amount back exactly when the token has no more than 20 decimals or the amount is a
   * multiple of the power of ten that the 20 decimal places cannot show.
   */
  lemma {:induction false} RoundTripIff(v: int, decimals: nat)
    ensures decimals > 20 ==> Pow10(decimals - 20) > 0
    ensures ToPrecision(ToFormatted(v, decimals), decimals) == v * Pow10(20)
       <==> decimals <= 20 || v % Pow10(decimals - 20) == 0
  {
    if decimals <= DECIMAL_PLACES {
      FewDecimalsExact(v, decimals);
    } else {
      PowPositive(DECIMAL_PLACES);
      PowPositive(decimals - DECIMAL_PLACES);
      PowSum(decimals - DECIMAL_PLACES, DECIMAL_PLACES);
      ManyDecimalsExact(v, Pow10(DECIMAL_PLACES), Pow10(decimals - DECIMAL_PLACES));
    }
  }
}
