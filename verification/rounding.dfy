/**
 * Python's `round(x, ndigits)`: rounds to `ndigits` decimal places, ties to
 * the even neighbour; `ndigits == None` rounds to a whole number. Modelled
 * exactly on reals (no binary floating point).
 */
module Rounding {
  import opened Results

  function Pow10(n: nat): (r: nat)
    ensures r >= 1
  {
    if n == 0 then 1 else 10 * Pow10(n - 1)
  }

  /** The factor that moves `d` decimal places in front of the point (`10^d`, also for negative `d`). */
  function Scale(d: int): (s: real)
    ensures s > 0.0
  {
    if d >= 0 then Pow10(d) as real else 1.0 / Pow10(-d) as real
  }

  /** Nearest integer, ties to the even one. */
  function RoundHalfEven(x: real): (n: int)
    ensures x - 0.5 <= n as real <= x + 0.5
    ensures n as real - x == 0.5 || x - n as real == 0.5 ==> n % 2 == 0
  {
    var f := x.Floor;
    var frac := x - f as real;
    if frac < 0.5 then f
    else if frac > 0.5 then f + 1
    else if f % 2 == 0 then f
    else f + 1
  }

  /** `x` with its decimal point moved `d` places to the right. */
  function Shift(x: real, d: int): real
  {
    x * Scale(d)
  }

  /** `x` with its decimal point moved `d` places back to the left. */
  function Unshift(x: real, d: int): real
  {
    x / Scale(d)
  }

  /** `x` has at most `places` decimal places: a whole number for `None`,
      a multiple of `10^-d` for `Some(d)`. */
  predicate HasPlaces(x: real, places: Option<int>)
  {
    match places
    case None => x == x.Floor as real
    case Some(d) => Shift(x, d) == Shift(x, d).Floor as real
  }

  /** `round(x, places)`; `None` rounds to a whole number. */
  function RoundTo(x: real, places: Option<int>): (r: real)
    ensures HasPlaces(r, places)
    ensures places.None? ==> x - 0.5 <= r <= x + 0.5
    ensures places.None? && (r - x == 0.5 || x - r == 0.5) ==> r.Floor % 2 == 0
    ensures places.Some? ==>
      x - 0.5 / Scale(places.value) <= r <= x + 0.5 / Scale(places.value)
    ensures places.Some? ==>
      var rs, xs := Shift(r, places.value), Shift(x, places.value);
      rs - xs == 0.5 || xs - rs == 0.5 ==> rs.Floor % 2 == 0
  {
    match places
    case None => RoundHalfEven(x) as real
    case Some(d) =>
      var n := RoundHalfEven(Shift(x, d));
      UnshiftNear(x, n, d);
      ShiftUnshift(n, d);
      Unshift(n as real, d)
  }

  /** Moving the point back and forth again restores an integer. */
  lemma ShiftUnshift(n: int, d: int)
    ensures Shift(Unshift(n as real, d), d) == n as real
  {
    var s := Scale(d);
    assert (n as real / s) * s == n as real;
  }

  lemma RoundHalfEvenOfInt(n: int)
    ensures RoundHalfEven(n as real) == n
  {
  }

  lemma {:induction false} RoundHalfEvenMonotone(x: real, y: real)
    requires x <= y
    ensures RoundHalfEven(x) <= RoundHalfEven(y)
  {
    var fx, fy := x.Floor, y.Floor;
    if fx < fy {
      assert RoundHalfEven(x) <= fx + 1 <= fy <= RoundHalfEven(y);
    } else {
      assert fx == fy;
    }
  }

  /** Rounding to a non-negative number of places keeps a value between two integers. */
  lemma RoundToBetweenIntegers(x: real, places: Option<int>, lo: int, hi: int)
    requires places.Some? ==> places.value >= 0
    requires lo as real <= x <= hi as real
    ensures lo as real <= RoundTo(x, places) <= hi as real
  {
    match places
    case None =>
      RoundHalfEvenBetween(x, lo, hi);
    case Some(d) =>
      ShiftBounds(lo, x, hi, d);
      RoundHalfEvenBetween(Shift(x, d), lo * Pow10(d), hi * Pow10(d));
      UnshiftBounds(lo, RoundHalfEven(Shift(x, d)), hi, d);
  }

  /** For `d >= 0` an integer stays an integer when shifted, and shifting keeps order. */
  lemma ShiftBounds(lo: int, x: real, hi: int, d: int)
    requires d >= 0 && lo as real <= x <= hi as real
    ensures (lo * Pow10(d)) as real <= Shift(x, d) <= (hi * Pow10(d)) as real
  {
    ScaleOfNonNegative(d);
    ProductBounds(lo, x, hi, Pow10(d), Scale(d));
  }

  lemma ScaleOfNonNegative(d: int)
    requires d >= 0
    ensures Scale(d) == Pow10(d) as real
  {
  }

  lemma ProductBounds(lo: int, x: real, hi: int, k: int, s: real)
    requires k >= 1 && s == k as real
    requires lo as real <= x <= hi as real
    ensures (lo * k) as real <= x * s <= (hi * k) as real
  {
    ScaleMonotone(lo as real, x, s);
    ScaleMonotone(x, hi as real, s);
    RealProduct(lo, k);
    RealProduct(hi, k);
  }

  lemma UnshiftBounds(lo: int, n: int, hi: int, d: int)
    requires d >= 0 && lo * Pow10(d) <= n <= hi * Pow10(d)
    ensures lo as real <= Unshift(n as real, d) <= hi as real
  {
    ScaleOfNonNegative(d);
    QuotientBounds(lo, n, hi, Pow10(d), Scale(d));
  }

  lemma QuotientBounds(lo: int, n: int, hi: int, k: int, s: real)
    requires k >= 1 && s == k as real
    requires lo * k <= n <= hi * k
    ensures lo as real <= n as real / s <= hi as real
  {
    RealProduct(lo, k);
    RealProduct(hi, k);
    DivideBounds(lo as real, n as real, hi as real, s);
  }

  /** Moving the point back after rounding keeps the result within half a unit of the last place. */
  lemma UnshiftNear(x: real, n: int, d: int)
    requires Shift(x, d) - 0.5 <= n as real <= Shift(x, d) + 0.5
    ensures x - 0.5 / Scale(d) <= Unshift(n as real, d) <= x + 0.5 / Scale(d)
  {
    NearQuotient(x, n as real, Scale(d));
  }

  lemma NearQuotient(x: real, m: real, s: real)
    requires s > 0.0
    requires x * s - 0.5 <= m <= x * s + 0.5
    ensures x - 0.5 / s <= m / s <= x + 0.5 / s
  {
    assert (x - 0.5 / s) * s == x * s - 0.5;
    assert (x + 0.5 / s) * s == x * s + 0.5;
    DivideBounds(x - 0.5 / s, m, x + 0.5 / s, s);
  }

  lemma RoundHalfEvenBetween(x: real, lo: int, hi: int)
    requires lo as real <= x <= hi as real
    ensures lo <= RoundHalfEven(x) <= hi
  {
    RoundHalfEvenMonotone(lo as real, x);
    RoundHalfEvenMonotone(x, hi as real);
    RoundHalfEvenOfInt(lo);
    RoundHalfEvenOfInt(hi);
  }

  /** Rounding a whole number to a non-negative number of places gives it back. */
  lemma RoundToOfInt(n: int, places: Option<int>)
    requires places.Some? ==> places.value >= 0
    ensures RoundTo(n as real, places) == n as real
  {
    RoundToBetweenIntegers(n as real, places, n, n);
  }

  lemma RealProduct(a: int, b: int)
    ensures (a * b) as real == a as real * b as real
  {
  }

  lemma ScaleMonotone(x: real, y: real, s: real)
    requires x <= y && s >= 0.0
    ensures x * s <= y * s
  {
  }

  lemma DivideBounds(lo: real, m: real, hi: real, s: real)
    requires s > 0.0
    requires lo * s <= m <= hi * s
    ensures lo <= m / s <= hi
  {
  }
}
