/**
 float64 as far as the backoff needs it: products of an integer and a power of two,
 and the conversion of the result to an int64.
 */
module Floats {
  import opened Common

  const MAX_EXACT := 0x20_0000_0000_0000          // 2^53: integers up to here are floats
  const INT64_LIMIT := 0x8000_0000_0000_0000      // 2^63
  const INFINITE_POWER := 1024                    // 2^1024 is the first power of two that is no float

  predicate IsInt64(n: int) { -INT64_LIMIT <= n < INT64_LIMIT }

  function Pow2(n: nat): (p: nat)
    ensures p >= 1
  {
    if n == 0 then 1 else 2 * Pow2(n - 1)
  }

  /** m * 2^e as a real number. */
  function Dyadic(m: int, e: nat): real { (m * Pow2(e)) as real }

  datatype Number = Finite(value: real) | PlusInf | MinusInf | NaN

  /**
   The float64 arithmetic of a machine: round is the rounding of the exact result of
   an operation, and overflow is what converting a number outside the int64 range
   yields, which Go leaves to the implementation.
   */
  datatype Float = Float(round: real -> Number, overflow: Number -> int)

  predicate AtMost(x: Number, y: Number) {
    match x
    case Finite(a) => y == PlusInf || (y.Finite? && a <= y.value)
    case PlusInf => y == PlusInf
    case MinusInf => y != NaN
    case NaN => false
  }

  /**
   What any correct rounding does: it leaves floats alone, never reverses an order,
   rounds an int64 to an integer that is a float, and a conversion yields an int64.
   */
  ghost predicate Correct(fp: Float) {
    && (forall m: int, e: nat :: -MAX_EXACT <= m <= MAX_EXACT && e <= 970 ==>
          fp.round(Dyadic(m, e)) == Finite(Dyadic(m, e)))
    && (forall x: real, y: real :: x <= y ==> AtMost(fp.round(x), fp.round(y)))
    && (forall n: int :: IsInt64(n) ==> RoundsToFloat(fp, n))
    && (forall x: Number :: IsInt64(fp.overflow(x)))
  }

  ghost predicate RoundsToFloat(fp: Float, n: int) {
    exists m: int, e: nat :: -MAX_EXACT <= m <= MAX_EXACT && e <= 11 && fp.round(n as real) == Finite(Dyadic(m, e))
  }

  /** The float nearest to an int64, an integer. */
  function Nearest(fp: Float, n: int): int {
    match fp.round(n as real)
    case Finite(v) => v.Floor
    case _ => 0
  }

  function Sign(x: Number): int {
    match x
    case Finite(v) => if v > 0.0 then 1 else if v < 0.0 then -1 else 0
    case PlusInf => 1
    case MinusInf => -1
    case NaN => 0
  }

  function ExactProduct(x: real, y: real): real { x * y }

  /** The float product of two floats. */
  function Times(fp: Float, x: Number, y: Number): Number {
    if x.Finite? && y.Finite? then fp.round(ExactProduct(x.value, y.value))
    else if Sign(x) * Sign(y) > 0 then PlusInf
    else if Sign(x) * Sign(y) < 0 then MinusInf
    else NaN
  }

  /** math.Pow(2, n), which is exact until it is infinite. */
  function PowerOf2(n: nat): Number {
    if n < INFINITE_POWER then Finite(Dyadic(1, n)) else PlusInf
  }

  /** float64(interval) * math.Pow(2, attempt) */
  function Product(fp: Float, interval: int, attempt: nat): Number {
    Times(fp, fp.round(interval as real), PowerOf2(attempt))
  }

  /** time.Duration(x): truncation toward zero, where the result fits. */
  function ToDuration(fp: Float, x: Number): Duration {
    match x
    case Finite(v) =>
      var t := if v >= 0.0 then v.Floor else -((-v).Floor);
      if IsInt64(t) then t else fp.overflow(x)
    case _ => fp.overflow(x)
  }

  // ---- powers -------------------------------------------------------------------------

  lemma {:induction false} Pow2Grows(m: nat, n: nat)
    requires m <= n
    ensures Pow2(m) <= Pow2(n)
    decreases n
  {
    if m < n {
      Pow2Grows(m, n - 1);
    }
  }

  lemma TimesGrows(a: int, x: int, y: int)
    requires a >= 0 && x <= y
    ensures a * x <= a * y
  {}

  lemma {:induction false} Pow2Plus(m: nat, n: nat)
    ensures Pow2(m) * Pow2(n) == Pow2(m + n)
  {
    if n > 0 {
      Pow2Plus(m, n - 1);
    }
  }

  lemma Pow2At8()
    ensures Pow2(5) == 0x20 && Pow2(7) == 0x80 && Pow2(8) == 0x100
  {}

  lemma Pow2At63()
    ensures Pow2(63) == INT64_LIMIT && Pow2(53) == MAX_EXACT
  {
    Pow2At8();
    hide Pow2;
    Pow2Plus(8, 8);
    Pow2Plus(16, 16);
    Pow2Plus(32, 16);
    Pow2Plus(48, 5);
    Pow2Plus(48, 8);
    Pow2Plus(56, 7);
  }

  // ---- rounding an int64 ----------------------------------------------------------------

  lemma RoundsExactly(fp: Float, m: int, e: nat)
    requires Correct(fp) && -MAX_EXACT <= m <= MAX_EXACT && e <= 970
    ensures fp.round(Dyadic(m, e)) == Finite(Dyadic(m, e))
  {}

  lemma RoundsSmall(fp: Float, n: int)
    requires Correct(fp) && -MAX_EXACT <= n <= MAX_EXACT
    ensures fp.round(n as real) == Finite(n as real)
  {
    assert Dyadic(n, 0) == n as real;
    RoundsExactly(fp, n, 0);
  }

  lemma RoundsInOrder(fp: Float, x: real, y: real)
    requires Correct(fp) && x <= y
    ensures AtMost(fp.round(x), fp.round(y))
  {}

  /** The nearest float has the sign of the integer, and is the integer itself up to 2^53. */
  lemma NearestIs(fp: Float, n: int)
    requires Correct(fp) && IsInt64(n)
    ensures fp.round(n as real) == Finite(Nearest(fp, n) as real)
    ensures -MAX_EXACT <= n <= MAX_EXACT ==> Nearest(fp, n) == n
    ensures n > 0 ==> Nearest(fp, n) > 0
    ensures n < 0 ==> Nearest(fp, n) < 0
    ensures n > MAX_EXACT ==> Nearest(fp, n) >= MAX_EXACT
  {
    assert RoundsToFloat(fp, n);
    var m: int, e: nat :| -MAX_EXACT <= m <= MAX_EXACT && e <= 11 && fp.round(n as real) == Finite(Dyadic(m, e));
    assert Dyadic(m, e).Floor == m * Pow2(e);
    if -MAX_EXACT <= n <= MAX_EXACT {
      RoundsSmall(fp, n);
    } else if n > 0 {
      RoundsInOrder(fp, MAX_EXACT as real, n as real);
      RoundsSmall(fp, MAX_EXACT);
    } else {
      RoundsInOrder(fp, n as real, -1 as real);
      RoundsSmall(fp, -1);
    }
  }

  // ---- the product ------------------------------------------------------------------------

  lemma ProductIs(fp: Float, n: int, k: nat)
    requires Correct(fp) && IsInt64(n) && k < INFINITE_POWER
    ensures Product(fp, n, k) == fp.round((Nearest(fp, n) * Pow2(k)) as real)
  {
    hide Correct, Pow2, Nearest;
    NearestIs(fp, n);
    RealProduct(Nearest(fp, n), Pow2(k));
    assert 1 * Pow2(k) == Pow2(k);
    TimesFinite(fp, Nearest(fp, n) as real, Dyadic(1, k), (Nearest(fp, n) * Pow2(k)) as real);
  }

  lemma TimesFinite(fp: Float, x: real, y: real, z: real)
    requires x * y == z
    ensures Times(fp, Finite(x), Finite(y)) == fp.round(z)
  {
    assert ExactProduct(x, y) == z;
  }

  lemma RealProduct(a: int, b: int)
    ensures a as real * b as real == (a * b) as real
  {}

  /** A product within the int64 range is exact, and so is its conversion. */
  lemma ProductFits(fp: Float, n: int, k: nat)
    requires Correct(fp) && IsInt64(n) && n != 0 && IsInt64(Nearest(fp, n) * Pow2(k))
    ensures ToDuration(fp, Product(fp, n, k)) == Nearest(fp, n) * Pow2(k)
  {
    NearestIs(fp, n);
    PowerBound(Nearest(fp, n), k);
    ProductIs(fp, n, k);
    var near := Nearest(fp, n) * Pow2(k);
    assert RoundsToFloat(fp, n);
    var m: int, e: nat :| -MAX_EXACT <= m <= MAX_EXACT && e <= 11 && fp.round(n as real) == Finite(Dyadic(m, e));
    assert Dyadic(m, e).Floor == m * Pow2(e);
    Pow2Plus(e, k);
    Regroup(m, Pow2(e), Pow2(k));
    assert near as real == Dyadic(m, e + k);
    RoundsExactly(fp, m, e + k);
    hide Correct, Pow2, Nearest, Product;
    ConvertInteger(fp, near);
  }

  lemma Regroup(a: int, b: int, c: int)
    ensures a * b * c == a * (b * c)
  {}

  lemma ConvertInteger(fp: Float, n: int)
    requires IsInt64(n)
    ensures ToDuration(fp, Finite(n as real)) == n
  {
    assert (n as real).Floor == n && (-(n as real)).Floor == -n;
  }

  /** A nonzero integer times 2^k leaves the int64 range for every k above 63. */
  lemma PowerBound(n: int, k: nat)
    requires n != 0 && IsInt64(n * Pow2(k))
    ensures k <= 63
  {
    if k > 63 {
      Pow2Grows(64, k);
      Pow2At63();
      assert Pow2(64) == 2 * INT64_LIMIT;
      if n >= 1 {
        TimesGrows(Pow2(k), 1, n);
      } else {
        TimesGrows(Pow2(k), n, -1);
      }
    }
  }

  lemma ZeroProduct(fp: Float, k: nat)
    requires Correct(fp)
    ensures ToDuration(fp, Product(fp, 0, k)) == if k < INFINITE_POWER then 0 else fp.overflow(NaN)
  {
    NearestIs(fp, 0);
    RoundsSmall(fp, 0);
    if k < INFINITE_POWER {
      ProductIs(fp, 0, k);
    }
  }

  lemma ProductTooBig(fp: Float, n: int, k: nat)
    requires Correct(fp) && IsInt64(n) && n > 0 && Nearest(fp, n) * Pow2(k) >= INT64_LIMIT
    ensures ToDuration(fp, Product(fp, n, k)) == fp.overflow(Product(fp, n, k))
  {
    NearestIs(fp, n);
    if k < INFINITE_POWER {
      ProductIs(fp, n, k);
      Limits(fp);
      RoundsInOrder(fp, INT64_LIMIT as real, (Nearest(fp, n) * Pow2(k)) as real);
    }
  }

  lemma ProductTooSmall(fp: Float, n: int, k: nat)
    requires Correct(fp) && IsInt64(n) && n < 0 && Nearest(fp, n) * Pow2(k) < -INT64_LIMIT
    ensures IsInt64(ToDuration(fp, Product(fp, n, k)))
  {}

  lemma Limits(fp: Float)
    requires Correct(fp)
    ensures fp.round(INT64_LIMIT as real) == Finite(INT64_LIMIT as real)
  {
    Pow2At63();
    RoundsExactly(fp, 1, 63);
  }

  /** If the product with a negative integer is an int64, so is that with its nearest float. */
  lemma SmallStays(fp: Float, n: int, k: nat)
    requires Correct(fp) && IsInt64(n) && n < 0 && Nearest(fp, n) * Pow2(k) < -INT64_LIMIT
    ensures n * Pow2(k) < -INT64_LIMIT
  {
    hide Correct, Pow2, Nearest;
    if n * Pow2(k) >= -INT64_LIMIT {
      NearestIs(fp, n);
      PowerOfSmall(n, k);
      NearestAtLeast(fp, n, 63 - k);
      StillSmall(Nearest(fp, n), 63 - k, k);
    }
  }

  lemma PowerOfSmall(n: int, k: nat)
    requires n < 0 && n * Pow2(k) >= -INT64_LIMIT
    ensures k <= 63 && -(Pow2(63 - k) as int) <= n
  {
    hide Pow2;
    TimesGrows(Pow2(k), n, -1);
    assert n * Pow2(k) < 0;
    PowerBound(n, k);
    Pow2Plus(63 - k, k);
    Pow2At63();
    Quotient(n, Pow2(63 - k), Pow2(k));
  }

  lemma StillSmall(near: int, j: nat, k: nat)
    requires j + k == 63 && -(Pow2(j) as int) <= near
    ensures near * Pow2(k) >= -INT64_LIMIT
  {
    hide Pow2;
    var p: int, q: int := Pow2(j), Pow2(k);
    Pow2Plus(j, k);
    Pow2At63();
    TimesGrows(q, -p, near);
    NegateProduct(q, p);
  }

  lemma NegateProduct(a: int, b: int)
    ensures a * -b == -(b * a)
  {}

  lemma NearestAtLeast(fp: Float, n: int, k: nat)
    requires Correct(fp) && IsInt64(n) && k <= 63 && -(Pow2(k) as int) <= n
    ensures -(Pow2(k) as int) <= Nearest(fp, n)
  {
    hide Pow2;
    NearestIs(fp, n);
    var low := -(Pow2(k) as int);
    assert -1 * Pow2(k) == low;
    RoundsExactly(fp, -1, k);
    RoundsInOrder(fp, low as real, n as real);
  }

  lemma Quotient(n: int, a: int, b: int)
    requires b >= 1 && n * b >= -(a * b)
    ensures n >= -a
  {
    if n < -a {
      TimesGrows(b, n, -a - 1);
    }
  }
}
