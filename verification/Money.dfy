/**
 Paise (backend/internal/core/money.go): checked arithmetic on a wrapping 64-bit integer. Each
 operation computes a wrapped result and then decides from it whether it wrapped; the results say
 exactly when that decision is right.
 */
module Money {
  import opened Core

  const TWO_63: int := 0x8000_0000_0000_0000
  const TWO_64: int := 0x1_0000_0000_0000_0000

  newtype Paise = x: int | -0x8000_0000_0000_0000 <= x < 0x8000_0000_0000_0000

  const MAX: int := TWO_63 - 1
  const MIN: int := -TWO_63

  predicate Fits(x: int) {
    MIN <= x <= MAX
  }

  /** Two's complement wrap-around. */
  function Wrap(x: int): Paise {
    ((x + TWO_63) % TWO_64 - TWO_63) as Paise
  }

  lemma WrapIsCongruent(x: int)
    ensures exists k :: Wrap(x) as int == x - k * TWO_64
    ensures Fits(x) <==> Wrap(x) as int == x
  {
    var k := (x + TWO_63) / TWO_64;
    assert x + TWO_63 == k * TWO_64 + (x + TWO_63) % TWO_64;
    assert Wrap(x) as int == x - k * TWO_64;
  }

  lemma TruncDivBounds(a: int, b: int)
    requires b != 0
    ensures var r := a - b * TruncDiv(a, b); (if b > 0 then -b else b) < r < (if b > 0 then b else -b)
    ensures var r := a - b * TruncDiv(a, b); a >= 0 ==> r >= 0
    ensures var r := a - b * TruncDiv(a, b); a <= 0 ==> r <= 0
  {
    var n := if a >= 0 then a else -a;
    assert n == b * (n / b) + n % b;
    assert b * (-(n / b)) == -(b * (n / b));
  }

  function Add(p: Paise, other: Paise): (Paise, bool) {
    var sum := Wrap(p as int + other as int);
    (sum, !((other > 0 && sum < p) || (other < 0 && sum > p)))
  }

  function Sub(p: Paise, other: Paise): (Paise, bool) {
    var diff := Wrap(p as int - other as int);
    (diff, !((other > 0 && diff > p) || (other < 0 && diff < p)))
  }

  /** int64 division: the one quotient that does not fit wraps too. */
  function Quotient(a: Paise, b: Paise): Paise
    requires b != 0
  {
    Wrap(TruncDiv(a as int, b as int))
  }

  function MulInt(p: Paise, factor: Paise): (Paise, bool) {
    if factor == 0 || p == 0 then (0, true)
    else
      var result := Wrap(p as int * factor as int);
      (result, Quotient(result, factor) == p)
  }

  function MulPercent(p: Paise, percentBp: Paise): (Paise, bool) {
    if percentBp < 0 then (0, false)
    else if percentBp != 0 && p as int > TruncDiv(MAX, percentBp as int) then (0, false)
    else (Quotient(Wrap(p as int * percentBp as int), 10000), true)
  }

  // ---------------------------------------------------------------- results

  /** Main result, exact: Add reports success if and only if the true sum fits, and then it is the sum. */
  lemma AddIsExact(p: Paise, other: Paise)
    ensures Add(p, other).1 <==> Fits(p as int + other as int)
    ensures Add(p, other).1 ==> Add(p, other).0 as int == p as int + other as int
  {
    var x := p as int + other as int;
    if x > MAX {
      assert (x + TWO_63) % TWO_64 == x + TWO_63 - TWO_64;
    } else if x < MIN {
      assert (x + TWO_63) % TWO_64 == x + TWO_63 + TWO_64;
    }
  }

  lemma SubIsExact(p: Paise, other: Paise)
    ensures Sub(p, other).1 <==> Fits(p as int - other as int)
    ensures Sub(p, other).1 ==> Sub(p, other).0 as int == p as int - other as int
  {
    var x := p as int - other as int;
    if x > MAX {
      assert (x + TWO_63) % TWO_64 == x + TWO_63 - TWO_64;
    } else if x < MIN {
      assert (x + TWO_63) % TWO_64 == x + TWO_63 + TWO_64;
    }
  }

  /** A wrapped product never divides back to its factor, unless the division wraps as well. */
  lemma WrappedProductIsCaught(p: int, f: int, r: int)
    requires Fits(p) && Fits(f) && Fits(r) && f != 0 && !Fits(p * f)
    requires exists k :: r == p * f - k * TWO_64
    ensures TruncDiv(r, f) != p
  {
    var k :| r == p * f - k * TWO_64;
    assert k >= 1 || k <= -1;
    assert f * p == p * f;
    TruncDivBounds(r, f);
  }

  lemma QuotientFits(a: Paise, b: Paise)
    requires b != 0
    ensures Fits(TruncDiv(a as int, b as int)) <==> !(a as int == MIN && b == -1)
  {
    var x, y := a as int, b as int;
    var q := TruncDiv(x, y);
    if y == -1 {
      assert (-x) / y == x;
    } else if y == 1 {
      assert q == x;
    } else {
      TruncDivBounds(x, y);
      if q > MAX || q < MIN {
        TwiceAsLarge(y, q);
      }
    }
  }

  lemma TwiceAsLarge(y: int, q: int)
    requires 2 <= y <= TWO_63 || -TWO_63 <= y <= -2
    requires q >= TWO_63 || q <= -TWO_63
    ensures var size := if y > 0 then y else -y; y * q >= TWO_63 + size || y * q <= -TWO_63 - size
  {
    if y > 0 && q > 0 {
      ProductOfSizes(y, q);
    } else if y > 0 {
      ProductOfSizes(y, -q);
    } else if q > 0 {
      ProductOfSizes(-y, q);
    } else {
      ProductOfSizes(-y, -q);
    }
  }

  lemma ProductOfSizes(n: int, m: int)
    requires 2 <= n <= TWO_63 && m >= TWO_63
    ensures n * m >= TWO_63 + n
    ensures n * -m <= -TWO_63 - n && -n * m <= -TWO_63 - n && -n * -m >= TWO_63 + n
  {
    assert n * (m - TWO_63) >= 0;
    assert n * m == n * (m - TWO_63) + n * TWO_63;
    assert n * -m == -(n * m) && -n * m == -(n * m) && -n * -m == n * m;
  }

  /** Main result, exact: the divide-back check is right for every pair but one, MinInt64 times -1, which it passes. */
  lemma MulIntIsExactButOnce(p: Paise, factor: Paise)
    ensures MulInt(p, factor).1 <==> Fits(p as int * factor as int) || (p as int == MIN && factor == -1)
    ensures Fits(p as int * factor as int) ==> MulInt(p, factor).0 as int == p as int * factor as int
    ensures p as int == MIN && factor == -1 ==> MulInt(p, factor) == (p, true)
  {
    if factor != 0 && p != 0 {
      var a, f := p as int, factor as int;
      var r := Wrap(a * f);
      WrapIsCongruent(a * f);
      QuotientFits(r, factor);
      WrapIsCongruent(TruncDiv(r as int, f));
      if Fits(a * f) {
        ExactDivision(a, f);
      } else {
        WrappedProductIsCaught(a, f, r as int);
        if r as int == MIN && factor == -1 {
          assert a * f == -a;
          assert (-a + TWO_63) % TWO_64 == 0;
        }
      }
    }
  }

  lemma ExactDivision(a: int, f: int)
    requires f != 0
    ensures TruncDiv(a * f, f) == a
  {
    var q := TruncDiv(a * f, f);
    TruncDivBounds(a * f, f);
    assert a * f - f * q == f * (a - q);
    if a - q >= 1 {
      SizeOfMultiple(f, a - q);
    } else if a - q <= -1 {
      assert f * (a - q) == -(f * (q - a));
      SizeOfMultiple(f, q - a);
    }
  }

  lemma SizeOfMultiple(f: int, n: int)
    requires n >= 1
    ensures f > 0 ==> f * n >= f
    ensures f < 0 ==> f * n <= f
  {
  }

  /**
   Main result, exact: MulPercent refuses negative rates and overflow above, but not overflow below.
   What it returns as a success is the true amount cut toward zero if and only if the product is not
   below MinInt64.
   */
  lemma MulPercentIsExactly(p: Paise, bp: Paise)
    ensures MulPercent(p, bp).1 <==> bp >= 0 && p as int * bp as int <= MAX
    ensures MulPercent(p, bp).1
      ==> (MulPercent(p, bp).0 as int == TruncDiv(p as int * bp as int, 10000) <==> p as int * bp as int >= MIN)
  {
    var a, b := p as int, bp as int;
    if b > 0 {
      LargestFactor(a, b);
    }
    if bp >= 0 && a * b <= MAX {
      WrapIsCongruent(a * b);
      var r := Wrap(a * b);
      QuotientFits(r, 10000);
      WrapIsCongruent(TruncDiv(r as int, 10000));
      if a * b < MIN {
        var k :| r as int == a * b - k * TWO_64;
        TruncDivBounds(r as int, 10000);
        TruncDivBounds(a * b, 10000);
        assert k <= -1;
      }
    }
  }

  /** a <= floor(MAX / b) says that a * b does not exceed MAX. */
  lemma LargestFactor(a: int, b: int)
    requires b > 0
    ensures a <= TruncDiv(MAX, b) <==> a * b <= MAX
  {
    var q := MAX / b;
    assert MAX == b * q + MAX % b;
    if a <= q {
      assert b * a <= b * q;
    } else {
      assert b * a >= b * (q + 1) == b * q + b;
    }
    assert b * a == a * b;
  }
}
