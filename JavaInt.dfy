/** Java's 32-bit two's-complement `int` and the arithmetic the source performs on it. */
module JavaInt {

  const MIN_INT: int := -0x8000_0000
  const MAX_INT: int := 0x7fff_ffff
  const MODULUS: int := 0x1_0000_0000

  /** A value of Java type `int`. */
  newtype int32 = x: int | -0x8000_0000 <= x < 0x8000_0000

  /** Reduces a mathematical integer to the Java `int` with the same low 32 bits. */
  function Wrap(x: int): (r: int32)
    ensures (x - r as int) % MODULUS == 0
    ensures MIN_INT <= x <= MAX_INT ==> r as int == x
  {
    var m := x % MODULUS;
    if m <= MAX_INT then m as int32 else (m - MODULUS) as int32
  }

  /** `Wrap` is the only `int` congruent to `x` modulo 2^32. */
  lemma WrapUnique(x: int, y: int32)
    requires (x - y as int) % MODULUS == 0
    ensures y == Wrap(x)
  {
    var w := Wrap(x);
    var d := y as int - w as int;
    assert d % MODULUS == 0 by {
      Congruent(x, y as int, w as int);
    }
    assert -MODULUS < d < MODULUS;
  }

  /** Two numbers congruent to `x` are congruent to each other. */
  lemma Congruent(x: int, a: int, b: int)
    requires (x - a) % MODULUS == 0 && (x - b) % MODULUS == 0
    ensures (a - b) % MODULUS == 0
  {
    var p := (x - a) / MODULUS;
    var q := (x - b) / MODULUS;
    assert x - a == MODULUS * p;
    assert x - b == MODULUS * q;
    assert a - b == MODULUS * (q - p);
    ModMultiple(q - p);
  }

  lemma ModMultiple(k: int)
    ensures (MODULUS * k) % MODULUS == 0
  {
  }

  /** Java `a + b` on `int`. */
  function Add(a: int32, b: int32): (r: int32)
    ensures (a as int + b as int - r as int) % MODULUS == 0
  {
    Wrap(a as int + b as int)
  }

  /** Java `a - b` on `int`. */
  function Sub(a: int32, b: int32): (r: int32)
    ensures (a as int - b as int - r as int) % MODULUS == 0
  {
    Wrap(a as int - b as int)
  }

  /** Java `a * b` on `int`. */
  function Mul(a: int32, b: int32): (r: int32)
    ensures (a as int * b as int - r as int) % MODULUS == 0
  {
    Wrap(a as int * b as int)
  }

  /** Overflow wraps around: `Integer.MAX_VALUE + 1 == Integer.MIN_VALUE`. */
  lemma AddOverflow()
    ensures Add(MAX_INT as int32, 1) as int == MIN_INT
    ensures Sub(MIN_INT as int32, 1) as int == MAX_INT
  {
  }

  /** Wrapping subtraction undoes wrapping addition, for every pair of `int`s. */
  lemma SubUndoesAdd(a: int32, b: int32)
    ensures Sub(Add(a, b), b) == a
  {
    var s := Add(a, b);
    var k := (a as int + b as int - s as int) / MODULUS;
    assert a as int + b as int - s as int == MODULUS * k;
    assert s as int - b as int - a as int == MODULUS * -k;
    ModMultiple(-k);
    WrapUnique(s as int - b as int, a);
  }

  function Abs(x: int): (r: nat)
    ensures r == x || r == -x
  {
    if x < 0 then -x else x
  }

  /**
   * Integer division rounding toward zero, as Java's `/` does (Dafny's `/` is Euclidean):
   * the magnitude is the quotient of the magnitudes, and the sign is that of `a * b`.
   */
  function TruncDiv(a: int, b: int): (q: int)
    requires b != 0
    ensures Abs(q) == Abs(a) / Abs(b)
    ensures q > 0 ==> (a < 0 <==> b < 0)
    ensures q < 0 ==> (a < 0 <==> b > 0)
  {
    var m := Abs(a) / Abs(b);
    QuotientBound(Abs(a), Abs(b));
    if (a < 0) == (b < 0) then m else -m
  }

  /**
   * The remainder left by truncating division is smaller in magnitude than the divisor and
   * is zero or takes the sign of the dividend, as Java's `%` does.
   */
  lemma TruncDivRemainder(a: int, b: int)
    requires b != 0
    ensures Abs(a - TruncDiv(a, b) * b) < Abs(b)
    ensures a - TruncDiv(a, b) * b == 0 || (a - TruncDiv(a, b) * b < 0 <==> a < 0)
  {
    var n, d := Abs(a), Abs(b);
    EuclideanRemainder(n, d);
    RemainderOf(a, b, TruncDiv(a, b), n / d);
  }

  /** Dafny's division of a natural number leaves a remainder in `[0, d)`. */
  lemma EuclideanRemainder(n: nat, d: nat)
    requires d > 0
    ensures 0 <= n - n / d * d < d
  {
  }

  /** The remainder of `a` by `b` for a quotient `q` of magnitude `m` carrying the sign of `a * b`. */
  lemma RemainderOf(a: int, b: int, q: int, m: int)
    requires b != 0 && 0 <= Abs(a) - m * Abs(b) < Abs(b)
    requires q == (if (a < 0) == (b < 0) then m else -m)
    ensures Abs(a - q * b) < Abs(b)
    ensures a - q * b == 0 || (a - q * b < 0 <==> a < 0)
  {
    var rest := Abs(a) - m * Abs(b);
    if a < 0 && b < 0 {
      assert q * b == -(m * Abs(b));
    } else if a < 0 {
      assert q * b == -(m * Abs(b));
    } else if b < 0 {
      assert q * b == m * Abs(b);
    } else {
      assert q * b == m * Abs(b);
    }
    assert a - q * b == (if a < 0 then -rest else rest);
  }

  /** Dividing a natural number by a positive one gives a natural number no larger. */
  lemma QuotientBound(n: nat, d: nat)
    requires d > 0
    ensures 0 <= n / d <= n
  {
    var q, r := n / d, n % d;
    assert n == q * d + r && 0 <= r < d;
    MulAtLeast(q, d);
  }

  /** Multiplying by a positive `d` moves a number away from zero. */
  lemma {:induction false} MulAtLeast(q: int, d: int)
    requires d >= 1
    ensures q >= 0 ==> q * d >= q
    ensures q < 0 ==> q * d <= -d
    decreases d
  {
    if d > 1 {
      MulAtLeast(q, d - 1);
      assert q * d == q * (d - 1) + q;
    }
  }

  /** Truncation and Dafny's Euclidean division part ways on a negative dividend. */
  lemma TruncDivNegative()
    ensures TruncDiv(-7, 2) == -3 && -7 / 2 == -4
    ensures TruncDiv(7, -2) == -3 && TruncDiv(-7, -2) == 3
  {
  }

  /** Java `a / b` on `int`: truncating, and `MIN_VALUE / -1` overflows back to `MIN_VALUE`. */
  function Div(a: int32, b: int32): (r: int32)
    requires b != 0
    ensures !(a as int == MIN_INT && b == -1) ==> r as int == TruncDiv(a as int, b as int)
  {
    if a as int == MIN_INT && b == -1 then
      Wrap(-MIN_INT)
    else
      QuotientBound(Abs(a as int), Abs(b as int));
      Wrap(TruncDiv(a as int, b as int))
  }

  /** The one quotient that does not fit: `Integer.MIN_VALUE / -1 == Integer.MIN_VALUE`. */
  lemma DivOverflow()
    ensures Div(MIN_INT as int32, -1) as int == MIN_INT
  {
  }
}
