/** The integer helpers of `arithmetic.hpp`. Integers are unbounded here;
 *  the C++ division truncates toward zero, and `&`, `|` and the shifts on
 *  non-negative values are spelt out bit by bit. */
module Arithmetic {

  function Abs(n: int): nat
  {
    if n < 0 then -n else n
  }

  /** 2 to the power k. */
  function Pow2(k: nat): (p: nat)
    ensures p >= 1
  {
    if k == 0 then 1 else 2 * Pow2(k - 1)
  }

  /** base to the power k. */
  function Power(base: int, k: nat): int
  {
    if k == 0 then 1 else base * Power(base, k - 1)
  }

  /** The largest x with 2^x <= a, and 0 for a = 0. */
  function Log2(a: nat): nat
  {
    if a < 2 then 0 else 1 + Log2(a / 2)
  }

  /** Bitwise `&` of two non-negative integers, lowest bit first. */
  function And(a: nat, b: nat): nat
  {
    if a == 0 || b == 0 then 0
    else 2 * And(a / 2, b / 2) + (if a % 2 == 1 && b % 2 == 1 then 1 else 0)
  }

  /** Bitwise `|` of two non-negative integers, lowest bit first. */
  function Or(a: nat, b: nat): nat
    decreases a + b
  {
    if a == 0 then b
    else if b == 0 then a
    else 2 * Or(a / 2, b / 2) + (if a % 2 == 1 || b % 2 == 1 then 1 else 0)
  }

  /** C++ integer division: the quotient truncated toward zero. */
  function TruncDiv(n: int, d: int): int
    requires d != 0
  {
    if (n >= 0) == (d > 0) then Abs(n) / Abs(d) else -(Abs(n) / Abs(d))
  }

  // Euclidean division facts the proofs below need.

  /** The quotient and remainder of q * n + r by n, for 0 <= r < n. */
  lemma DivMod(i: int, n: int, q: int, r: int)
    requires n > 0 && 0 <= r < n && i == q * n + r
    ensures i / n == q && i % n == r && (i - r) / n == q
  {
    var q0, r0 := i / n, i % n;
    assert (q - q0) * n == r0 - r;
    if q > q0 {
      MulAtLeast(q - q0, n);
    } else if q < q0 {
      MulAtLeast(q0 - q, n);
    }
    assert q == q0;
    assert (i - r) == q * n;
  }

  lemma MulAtLeast(a: int, n: int)
    requires a >= 1 && n > 0
    ensures a * n >= n
  {
    assert a * n == (a - 1) * n + n;
  }

  lemma MulMonotone(a: nat, b: nat, n: nat)
    requires a <= b
    ensures a * n <= b * n
  {
    assert b * n == a * n + (b - a) * n;
  }

  // is_power_of_two

  /** A positive n is a power of two when halving it reaches 1 through
   *  even numbers only. */
  predicate Halves(n: nat)
  {
    n == 1 || (n >= 2 && n % 2 == 0 && Halves(n / 2))
  }

  lemma {:induction false} AndSelf(m: nat)
    ensures And(m, m) == m
  {
    if m > 0 {
      AndSelf(m / 2);
    }
  }

  /** n & (n - 1) clears the lowest set bit, so it is 0 exactly for the
   *  numbers with one set bit. */
  lemma {:induction false} AndPredecessor(n: nat)
    requires n >= 1
    ensures And(n, n - 1) == 0 <==> Halves(n)
  {
    if n >= 2 {
      assert (n - 1) / 2 == if n % 2 == 0 then n / 2 - 1 else n / 2;
      if n % 2 == 0 {
        AndPredecessor(n / 2);
      } else {
        AndSelf(n / 2);
      }
    }
  }

  lemma {:induction false} HalvesPow2(k: nat)
    ensures Halves(Pow2(k))
  {
    if k > 0 {
      HalvesPow2(k - 1);
    }
  }

  lemma {:induction false} HalvesLog2(n: nat)
    requires Halves(n)
    ensures n == Pow2(Log2(n))
  {
    if n >= 2 {
      HalvesLog2(n / 2);
    }
  }

  /** is_power_of_two(number): false for number <= 0, and otherwise
   *  number & (number - 1) == 0, which holds exactly for the powers of 2. */
  function IsPowerOfTwo(number: int): (b: bool)
    ensures b <==> exists k: nat :: number == Pow2(k)
  {
    if number <= 0 then false
    else
      PowerOfTwoMeaning(number);
      And(number, number - 1) == 0
  }

  lemma PowerOfTwoMeaning(n: nat)
    requires n >= 1
    ensures And(n, n - 1) == 0 <==> exists k: nat :: n == Pow2(k)
  {
    AndPredecessor(n);
    if Halves(n) {
      HalvesLog2(n);
    }
    forall k: nat | n == Pow2(k)
      ensures Halves(n)
    {
      HalvesPow2(k);
    }
  }

  // log_base_two

  /** 2^Log2(a) <= a < 2^(Log2(a) + 1) for a >= 1. */
  lemma {:induction false} Log2Bounds(a: nat)
    requires a >= 1
    ensures Pow2(Log2(a)) <= a < Pow2(Log2(a) + 1)
  {
    if a >= 2 {
      Log2Bounds(a / 2);
    }
  }

  /** The number of halvings still to come for the loop variable. */
  function Remaining(number: int): nat
  {
    if number == 0 then 0 else 1 + Log2(Abs(number))
  }

  /** log_base_two(number): halve (truncating) until 0, counting. */
  method LogBaseTwo(number: int) returns (result: int)
    ensures result == Log2(Abs(number))
    ensures number != 0 ==> Pow2(result) <= Abs(number) < Pow2(result + 1)
  {
    var n := number;
    result := 0;
    n := TruncDiv(n, 2);
    while n != 0
      invariant result >= 0 && Log2(Abs(number)) == result + Remaining(n)
      decreases Abs(n)
    {
      n := TruncDiv(n, 2);
      result := result + 1;
    }
    if number != 0 {
      Log2Bounds(Abs(number));
    }
  }

  // log_base_n

  /** The largest x with b^x <= a, and 0 for a = 0. */
  function LogN(a: nat, b: nat): nat
    requires b >= 2
    decreases a
  {
    if a < b then 0 else DivShrinks(a, b); 1 + LogN(a / b, b)
  }

  /** Dividing a positive number by 2 or more makes it smaller. */
  lemma DivShrinks(a: nat, b: nat)
    requires a >= 1 && b >= 2
    ensures a / b < a
  {
    var q := a / b;
    DivMod(a, b, q, a % b);
    MulMonotone(2, b, q);
  }

  /** b^LogN(a, b) <= a < b^(LogN(a, b) + 1) for a >= 1. */
  lemma {:induction false} LogNBounds(a: nat, b: nat)
    requires a >= 1 && b >= 2
    ensures Power(b, LogN(a, b)) <= a < Power(b, LogN(a, b) + 1)
    decreases a
  {
    if a >= b {
      var q := a / b;
      DivShrinks(a, b);
      DivMod(a, b, q, a % b);
      DivAtLeastOne(a, b);
      var l := LogN(q, b);
      assert LogN(a, b) == l + 1;
      LogNBounds(q, b);
      var p, p' := Power(b, l), Power(b, l + 1);
      assert Power(b, l + 2) == b * p';
      assert p' == b * p;
      MulMonotone(p, q, b);
      MulMonotone(q + 1, p', b);
      SuccTimes(q, b);
    }
  }

  lemma SuccTimes(q: int, b: int)
    ensures (q + 1) * b == q * b + b
  {
  }

  /** The number of divisions still to come for the loop variable. */
  function RemainingN(number: int, b: nat): nat
    requires b >= 2
  {
    if number == 0 then 0 else 1 + LogN(Abs(number), b)
  }

  /** The Euclidean quotient of two natural numbers is a natural number. */
  lemma NatDiv(a: nat, b: nat)
    requires b >= 1
    ensures a / b >= 0
  {
  }

  /** A quotient of at least the divisor by it is at least 1. */
  lemma DivAtLeastOne(a: nat, b: nat)
    requires b >= 1 && a >= b
    ensures a / b >= 1
  {
  }

  /** One truncating division by base takes one step off the count. */
  lemma DivStep(n: int, base: int)
    requires Abs(base) >= 2 && n != 0
    ensures Abs(TruncDiv(n, base)) < Abs(n)
    ensures RemainingN(n, Abs(base)) == 1 + RemainingN(TruncDiv(n, base), Abs(base))
  {
    var a, b := Abs(n), Abs(base);
    NatDiv(a, b);
    var q: int := a / b;
    assert Abs(TruncDiv(n, base)) == q;
    DivShrinks(a, b);
    if a < b {
      DivMod(a, b, 0, a);
    } else {
      DivAtLeastOne(a, b);
    }
  }

  /** log_base_n(number, base): divide (truncating) by base until 0,
   *  counting. A base of 0 divides by zero, and a base of 1 or -1 never
   *  brings a non-zero number to 0. */
  method LogBaseN(number: int, base: int) returns (result: int)
    requires Abs(base) >= 2 || (number == 0 && base != 0)
    ensures Abs(base) < 2 ==> result == 0
    ensures Abs(base) >= 2 ==> result == LogN(Abs(number), Abs(base))
    ensures Abs(base) >= 2 && number != 0 ==>
      Power(Abs(base), result) <= Abs(number) < Power(Abs(base), result + 1)
  {
    var n := number;
    result := 0;
    n := TruncDiv(n, base);
    if Abs(base) < 2 {
      return;
    }
    if number != 0 {
      DivStep(number, base);
    }
    while n != 0
      invariant result >= 0 && LogN(Abs(number), Abs(base)) == result + RemainingN(n, Abs(base))
      decreases Abs(n)
    {
      DivStep(n, base);
      n := TruncDiv(n, base);
      result := result + 1;
    }
    if number != 0 {
      LogNBounds(Abs(number), Abs(base));
    }
  }

  // npow

  /** npow(base, power): 0 for base 0 (even with power 0) or a negative
   *  power, otherwise the product of `power` copies of base. */
  method Npow(base: int, power: int) returns (result: int)
    ensures result == if base == 0 || power < 0 then 0 else Power(base, power)
  {
    if base == 0 {
      return 0;
    }
    if power < 0 {
      return 0;
    }
    result := 1;
    var i := 0;
    while i < power
      invariant 0 <= i <= power && result == Power(base, i)
    {
      result := result * base;
      i := i + 1;
    }
  }

  lemma {:induction false} PowerAdd(base: int, m: nat, n: nat)
    ensures Power(base, m + n) == Power(base, m) * Power(base, n)
  {
    if m > 0 {
      PowerAdd(base, m - 1, n);
    }
  }

  /** npow(2, k) is a power of two whose base-two logarithm is k. */
  lemma {:induction false} PowerOfTwoPower(k: nat)
    ensures Power(2, k) == Pow2(k)
    ensures IsPowerOfTwo(Power(2, k)) && Log2(Power(2, k)) == k
  {
    if k > 0 {
      PowerOfTwoPower(k - 1);
    }
  }

  // mersenne_number and mersenne_power

  lemma {:induction false} OrOneEven(x: nat)
    requires x % 2 == 0
    ensures Or(x, 1) == x + 1
  {
    if x > 0 {
      assert Or(x / 2, 0) == x / 2;
    }
  }

  lemma AndOne(x: nat)
    ensures And(x, 1) == x % 2
  {
    if x > 0 {
      assert And(x / 2, 0) == 0;
    }
  }

  /** mersenne_number(power): 0 for power < 1, else 2^power - 1, built by
   *  shifting in ones. */
  method MersenneNumber(power: int) returns (result: int)
    ensures result == if power < 1 then 0 else Pow2(power) - 1
  {
    if power < 1 {
      return 0;
    }
    result := 1;
    var i := 1;
    while i < power
      invariant 1 <= i <= power && result == Pow2(i) - 1
    {
      OrOneEven(result * 2);
      result := result * 2;
      result := Or(result, 1);
      i := i + 1;
    }
  }

  /** The exponent of a Mersenne number, 0 for anything else: the lowest
   *  bit of each halving must be 1 until nothing is left. */
  function MersenneExponent(n: int): nat
    decreases Abs(n)
  {
    if n < 1 then 0
    else if n == 1 then 1
    else if n % 2 == 0 then 0
    else
      var e := MersenneExponent(n / 2);
      if e == 0 then 0 else e + 1
  }

  /** mersenne_power inverts mersenne_number on the powers p >= 1. */
  lemma {:induction false} MersenneRoundTrip(p: nat)
    requires p >= 1
    ensures MersenneExponent(Pow2(p) - 1) == p
  {
    if p > 1 {
      MersenneRoundTrip(p - 1);
      assert (Pow2(p) - 1) / 2 == Pow2(p - 1) - 1;
    }
  }

  /** A non-zero exponent is exact: the number is 2^e - 1; and 0 means the
   *  number is no Mersenne number. */
  lemma {:induction false} MersenneExponentMeaning(n: int)
    ensures MersenneExponent(n) >= 1 ==> n == Pow2(MersenneExponent(n)) - 1
    ensures MersenneExponent(n) == 0 ==> forall p: nat :: p >= 1 ==> n != Pow2(p) - 1
    decreases Abs(n)
  {
    if n > 1 && n % 2 == 1 {
      MersenneExponentMeaning(n / 2);
    }
    forall p: nat | p >= 1 && n == Pow2(p) - 1
      ensures MersenneExponent(n) == p
    {
      MersenneRoundTrip(p);
    }
  }

  /** mersenne_power(number): shift out ones until nothing is left; a zero
   *  bit on the way gives 0. */
  method MersennePower(number: int) returns (result: int)
    ensures result == MersenneExponent(number)
  {
    if number < 1 {
      return 0;
    }
    var n := number;
    result := 0;
    while n != 0
      invariant n >= 0 && result >= 0
      invariant MersenneExponent(number) ==
        if n == 0 then result
        else if MersenneExponent(n) == 0 then 0 else result + MersenneExponent(n)
      decreases n
    {
      AndOne(n);
      if And(n, 1) == 0 {
        return 0;
      }
      n := n / 2;
      result := result + 1;
    }
  }

  // falling_factorial

  /** number * (number - 1) * ... * (number - count + 1). */
  function Falling(number: int, count: nat): int
    decreases count
  {
    if count == 0 then 1 else number * Falling(number - 1, count - 1)
  }

  lemma {:induction false} FallingLast(number: int, count: nat)
    ensures Falling(number, count + 1) == Falling(number, count) * (number - count)
    decreases count
  {
    if count > 0 {
      FallingLast(number - 1, count - 1);
    }
  }

  /** falling_factorial(number, count): 1 for count < 1, otherwise the
   *  product of count factors descending from number. */
  method FallingFactorial(number: int, count: int) returns (result: int)
    ensures result == Falling(number, if count < 1 then 0 else count)
  {
    if count < 1 {
      return 1;
    }
    var x := number;
    result := number;
    var i := 1;
    while i < count
      invariant 1 <= i <= count && x == number - i + 1 && result == Falling(number, i)
    {
      FallingLast(number, i);
      x := x - 1;
      result := result * x;
      i := i + 1;
    }
  }

  /** The descending product reaches 0 when there are more factors than
   *  the number, and is positive otherwise. */
  lemma {:induction false} FallingSign(number: nat, count: nat)
    ensures count > number ==> Falling(number, count) == 0
    ensures count <= number ==> Falling(number, count) > 0
  {
    if count > 0 && number > 0 {
      FallingSign(number - 1, count - 1);
    }
  }

  /** factorial(number): falling_factorial(number, number), the product of
   *  the numbers from 1 to number, and 1 for number < 1. */
  method Factorial(number: int) returns (result: int)
    ensures result == Falling(number, if number < 1 then 0 else number)
    ensures number >= 0 ==> result > 0
  {
    result := FallingFactorial(number, number);
    if number >= 0 {
      FallingSign(number, number);
    }
  }

  /** nchoosek(of_total, to_choose): falling_factorial(of_total, to_choose)
   *  divided (truncating) by to_choose!; the divisor is never 0. Choosing
   *  nothing gives 1, choosing everything gives 1, and choosing more than
   *  there is gives 0. */
  method NChooseK(ofTotal: int, toChoose: int) returns (result: int)
    ensures toChoose < 1 ==> result == 1
    ensures 1 <= toChoose == ofTotal ==> result == 1
    ensures 0 <= ofTotal < toChoose ==> result == 0
    ensures 0 <= ofTotal && 0 <= toChoose ==> result == Binomial(ofTotal, toChoose)
  {
    var numerator := FallingFactorial(ofTotal, toChoose);
    var denominator := FallingFactorial(toChoose, toChoose);
    if toChoose >= 1 {
      FallingSign(toChoose, toChoose);
      if ofTotal >= 0 {
        FallingSign(ofTotal, toChoose);
      }
    }
    if 0 <= ofTotal && 0 <= toChoose {
      BinomialFalling(ofTotal, toChoose);
      FallingSign(toChoose, toChoose);
      DivMod(numerator, denominator, Binomial(ofTotal, toChoose), 0);
    }
    result := TruncDiv(numerator, denominator);
  }

  /** The binomial coefficient by Pascal's rule: the ways to choose k of n
   *  items, counting those that take the last item and those that do not. */
  function Binomial(n: nat, k: nat): nat
  {
    if k == 0 then 1
    else if n == 0 then 0
    else Binomial(n - 1, k - 1) + Binomial(n - 1, k)
  }

  /** The arithmetic of one step of Pascal's rule: a * kf == f and
   *  b * k * kf == f * (n - k) add up to n * f. */
  lemma PascalStep(a: int, b: int, k: int, n: int, kf: int, f: int)
    requires a * kf == f && b * (k * kf) == f * (n - k)
    ensures (a + b) * (k * kf) == n * f
  {
    calc {
      (a + b) * (k * kf);
      k * (a * kf) + b * (k * kf);
      k * f + f * (n - k);
      n * f;
    }
  }

  /** The binomial coefficient times k! is the falling factorial of n, k
   *  factors deep; so k! divides it and the division in nchoosek is
   *  exact. */
  lemma {:induction false} BinomialFalling(n: nat, k: nat)
    ensures Binomial(n, k) * Falling(k, k) == Falling(n, k)
    decreases n
  {
    if k == 0 {
    } else if n == 0 {
      assert Falling(0, k) == 0 * Falling(-1, k - 1);
    } else {
      BinomialFalling(n - 1, k - 1);
      BinomialFalling(n - 1, k);
      FallingLast(n - 1, k - 1);
      PascalStep(Binomial(n - 1, k - 1), Binomial(n - 1, k), k, n, Falling(k - 1, k - 1), Falling(n - 1, k - 1));
    }
  }

  // fraction_toward_zero and fraction_away_from_zero

  /** fraction_toward_zero(n, d): the truncated quotient; d * q lies between
   *  0 and n, less than one step of d away from n. */
  function FractionTowardZero(numerator: int, denominator: int): (q: int)
    requires denominator != 0
    ensures numerator >= 0 ==> 0 <= q * denominator <= numerator
    ensures numerator < 0 ==> numerator <= q * denominator <= 0
    ensures Abs(numerator - q * denominator) < Abs(denominator)
  {
    TruncDivBounds(numerator, denominator);
    TruncDiv(numerator, denominator)
  }

  lemma TruncDivBounds(n: int, d: int)
    requires d != 0
    ensures var q := TruncDiv(n, d);
      && (n >= 0 ==> 0 <= q * d <= n)
      && (n < 0 ==> n <= q * d <= 0)
      && Abs(n - q * d) < Abs(d)
  {
    var a, b := Abs(n), Abs(d);
    var k: int := a / b;
    DivMod(a, b, k, a % b);
    var q := TruncDiv(n, d);
    assert q * d == (if n >= 0 then k * b else -(k * b)) by {
      SignedProduct(k, b, q, d, n >= 0);
    }
  }

  /** The truncated quotient times the divisor carries the sign of n. */
  lemma SignedProduct(k: int, b: int, q: int, d: int, nonNegative: bool)
    requires b > 0 && (d == b || d == -b)
    requires q == if nonNegative == (d > 0) then k else -k
    ensures q * d == if nonNegative then k * b else -(k * b)
  {
    if d < 0 {
      assert q * d == -(q * b);
    }
  }

  /** fraction_away_from_zero(n, d) for a positive d: the quotient rounded
   *  away from zero, so d * q covers n with less than one step to spare. */
  function FractionAwayFromZero(numerator: int, denominator: int): (q: int)
    requires denominator > 0
    ensures numerator >= 0 ==> (q - 1) * denominator < numerator <= q * denominator
    ensures numerator < 0 ==> q * denominator <= numerator < (q + 1) * denominator
  {
    AwayBounds(numerator, denominator);
    if numerator >= 0 then FractionTowardZero(numerator + (denominator - 1), denominator)
    else -FractionTowardZero(-numerator + (denominator - 1), denominator)
  }

  lemma AwayBounds(n: int, d: int)
    requires d > 0
    ensures var a := Abs(n);
      && (a + d - 1) / d * d >= a
      && ((a + d - 1) / d - 1) * d < a
  {
    var a := Abs(n);
    var k := (a + d - 1) / d;
    DivMod(a + d - 1, d, k, (a + d - 1) % d);
  }

  /** The tests over a > 0: a/a, a/(a + 1) and 1/(a + 1) rounded both ways,
   *  and their negatives. */
  lemma RoundingTests(a: int)
    requires a > 0
    ensures FractionTowardZero(a, a) == 1 && FractionTowardZero(a, a + 1) == 0
    ensures FractionTowardZero(1, a + 1) == 0
    ensures FractionAwayFromZero(a, a) == 1 && FractionAwayFromZero(a, a + 1) == 1
    ensures FractionAwayFromZero(1, a + 1) == 1
    ensures FractionTowardZero(-a, a) == -1 && FractionTowardZero(-a, a + 1) == 0
    ensures FractionTowardZero(-1, a + 1) == 0
    ensures FractionAwayFromZero(-a, a) == -1 && FractionAwayFromZero(-a, a + 1) == -1
    ensures FractionAwayFromZero(-1, a + 1) == -1
  {
    DivMod(a, a, 1, 0);
    DivMod(a, a + 1, 0, a);
    DivMod(a + a - 1, a, 1, a - 1);
    DivMod(a + a, a + 1, 1, a - 1);
    DivMod(a + 1, a + 1, 1, 0);
  }
}
