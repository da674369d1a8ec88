/** Exact fractions (`ropufu::aftermath::algebra::fraction` over a signed
 *  integer type). The two fields are unbounded integers here; the value a
 *  fraction stands for is the real number numerator / denominator. */
module Fractions {
  import opened Errors

  /** The state of a fraction: its two fields, as stored. */
  datatype Ratio = Ratio(numerator: int, denominator: int)

  /** The documented invariant: the denominator is always positive. */
  predicate Regular(r: Ratio) {
    r.denominator > 0
  }

  /** The rational number a fraction with a non-zero denominator stands for. */
  function Value(r: Ratio): real
    requires r.denominator != 0
  {
    r.numerator as real / r.denominator as real
  }

  /** regularize(): a negative denominator moves its sign to the numerator. */
  function Regularized(r: Ratio): (q: Ratio)
    ensures r.denominator != 0 ==> Regular(q) && Value(q) == Value(r)
    ensures r.denominator >= 0 ==> q == r
  {
    if r.denominator < 0 then Ratio(-r.numerator, -r.denominator) else r
  }

  /** Cross-multiplication, which `==` compares. */
  predicate Equal(x: Ratio, y: Ratio) {
    x.numerator * y.denominator == y.numerator * x.denominator
  }

  /** Cross-multiplication, which `<` compares; `>` is `Less` with its
   *  arguments swapped. */
  predicate Less(x: Ratio, y: Ratio) {
    x.numerator * y.denominator < y.numerator * x.denominator
  }

  /** `<=`; `>=` is `LessEqual` with its arguments swapped. */
  predicate LessEqual(x: Ratio, y: Ratio) {
    x.numerator * y.denominator <= y.numerator * x.denominator
  }

  /** The comparisons against an integer, `x < k` and `x <= k`, and the
   *  mirrored `k < x` and `k <= x`. */
  predicate LessThanInteger(x: Ratio, k: int) {
    x.numerator < x.denominator * k
  }

  predicate AtMostInteger(x: Ratio, k: int) {
    x.numerator <= x.denominator * k
  }

  predicate IntegerLess(k: int, x: Ratio) {
    k * x.denominator < x.numerator
  }

  predicate IntegerAtMost(k: int, x: Ratio) {
    k * x.denominator <= x.numerator
  }

  lemma ProductPositive(a: int, b: int)
    requires a > 0 && b > 0
    ensures a * b > 0
  {
  }

  lemma ScaleValue(n: int, d: int, k: int)
    requires d != 0 && k != 0
    ensures (n * k) as real / (d * k) as real == n as real / d as real
  {
    var v := n as real / d as real;
    assert v * d as real == n as real;
    assert (n * k) as real == v * (d * k) as real;
  }

  /** `==` holds exactly when both fractions stand for the same number. */
  lemma EqualMeansSameValue(x: Ratio, y: Ratio)
    requires x.denominator != 0 && y.denominator != 0
    ensures Equal(x, y) <==> Value(x) == Value(y)
  {
    var vx, vy := Value(x), Value(y);
    assert vx * x.denominator as real == x.numerator as real;
    assert vy * y.denominator as real == y.numerator as real;
    assert (x.numerator * y.denominator) as real == vx * (x.denominator * y.denominator) as real;
    assert (y.numerator * x.denominator) as real == vy * (x.denominator * y.denominator) as real;
  }

  /** With positive denominators, `<` and `<=` order fractions by value. */
  lemma LessMeansSmallerValue(x: Ratio, y: Ratio)
    requires Regular(x) && Regular(y)
    ensures Less(x, y) <==> Value(x) < Value(y)
    ensures LessEqual(x, y) <==> Value(x) <= Value(y)
  {
    var vx, vy := Value(x), Value(y);
    var dd := (x.denominator * y.denominator) as real;
    ProductPositive(x.denominator, y.denominator);
    assert vx * x.denominator as real == x.numerator as real;
    assert vy * y.denominator as real == y.numerator as real;
    assert (x.numerator * y.denominator) as real == vx * dd;
    assert (y.numerator * x.denominator) as real == vy * dd;
  }

  /** Comparing against the integer k is comparing against k / 1. */
  lemma IntegerComparisons(x: Ratio, k: int)
    ensures LessThanInteger(x, k) <==> Less(x, Ratio(k, 1))
    ensures AtMostInteger(x, k) <==> LessEqual(x, Ratio(k, 1))
    ensures IntegerLess(k, x) <==> Less(Ratio(k, 1), x)
    ensures IntegerAtMost(k, x) <==> LessEqual(Ratio(k, 1), x)
  {
  }

  /** The test of the library: 1/3 + 1/6 == 1/2, and the sum is 9/18 as stored. */
  lemma OneThirdPlusOneSixth()
    ensures Sum(Ratio(1, 3), Ratio(1, 6)) == Ratio(9, 18)
    ensures Equal(Sum(Ratio(1, 3), Ratio(1, 6)), Ratio(1, 2))
    ensures Simplified(Sum(Ratio(1, 3), Ratio(1, 6))) == Ratio(1, 2)
  {
    assert Gcd(9, 18) == 9 by {
      assert Gcd(9, 18) == Gcd(18, 9) == Gcd(9, 0);
    }
  }

  // ~~ gcd and C++ integer division ~~

  /** std::gcd of the absolute values (0 when both are 0). */
  function Gcd(a: nat, b: nat): nat
    decreases b
  {
    if b == 0 then a else Gcd(b, a % b)
  }

  lemma {:induction false} GcdDivides(a: nat, b: nat)
    ensures Gcd(a, b) == 0 <==> a == 0 && b == 0
    ensures Gcd(a, b) > 0 ==> a % Gcd(a, b) == 0 && b % Gcd(a, b) == 0
    decreases b
  {
    if b != 0 {
      GcdDivides(b, a % b);
      var g := Gcd(b, a % b);
      if g > 0 {
        var t, q, s := a / b, b / g, (a % b) / g;
        assert b == q * g;
        assert a % b == s * g;
        assert a == t * b + a % b;
        Distribute(t, q, s, g);
        MultipleMod(a, t * q + s, g);
      }
    }
  }

  lemma Distribute(t: int, q: int, s: int, g: int)
    ensures t * (q * g) + s * g == (t * q + s) * g
  {
  }

  lemma MultipleMod(a: int, k: int, g: int)
    requires g > 0 && a == k * g
    ensures a % g == 0
  {
    var q, r := a / g, a % g;
    assert (k - q) * g == r;
    if k - q >= 1 {
      MultiplyAtLeast(k - q, g);
    } else if k - q <= -1 {
      MultiplyAtLeast(q - k, g);
    }
  }

  lemma MultiplyAtLeast(m: int, g: int)
    requires m >= 1 && g > 0
    ensures m * g >= g
  {
  }

  /** C++ `/` on integers, which truncates toward zero. */
  function Quot(a: int, b: int): int
    requires b != 0
  {
    var m := Abs(a) / Abs(b);
    if (a < 0) == (b < 0) then m else -m
  }

  function Abs(a: int): (m: nat)
    ensures m == a || m == -a
  {
    if a < 0 then -a else a
  }

  lemma ExactQuot(a: int, b: int)
    requires b > 0 && Abs(a) % b == 0
    ensures Quot(a, b) * b == a
  {
    var m := Abs(a) / b;
    assert m * b == Abs(a);
    if a < 0 {
      assert Quot(a, b) * b == -(m * b);
    }
  }

  // ~~ the operations, on the state ~~

  /** simplify(): both fields divided by their gcd. */
  function Simplified(r: Ratio): Ratio
    requires r.denominator != 0
  {
    var x := Gcd(Abs(r.numerator), Abs(r.denominator));
    GcdDivides(Abs(r.numerator), Abs(r.denominator));
    Ratio(Quot(r.numerator, x), Quot(r.denominator, x))
  }

  /** Simplifying keeps the value, and a positive denominator stays positive. */
  lemma SimplifiedSpec(r: Ratio)
    requires r.denominator != 0
    ensures Simplified(r).denominator != 0
    ensures Value(Simplified(r)) == Value(r)
    ensures Regular(r) ==> Regular(Simplified(r))
  {
    var x := Gcd(Abs(r.numerator), Abs(r.denominator));
    GcdDivides(Abs(r.numerator), Abs(r.denominator));
    ExactQuot(r.numerator, x);
    ExactQuot(r.denominator, x);
    var s := Simplified(r);
    assert s.numerator * x == r.numerator && s.denominator * x == r.denominator;
    ScaleValue(s.numerator, s.denominator, x);
  }

  /** subtract_from_one(): 1 - x over the same denominator. */
  function Complement(r: Ratio): Ratio {
    Ratio(r.denominator - r.numerator, r.denominator)
  }

  lemma ComplementSpec(r: Ratio)
    requires r.denominator != 0
    ensures Value(Complement(r)) == 1.0 - Value(r)
  {
    var d, n := r.denominator as real, r.numerator as real;
    assert Value(Complement(r)) == (d - n) / d;
    assert (d - n) / d == d / d - n / d;
    assert d / d == 1.0;
  }

  /** invert() of a non-zero fraction: the fields swapped, then regularized. */
  function Inverse(r: Ratio): Ratio {
    Regularized(Ratio(r.denominator, r.numerator))
  }

  lemma InverseSpec(r: Ratio)
    requires r.denominator != 0 && r.numerator != 0
    ensures Regular(Inverse(r))
    ensures Value(Inverse(r)) * Value(r) == 1.0
  {
    var n, d := r.numerator as real, r.denominator as real;
    assert Value(Ratio(r.denominator, r.numerator)) == d / n;
  }

  /** `+=` with a fraction: same denominators add the numerators; otherwise
   *  the cross sum over the product of denominators. */
  function Sum(x: Ratio, y: Ratio): Ratio {
    if x.denominator == y.denominator then Ratio(x.numerator + y.numerator, x.denominator)
    else Ratio(x.numerator * y.denominator + y.numerator * x.denominator, x.denominator * y.denominator)
  }

  /** `-=` with a fraction, by the same two cases. */
  function Difference(x: Ratio, y: Ratio): Ratio {
    if x.denominator == y.denominator then Ratio(x.numerator - y.numerator, x.denominator)
    else Ratio(x.numerator * y.denominator - y.numerator * x.denominator, x.denominator * y.denominator)
  }

  /** `*=` with a fraction. */
  function Product(x: Ratio, y: Ratio): Ratio {
    Ratio(x.numerator * y.numerator, x.denominator * y.denominator)
  }

  /** `/=` with a fraction whose numerator is not zero. */
  function Quotient(x: Ratio, y: Ratio): Ratio {
    Regularized(Ratio(x.numerator * y.denominator, x.denominator * y.numerator))
  }

  /** `+=`, `-=`, `*=` and `/=` with an integer. */
  function SumInteger(x: Ratio, k: int): Ratio {
    Ratio(x.numerator + k * x.denominator, x.denominator)
  }

  function DifferenceInteger(x: Ratio, k: int): Ratio {
    Ratio(x.numerator - k * x.denominator, x.denominator)
  }

  /** The free `k - x`: the numerator becomes k times the denominator minus
   *  the numerator. */
  function IntegerMinus(k: int, x: Ratio): Ratio {
    Ratio(k * x.denominator - x.numerator, x.denominator)
  }

  function ProductInteger(x: Ratio, k: int): Ratio {
    Ratio(x.numerator * k, x.denominator)
  }

  function QuotientInteger(x: Ratio, k: int): Ratio {
    Regularized(Ratio(x.numerator, x.denominator * k))
  }

  /** `+=` with a fraction, by either branch, adds the values and keeps the
   *  denominator positive. */
  lemma SumSpec(x: Ratio, y: Ratio)
    requires Regular(x) && Regular(y)
    ensures Regular(Sum(x, y))
    ensures Value(Sum(x, y)) == Value(x) + Value(y)
  {
    ProductPositive(x.denominator, y.denominator);
    var nx, dx, ny, dy := x.numerator as real, x.denominator as real, y.numerator as real, y.denominator as real;
    if x.denominator != y.denominator {
      var n := x.numerator * y.denominator + y.numerator * x.denominator;
      var d := x.denominator * y.denominator;
      assert Sum(x, y) == Ratio(n, d);
      CastProduct(x.numerator, y.denominator);
      CastProduct(y.numerator, x.denominator);
      CastProduct(x.denominator, y.denominator);
      assert n as real == nx * dy + ny * dx;
      assert d as real == dx * dy;
      RealCrossSum(nx, dx, ny, dy);
    } else {
      assert Sum(x, y) == Ratio(x.numerator + y.numerator, x.denominator);
      assert (x.numerator + y.numerator) as real == nx + ny;
      RealCommonSum(nx, ny, dx);
    }
  }

  /** `-=` with a fraction, by either branch, subtracts the values and keeps
   *  the denominator positive. */
  lemma DifferenceSpec(x: Ratio, y: Ratio)
    requires Regular(x) && Regular(y)
    ensures Regular(Difference(x, y))
    ensures Value(Difference(x, y)) == Value(x) - Value(y)
  {
    ProductPositive(x.denominator, y.denominator);
    var nx, dx, ny, dy := x.numerator as real, x.denominator as real, y.numerator as real, y.denominator as real;
    if x.denominator != y.denominator {
      var n := x.numerator * y.denominator - y.numerator * x.denominator;
      var d := x.denominator * y.denominator;
      assert Difference(x, y) == Ratio(n, d);
      CastProduct(x.numerator, y.denominator);
      CastProduct(y.numerator, x.denominator);
      CastProduct(x.denominator, y.denominator);
      assert n as real == nx * dy - ny * dx;
      assert d as real == dx * dy;
      RealCrossDifference(nx, dx, ny, dy);
    } else {
      assert Difference(x, y) == Ratio(x.numerator - y.numerator, x.denominator);
      assert (x.numerator - y.numerator) as real == nx - ny;
      RealCommonSum(nx, ny, dx);
    }
  }

  lemma CastProduct(a: int, b: int)
    ensures (a * b) as real == (a as real) * (b as real)
  {
  }

  lemma RealCrossSum(p: real, q: real, r: real, s: real)
    requires q != 0.0 && s != 0.0
    ensures (p * s + r * q) / (q * s) == p / q + r / s
  {
    var u, w := p / q, r / s;
    assert p == u * q && r == w * s;
    assert p * s + r * q == (u + w) * (q * s);
  }

  lemma RealCrossDifference(p: real, q: real, r: real, s: real)
    requires q != 0.0 && s != 0.0
    ensures (p * s - r * q) / (q * s) == p / q - r / s
  {
    var u, w := p / q, r / s;
    assert p == u * q && r == w * s;
    assert p * s - r * q == (u - w) * (q * s);
  }

  lemma RealCommonSum(p: real, r: real, q: real)
    requires q != 0.0
    ensures (p + r) / q == p / q + r / q
    ensures (p - r) / q == p / q - r / q
  {
    var u, w := p / q, r / q;
    assert p == u * q && r == w * q;
    assert p + r == (u + w) * q;
    assert p - r == (u - w) * q;
  }

  lemma RealProduct(p: real, q: real, r: real, s: real)
    requires q != 0.0 && s != 0.0
    ensures (p * r) / (q * s) == (p / q) * (r / s)
  {
    var u, w := p / q, r / s;
    assert p == u * q && r == w * s;
    assert p * r == (u * w) * (q * s);
  }

  lemma ProductSpec(x: Ratio, y: Ratio)
    requires Regular(x) && Regular(y)
    ensures Regular(Product(x, y))
    ensures Value(Product(x, y)) == Value(x) * Value(y)
  {
    ProductPositive(x.denominator, y.denominator);
    CastProduct(x.numerator, y.numerator);
    CastProduct(x.denominator, y.denominator);
    RealProduct(x.numerator as real, x.denominator as real, y.numerator as real, y.denominator as real);
  }

  lemma QuotientSpec(x: Ratio, y: Ratio)
    requires Regular(x) && Regular(y) && y.numerator != 0
    ensures Regular(Quotient(x, y))
    ensures Value(Quotient(x, y)) * Value(y) == Value(x)
  {
    var raw := Ratio(x.numerator * y.denominator, x.denominator * y.numerator);
    CastProduct(x.numerator, y.denominator);
    CastProduct(x.denominator, y.numerator);
    RealQuotient(x.numerator as real, x.denominator as real, y.numerator as real, y.denominator as real);
    assert Value(Quotient(x, y)) == Value(raw);
  }

  lemma RealQuotient(p: real, q: real, r: real, s: real)
    requires q != 0.0 && r != 0.0 && s != 0.0
    ensures ((p * s) / (q * r)) * (r / s) == p / q
  {
    var t := (p * s) / (q * r);
    assert t * (q * r) == p * s;
    var u := p / q;
    assert p == u * q;
    assert t * r * q == u * s * q;
    assert t * r == u * s;
  }

  lemma IntegerSpec(x: Ratio, k: int)
    requires Regular(x)
    ensures Regular(SumInteger(x, k)) && Regular(DifferenceInteger(x, k)) && Regular(ProductInteger(x, k))
    ensures Value(SumInteger(x, k)) == Value(x) + k as real
    ensures Value(DifferenceInteger(x, k)) == Value(x) - k as real
    ensures Value(ProductInteger(x, k)) == Value(x) * k as real
  {
    var n, d, kr := x.numerator as real, x.denominator as real, k as real;
    CastProduct(k, x.denominator);
    CastProduct(x.numerator, k);
    RealCommonSum(n, kr * d, d);
    RealProduct(n, d, kr, 1.0);
  }

  /** `k - x` keeps the denominator and gives k minus the value. */
  lemma IntegerMinusSpec(k: int, x: Ratio)
    requires Regular(x)
    ensures Regular(IntegerMinus(k, x))
    ensures Value(IntegerMinus(k, x)) == k as real - Value(x)
  {
    var n, d, kr := x.numerator as real, x.denominator as real, k as real;
    CastProduct(k, x.denominator);
    assert (k * x.denominator - x.numerator) as real == kr * d - n;
    RealCommonSum(kr * d, n, d);
    assert kr * d / d == kr;
  }

  lemma QuotientIntegerSpec(x: Ratio, k: int)
    requires Regular(x) && k != 0
    ensures Regular(QuotientInteger(x, k))
    ensures Value(QuotientInteger(x, k)) * k as real == Value(x)
  {
    CastProduct(x.denominator, k);
    RealQuotient(x.numerator as real, x.denominator as real, k as real, 1.0);
    assert Value(QuotientInteger(x, k)) == Value(Ratio(x.numerator, x.denominator * k));
  }

  /** The conversion to the integer type: C++ division, toward zero. */
  function ToInteger(r: Ratio): int
    requires r.denominator != 0
  {
    Quot(r.numerator, r.denominator)
  }

  /** The conversion drops the fractional part: q * d is the multiple of
   *  the denominator closest to the numerator on the side of zero. */
  lemma ToIntegerTruncates(r: Ratio)
    requires Regular(r)
    ensures var q, n, d := ToInteger(r), r.numerator, r.denominator;
      if n >= 0 then 0 <= q && q * d <= n < (q + 1) * d
      else q <= 0 && (q - 1) * d < n <= q * d
  {
    var n, d := r.numerator, r.denominator;
    var m := Abs(n) / d;
    BetweenMultiples(Abs(n), d);
    if n < 0 {
      assert ToInteger(r) == -m;
      NegatedProducts(m, d);
    } else {
      assert ToInteger(r) == m;
    }
  }

  lemma NegatedProducts(m: int, d: int)
    ensures (-m) * d == -(m * d) && (-m - 1) * d == -((m + 1) * d)
  {
  }

  lemma BetweenMultiples(a: nat, d: int)
    requires d > 0
    ensures (a / d) * d <= a < (a / d + 1) * d
  {
  }

  // ~~ the zero-denominator constructor ~~

  /** As written, the constructor reports a zero denominator but has already
   *  stored it: 0/0 is then `==` to every fraction, and `==` stops being
   *  transitive. */
  lemma ZeroDenominatorBreaksEquality()
    ensures Equal(Ratio(0, 0), Ratio(1, 1)) && Equal(Ratio(0, 0), Ratio(2, 1))
    ensures !Equal(Ratio(1, 1), Ratio(2, 1))
  {
  }

  /** Among fractions with non-zero denominators, `==` is transitive. */
  lemma EqualTransitive(x: Ratio, y: Ratio, z: Ratio)
    requires x.denominator != 0 && y.denominator != 0 && z.denominator != 0
    requires Equal(x, y) && Equal(y, z)
    ensures Equal(x, z)
  {
    EqualMeansSameValue(x, y);
    EqualMeansSameValue(y, z);
    EqualMeansSameValue(x, z);
  }

  // ~~ the fraction object ~~

  class Fraction {
    var numerator: int
    var denominator: int

    function State(): Ratio
      reads this
    {
      Ratio(numerator, denominator)
    }

    /** The default fraction: 0/1. */
    constructor ()
      ensures State() == Ratio(0, 1) && Regular(State())
    {
      numerator := 0;
      denominator := 1;
    }

    /** The implicit conversion from an integer: value/1. */
    constructor FromInteger(value: int)
      ensures State() == Ratio(value, 1) && Value(State()) == value as real
    {
      numerator := value;
      denominator := 1;
    }

    /** The member-initializer part of the two-argument constructor. */
    constructor Initialized(n: int, d: int)
      ensures State() == Ratio(n, d)
    {
      numerator := n;
      denominator := d;
    }

    /** fraction(numerator, denominator, ec) as written: a zero denominator
     *  sets the error but stays stored. */
    static method FromRatioAsWritten(n: int, d: int) returns (f: Fraction, r: Result<()>)
      ensures fresh(f)
      ensures r.Err? <==> d == 0
      ensures r.Err? ==> r.failure == InvalidArgument && f.State() == Ratio(n, 0)
      ensures r.Ok? ==> f.State() == Regularized(Ratio(n, d)) && Value(f.State()) == n as real / d as real
    {
      f := new Fraction.Initialized(n, d);
      if d == 0 {
        return f, Err(InvalidArgument);
      }
      f.Regularize();
      r := Ok(());
    }

    /** The two-argument constructor with the stored denominator checked
     *  first: on a zero denominator the fraction keeps its default 0/1, so
     *  the denominator stays positive on every path. */
    static method FromRatio(n: int, d: int) returns (f: Fraction, r: Result<()>)
      ensures fresh(f) && Regular(f.State())
      ensures r.Err? <==> d == 0
      ensures r.Err? ==> r.failure == InvalidArgument && f.State() == Ratio(0, 1)
      ensures r.Ok? ==> f.State() == Regularized(Ratio(n, d)) && Value(f.State()) == n as real / d as real
    {
      if d == 0 {
        f := new Fraction();
        return f, Err(InvalidArgument);
      }
      f := new Fraction.Initialized(n, d);
      f.Regularize();
      r := Ok(());
    }

    method Regularize()
      modifies this
      ensures State() == Regularized(old(State()))
    {
      if denominator < 0 {
        numerator := -numerator;
        denominator := -denominator;
      }
    }

    /** negate() and unary `-`: the sign of the value flips. */
    method Negate()
      modifies this
      ensures State() == Ratio(-old(numerator), old(denominator))
      ensures old(denominator) != 0 ==> Value(State()) == -Value(old(State()))
    {
      numerator := -numerator;
    }

    method Simplify()
      requires denominator != 0
      modifies this
      ensures State() == Simplified(old(State()))
    {
      var x := Gcd(Abs(numerator), Abs(denominator));
      GcdDivides(Abs(numerator), Abs(denominator));
      numerator := Quot(numerator, x);
      denominator := Quot(denominator, x);
    }

    method SubtractFromOne()
      modifies this
      ensures State() == Complement(old(State()))
    {
      numerator := denominator - numerator;
    }

    /** invert(ec): a zero fraction reports function_not_supported and stays. */
    method Invert() returns (r: Result<()>)
      modifies this
      ensures r.Err? <==> old(numerator) == 0
      ensures r.Err? ==> r.failure == FunctionNotSupported && State() == old(State())
      ensures r.Ok? ==> State() == Inverse(old(State()))
    {
      if numerator == 0 {
        return Err(FunctionNotSupported);
      }
      numerator, denominator := denominator, numerator;
      Regularize();
      r := Ok(());
    }

    method SetNumerator(value: int)
      modifies this
      ensures State() == Ratio(value, old(denominator))
    {
      numerator := value;
    }

    /** set_denominator(value, ec): zero reports function_not_supported. */
    method SetDenominator(value: int) returns (r: Result<()>)
      modifies this
      ensures r.Err? <==> value == 0
      ensures r.Err? ==> r.failure == FunctionNotSupported && State() == old(State())
      ensures r.Ok? ==> State() == Regularized(Ratio(old(numerator), value)) && Regular(State())
    {
      if value == 0 {
        return Err(FunctionNotSupported);
      }
      denominator := value;
      Regularize();
      r := Ok(());
    }

    method AddInteger(k: int)
      modifies this
      ensures State() == SumInteger(old(State()), k)
    {
      numerator := numerator + k * denominator;
    }

    /** `+=`: also right when `other` is this fraction itself. */
    method Add(other: Fraction)
      modifies this
      ensures State() == Sum(old(State()), old(other.State()))
    {
      if denominator == other.denominator {
        numerator := numerator + other.numerator;
      } else {
        numerator := numerator * other.denominator + other.numerator * denominator;
        denominator := denominator * other.denominator;
      }
    }

    method SubtractInteger(k: int)
      modifies this
      ensures State() == DifferenceInteger(old(State()), k)
    {
      numerator := numerator - k * denominator;
    }

    method Subtract(other: Fraction)
      modifies this
      ensures State() == Difference(old(State()), old(other.State()))
    {
      if denominator == other.denominator {
        numerator := numerator - other.numerator;
      } else {
        numerator := numerator * other.denominator - other.numerator * denominator;
        denominator := denominator * other.denominator;
      }
    }

    method MultiplyInteger(k: int)
      modifies this
      ensures State() == ProductInteger(old(State()), k)
    {
      numerator := numerator * k;
    }

    /** `*=`: also right when `other` is this fraction itself. */
    method Multiply(other: Fraction)
      modifies this
      ensures State() == Product(old(State()), old(other.State()))
    {
      numerator := numerator * other.numerator;
      denominator := denominator * other.denominator;
    }

    /** `/=` with an integer: zero throws std::logic_error. */
    method DivideInteger(k: int) returns (r: Result<()>)
      modifies this
      ensures r.Err? <==> k == 0
      ensures r.Err? ==> r.failure == LogicError && State() == old(State())
      ensures r.Ok? ==> State() == QuotientInteger(old(State()), k)
    {
      if k == 0 {
        return Err(LogicError);
      }
      denominator := denominator * k;
      Regularize();
      r := Ok(());
    }

    /** `/=` with a fraction as written: the numerator is updated before the
     *  other's numerator is read, so `x /= x` divides by the new numerator. */
    method DivideAsWritten(other: Fraction) returns (r: Result<()>)
      modifies this
      ensures r.Err? <==> old(other.numerator) == 0
      ensures r.Err? ==> r.failure == LogicError && State() == old(State())
      ensures r.Ok? && other != this ==> State() == Quotient(old(State()), old(other.State()))
      ensures r.Ok? && other == this ==>
        State() == Regularized(Ratio(old(numerator) * old(denominator), old(denominator) * (old(numerator) * old(denominator))))
    {
      if other.numerator == 0 {
        return Err(LogicError);
      }
      numerator := numerator * other.denominator;
      denominator := denominator * other.numerator;
      Regularize();
      r := Ok(());
    }

    /** `/=` with a fraction, reading the divisor before writing: a zero
     *  divisor throws std::logic_error; otherwise the quotient, even for
     *  `x /= x`. */
    method Divide(other: Fraction) returns (r: Result<()>)
      modifies this
      ensures r.Err? <==> old(other.numerator) == 0
      ensures r.Err? ==> r.failure == LogicError && State() == old(State())
      ensures r.Ok? ==> State() == Quotient(old(State()), old(other.State()))
    {
      var n, d := other.numerator, other.denominator;
      if n == 0 {
        return Err(LogicError);
      }
      numerator := numerator * d;
      denominator := denominator * n;
      Regularize();
      r := Ok(());
    }
  }

  /** `x /= x` as written gives 1/3 for x = 2/3, where the quotient is 1. */
  lemma SelfDivisionAsWritten()
    ensures var x := Ratio(2, 3);
      && Regularized(Ratio(x.numerator * x.denominator, x.denominator * (x.numerator * x.denominator))) == Ratio(6, 18)
      && Value(Ratio(6, 18)) == 1.0 / 3.0
      && Value(Quotient(x, x)) == 1.0
  {
    QuotientSpec(Ratio(2, 3), Ratio(2, 3));
  }
}
