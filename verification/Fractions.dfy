/** Python's Fraction: always in lowest terms, and exact. */
module Fractions {
  import opened Stream
  import opened Vectors
  import opened Scaling
  import opened Ticks

  /** Fraction(n, d) */
  function Reduced(n: int, d: nat): (f: Fraction)
    requires d > 0
    ensures f.Valid()
  {
    var g := Gcd(Abs(n), d);
    ReducedIsLowest(n, d);
    Fraction(n / g, d / g)
  }

  lemma Negated(g: int, u: int)
    ensures Product(g, -u) == -Product(g, u)
  {
  }

  /** n and d without their greatest common divisor. */
  lemma Quotients(n: int, d: nat) returns (u: int, v: nat, x: int, y: int)
    requires d > 0
    ensures var g := Gcd(Abs(n), d); n / g == u && d / g == v && n == Product(g, u) && d == Product(g, v)
    ensures v > 0 && Product(x, u) + Product(y, v) == 1
  {
    var g := Gcd(Abs(n), d);
    var u0, v0, x0, y0 := Bezout(Abs(n), d);
    PositiveFactor(g, v0);
    v, y := v0, y0;
    u, x := if n < 0 then -u0 else u0, if n < 0 then -x0 else x0;
    Negated(g, u0);
    QuotientOf(g, u);
    QuotientOf(g, v);
    assert Product(x, u) == Product(x0, u0) by { NegatedTwice(x0, u0); }
  }

  lemma NegatedTwice(x: int, u: int)
    ensures Product(-x, -u) == Product(x, u)
  {
  }

  /** Numbers of which a combination is 1 have no common divisor. */
  lemma CombinationIsOne(u: int, v: nat, x: int, y: int)
    requires v > 0 && Product(x, u) + Product(y, v) == 1
    ensures Gcd(Abs(u), v) == 1
  {
    var g := Gcd(Abs(u), v);
    var a, b, p, q := Bezout(Abs(u), v);
    var c := if u < 0 then -a else a;
    Negated(g, a);
    Commute(x, u);
    Commute(y, v);
    Assoc(g, c, x);
    Assoc(g, b, y);
    assert Product(g, Product(c, x)) + Product(g, Product(b, y)) == 1;
    DividesOne(g, Product(c, x), Product(b, y));
  }

  lemma DividesOne(g: nat, a: int, b: int)
    requires g > 0 && Product(g, a) + Product(g, b) == 1
    ensures g == 1
  {
    assert Product(g, a + b) == 1;
    PositiveFactor(g, a + b);
    PositiveProduct(g, a + b);
  }

  lemma ReducedIsLowest(n: int, d: nat)
    requires d > 0
    ensures d / Gcd(Abs(n), d) > 0
    ensures Gcd(Abs(n / Gcd(Abs(n), d)), d / Gcd(Abs(n), d)) == 1
  {
    var u, v, x, y := Quotients(n, d);
    CombinationIsOne(u, v, x, y);
  }

  lemma QuotientIs(n: int, d: nat, x: real)
    requires d > 0 && n as real == Times(x, d as real)
    ensures n as real / d as real == x
  {
    Divides(x, d as real);
  }

  lemma RealIs(f: Fraction)
    requires f.Valid()
    ensures f.numerator as real == Times(f.Real(), f.denominator as real)
  {
  }

  lemma InReals(x: int, y: int)
    ensures Product(x, y) as real == Times(x as real, y as real)
  {
    assert (x * y) as real == x as real * y as real;
  }

  /** Equal fractions have equal terms. */
  lemma SameFraction(a: Fraction, b: Fraction)
    requires a.Valid() && b.Valid() && a.Real() == b.Real()
    ensures a == b
  {
    var x := a.Real();
    RealIs(a);
    RealIs(b);
    InReals(a.numerator, b.denominator);
    InReals(b.numerator, a.denominator);
    assert Times(Times(x, a.denominator as real), b.denominator as real) ==
           Times(Times(x, b.denominator as real), a.denominator as real) by {
      Regroup(x, a.denominator as real, b.denominator as real);
      Regroup(x, b.denominator as real, a.denominator as real);
    }
    Crosswise(a.numerator, a.denominator, b.numerator, b.denominator);
    Crosswise(b.numerator, b.denominator, a.numerator, a.denominator);
    MultipleIsNoLess(b.denominator, a.denominator);
    MultipleIsNoLess(a.denominator, b.denominator);
    SameNumerator(a.numerator, b.numerator, a.denominator);
  }

  lemma SameNumerator(m: int, n: int, d: nat)
    requires d > 0 && Product(m, d) == Product(n, d)
    ensures m == n
  {
    Commute(m, d);
    Commute(n, d);
    QuotientOf(d, m);
    QuotientOf(d, n);
  }

  /** n / d == m / e in lowest terms: d divides e. */
  lemma Crosswise(n: int, d: nat, m: int, e: nat)
    requires d > 0 && Gcd(Abs(n), d) == 1 && Product(n, e) == Product(m, d)
    ensures MultipleOf(e, d)
  {
    var u, v, x, y := Quotients(n, d);
    assert u == n && v == d;
    Scaled(x, n, y, d, e);
    Assoc(x, n, e);
    Assoc(x, m, d);
    Assoc(y, d, e);
    Commute(Product(x, m), d);
    Commute(d, e);
    Assoc(y, e, d);
    Commute(Product(y, e), d);
    assert e == Product(d, Product(x, m)) + Product(d, Product(y, e));
    assert e == Product(d, Product(x, m) + Product(y, e)) by { Distributes(d, Product(x, m), Product(y, e)); }
  }

  lemma Distributes(d: int, a: int, b: int)
    ensures Product(d, a + b) == Product(d, a) + Product(d, b)
  {
  }

  lemma Scaled(x: int, n: int, y: int, d: int, e: int)
    requires Product(x, n) + Product(y, d) == 1
    ensures Product(Product(x, n), e) + Product(Product(y, d), e) == e
  {
    assert (Product(x, n) + Product(y, d)) * e == e;
  }

  /** Reducing keeps the value. */
  lemma ReducedIs(n: int, d: nat)
    requires d > 0
    ensures Reduced(n, d).Real() == n as real / d as real
  {
    var u, v, x, y := Quotients(n, d);
    var g, f := Gcd(Abs(n), d), Reduced(n, d).Real();
    RealIs(Reduced(n, d));
    InReals(g, u);
    InReals(g, v);
    Shuffle(f, g as real, v as real);
    QuotientIs(n, d, f);
  }

  lemma Shuffle(x: real, y: real, z: real)
    ensures Times(y, Times(x, z)) == Times(x, Times(y, z))
  {
    assert y * (x * z) == x * (y * z);
  }

  lemma DivisorOfMultiple(k: int, d: nat)
    requires d > 0
    ensures Gcd(Abs(Product(k, d)), d) == d
  {
    var m := Abs(k);
    Commute(k, d);
    Negated(d, k);
    assert Abs(Product(k, d)) == Product(d, m);
    QuotientOf(d, m);
    assert Gcd(Product(d, m), d) == Gcd(d, Product(d, m) % d);
  }

  lemma WholeMultiple(n: int, d: nat, k: int)
    requires d > 0 && n == Product(k, d)
    ensures Reduced(n, d).denominator == 1
  {
    DivisorOfMultiple(k, d);
  }

  lemma WholeNumerator(n: int, d: nat, k: int)
    requires d > 0 && n as real == Times(k as real, d as real)
    ensures n == Product(k, d)
  {
    InReals(k, d);
  }

  /** A fraction has denominator 1 exactly when its value is a whole number. */
  lemma WholeIff(n: int, d: nat)
    requires d > 0
    ensures Reduced(n, d).denominator == 1 <==> (n as real / d as real).Floor as real == n as real / d as real
  {
    var x := n as real / d as real;
    ReducedIs(n, d);
    if x.Floor as real == x {
      assert n as real == Times(x, d as real);
      WholeNumerator(n, d, x.Floor);
      WholeMultiple(n, d, x.Floor);
    } else if Reduced(n, d).denominator == 1 {
      RealIs(Reduced(n, d));
    }
  }

  // ------------------------------------------------------------- arithmetic

  function Plus(a: Fraction, b: Fraction): (f: Fraction)
    requires a.Valid() && b.Valid()
    ensures f.Valid()
  {
    assert a.denominator * b.denominator > 0;
    Reduced(a.numerator * b.denominator + b.numerator * a.denominator, a.denominator * b.denominator)
  }

  function Minus(a: Fraction, b: Fraction): (f: Fraction)
    requires a.Valid() && b.Valid()
    ensures f.Valid()
  {
    Plus(a, Fraction(-b.numerator, b.denominator))
  }

  function Quotient(a: Fraction, b: Fraction): (f: Fraction)
    requires a.Valid() && b.Valid() && b.numerator > 0
    ensures f.Valid()
  {
    assert a.denominator * b.numerator > 0;
    Reduced(a.numerator * b.denominator, a.denominator * b.numerator)
  }

  function Multiple(k: int, a: Fraction): (f: Fraction)
    requires a.Valid()
    ensures f.Valid()
  {
    Reduced(k * a.numerator, a.denominator)
  }

  predicate Before(a: Fraction, b: Fraction) { a.numerator * b.denominator < b.numerator * a.denominator }

  /** -(-a // 1) */
  function CeilOf(a: Fraction): int
    requires a.Valid()
  {
    -((-a.numerator) / a.denominator)
  }

  lemma PlusIs(a: Fraction, b: Fraction)
    requires a.Valid() && b.Valid()
    ensures Plus(a, b).Real() == a.Real() + b.Real()
  {
    var x, y, ad, bd := a.Real(), b.Real(), a.denominator as real, b.denominator as real;
    var n, d := a.numerator * b.denominator + b.numerator * a.denominator, a.denominator * b.denominator;
    assert d > 0;
    assert n as real == a.numerator as real * bd + b.numerator as real * ad;
    RealIs(a);
    RealIs(b);
    assert (x * ad) * bd + (y * bd) * ad == (x + y) * (ad * bd);
    assert d as real == ad * bd;
    QuotientIs(n, d, x + y);
    ReducedIs(n, d);
  }

  lemma MinusIs(a: Fraction, b: Fraction)
    requires a.Valid() && b.Valid()
    ensures Minus(a, b).Real() == a.Real() - b.Real()
  {
    var minus := Fraction(-b.numerator, b.denominator);
    RealIs(b);
    assert Times(-b.Real(), b.denominator as real) == -Times(b.Real(), b.denominator as real);
    QuotientIs(-b.numerator, b.denominator, -b.Real());
    PlusIs(a, minus);
  }

  lemma QuotientOfIs(a: Fraction, b: Fraction)
    requires a.Valid() && b.Valid() && b.numerator > 0
    ensures b.Real() > 0.0 && Quotient(a, b).Real() == a.Real() / b.Real()
  {
    var n, d := a.numerator * b.denominator, a.denominator * b.numerator;
    assert d > 0;
    RealIs(a);
    RealIs(b);
    Signed(b);
    var x, y := a.Real(), b.Real();
    var q := x / y;
    assert n as real == a.numerator as real * b.denominator as real;
    assert d as real == a.denominator as real * b.numerator as real;
    assert x == q * y;
    assert ((q * y) * a.denominator as real) * b.denominator as real ==
           q * (a.denominator as real * (y * b.denominator as real));
    QuotientIs(n, d, q);
    ReducedIs(n, d);
  }

  lemma Signed(b: Fraction)
    requires b.Valid()
    ensures b.numerator > 0 <==> b.Real() > 0.0
  {
    RealIs(b);
    TimesPositive(b.Real(), b.denominator as real);
  }

  lemma MultipleIs(k: int, a: Fraction)
    requires a.Valid()
    ensures Multiple(k, a).Real() == k as real * a.Real()
  {
    RealIs(a);
    assert (k * a.numerator) as real == k as real * a.numerator as real;
    assert k as real * (a.Real() * a.denominator as real) == (k as real * a.Real()) * a.denominator as real;
    QuotientIs(k * a.numerator, a.denominator, k as real * a.Real());
    ReducedIs(k * a.numerator, a.denominator);
  }

  lemma BeforeIs(a: Fraction, b: Fraction)
    requires a.Valid() && b.Valid()
    ensures Before(a, b) <==> a.Real() < b.Real()
  {
    RealIs(a);
    RealIs(b);
    CrossOrder(a.numerator, a.denominator, b.numerator, b.denominator, a.Real(), b.Real());
  }

  /** m / d < n / e, multiplied by both denominators. */
  lemma CrossOrder(m: int, d: nat, n: int, e: nat, x: real, y: real)
    requires d > 0 && e > 0 && m as real == Times(x, d as real) && n as real == Times(y, e as real)
    ensures m * e < n * d <==> x < y
  {
    InReals(m, e);
    InReals(n, d);
    InReals(d, e);
    Regroup(x, d as real, e as real);
    Regroup(y, e as real, d as real);
    TimesCommute(d as real, e as real);
    TimesPositive(d as real, e as real);
    TimesOrder(x, y, Times(d as real, e as real));
  }

  lemma TimesCommute(x: real, y: real)
    ensures Times(x, y) == Times(y, x)
  {
  }

  lemma CeilIs(a: Fraction)
    requires a.Valid()
    ensures CeilOf(a) == Ceil(a.Real())
  {
    var n, d := -a.numerator, a.denominator;
    var q, r := n / d, n % d;
    RealIs(a);
    assert n == d * q + r;
    assert n as real == d as real * q as real + r as real;
    var x := -a.Real();
    assert Times(x, d as real) == n as real;
    assert d as real * (x - q as real) == r as real;
    Between(x - q as real, d, r);
    assert x.Floor == q;
  }

  lemma Between(x: real, d: nat, r: nat)
    requires d > 0 && r < d && d as real * x == r as real
    ensures 0.0 <= x < 1.0
  {
    TimesOrder(x, 0.0, d as real);
    TimesOrder(x, 1.0, d as real);
  }
}
