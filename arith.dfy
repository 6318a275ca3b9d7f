/**
 * Integer arithmetic behind the fraction, LCM and HCF questions: Euclid's
 * gcd (Python's math.gcd on non-negative arguments), its Bezout
 * coefficients, and the least common multiple a*b // gcd(a, b).
 */
module Arith {

  /** d is a positive divisor of n. */
  predicate Divides(d: int, n: int) {
    d > 0 && n % d == 0
  }

  /** Multiplying by a positive factor is exactly undone by division. */
  lemma MultipleOf(d: int, k: int)
    requires d > 0
    ensures (d * k) % d == 0 && (d * k) / d == k
  {
    var n := d * k;
    var q, r := n / d, n % d;
    assert d * (k - q) == r;
    Unit(d, k - q, r);
  }

  /** A multiple d*t of a positive d that lies in [0, d) is zero. */
  lemma Unit(d: int, t: int, r: int)
    requires d > 0 && d * t == r && 0 <= r < d
    ensures t == 0
  {
  }

  /** A positive factor can be cancelled from both sides of an equation. */
  lemma Cancel(g: int, u: int, v: int)
    requires g > 0 && g * u == g * v
    ensures u == v
  {
    MultipleOf(g, u);
    MultipleOf(g, v);
  }

  /** A divisor of n lets n be written as that divisor times n / d. */
  lemma DividesSplit(d: int, n: int)
    requires Divides(d, n)
    ensures n == d * (n / d)
  {
  }

  /** A common divisor of x and y divides every integer combination of them. */
  lemma DividesCombination(d: int, x: int, y: int, p: int, q: int)
    requires Divides(d, x) && Divides(d, y)
    ensures Divides(d, p * x + q * y)
  {
    var kx, ky := x / d, y / d;
    DividesSplit(d, x);
    DividesSplit(d, y);
    assert p * x + q * y == d * (p * kx + q * ky);
    MultipleOf(d, p * kx + q * ky);
  }

  /** Euclid's algorithm. */
  function Gcd(a: nat, b: nat): nat
    decreases b
  {
    if b == 0 then a else Gcd(b, a % b)
  }

  /** Coefficients (x, y) with x*a + y*b == Gcd(a, b), from the extended algorithm. */
  function Bezout(a: nat, b: nat): (xy: (int, int))
    ensures xy.0 * a + xy.1 * b == Gcd(a, b)
    decreases b
  {
    if b == 0 then (1, 0)
    else
      var (x, y) := Bezout(b, a % b);
      assert a % b == a - (a / b) * b;
      assert x * b + y * (a % b) == y * a + (x - (a / b) * y) * b;
      (y, x - (a / b) * y)
  }

  /** The gcd of two numbers, not both zero, is a positive common divisor. */
  lemma {:induction false} GcdDivides(a: nat, b: nat)
    requires a > 0 || b > 0
    ensures Gcd(a, b) > 0 && Divides(Gcd(a, b), a) && Divides(Gcd(a, b), b)
    decreases b
  {
    if b == 0 {
      MultipleOf(a, 1);
      MultipleOf(a, 0);
    } else {
      GcdDivides(b, a % b);
      var g := Gcd(a, b);
      assert a == (a / b) * b + 1 * (a % b);
      DividesCombination(g, b, a % b, a / b, 1);
    }
  }

  /** Every common divisor of a and b divides their gcd: it is the greatest one. */
  lemma GcdGreatest(a: nat, b: nat, d: int)
    requires Divides(d, a) && Divides(d, b)
    ensures Divides(d, Gcd(a, b))
  {
    var (x, y) := Bezout(a, b);
    DividesCombination(d, a, b, x, y);
  }

  /** Dividing both numbers by their gcd leaves numbers with no common factor. */
  lemma CoprimeQuotients(a: nat, b: nat)
    requires a > 0 && b > 0
    ensures Gcd(a, b) > 0 && Gcd(a / Gcd(a, b), b / Gcd(a, b)) == 1
  {
    var g := Gcd(a, b);
    GcdDivides(a, b);
    var a', b' := a / g, b / g;
    DividesSplit(g, a);
    DividesSplit(g, b);
    var (x, y) := Bezout(a, b);
    var c := x * a' + y * b';
    assert g * c == x * (g * a') + y * (g * b') by { Regroup(g, x, a', y, b'); }
    Cancel(g, c, 1);
    var h := Gcd(a', b');
    assert a' > 0;
    GcdDivides(a', b');
    DividesCombination(h, a', b', x, y);
  }

  /** g*(x*p + y*q) == x*(g*p) + y*(g*q). */
  lemma Regroup(g: int, x: int, p: int, y: int, q: int)
    ensures g * (x * p + y * q) == x * (g * p) + y * (g * q)
  {
  }

  /** Least common multiple, as a*b // gcd(a, b). */
  function Lcm(a: nat, b: nat): (l: nat)
    requires a > 0 && b > 0
    ensures l > 0 && Divides(a, l) && Divides(b, l)
  {
    GcdDivides(a, b);
    var g := Gcd(a, b);
    DividesSplit(g, b);
    DividesSplit(g, a);
    assert a * b == g * (a * (b / g));
    MultipleOf(g, a * (b / g));
    assert a * b / g == a * (b / g) == (a / g) * b;
    assert b / g > 0;
    MultipleOf(a, b / g);
    MultipleOf(b, a / g);
    a * b / g
  }

  /** The lcm divides every positive common multiple, so it is the least one. */
  lemma LcmLeast(a: nat, b: nat, m: int)
    requires a > 0 && b > 0 && m > 0
    requires Divides(a, m) && Divides(b, m)
    ensures Divides(Lcm(a, b), m) && Lcm(a, b) <= m
  {
    var l := Lcm(a, b);
    var g := Gcd(a, b);
    GcdDivides(a, b);
    var (x, y) := Bezout(a, b);
    var s, t := m / a, m / b;
    DividesSplit(a, m);
    DividesSplit(b, m);
    LcmTimesGcd(a, b);
    var k := x * t + y * s;
    CommonMultipleFactor(a, b, g, l, m, x, y, s, t);
    Cancel(g, m, l * k);
    MultipleOf(l, k);
    PositiveCofactor(l, k, m);
  }

  /** gcd(a, b) * lcm(a, b) == a * b. */
  lemma LcmTimesGcd(a: nat, b: nat)
    requires a > 0 && b > 0
    ensures Gcd(a, b) * Lcm(a, b) == a * b
  {
    var g := Gcd(a, b);
    GcdDivides(a, b);
    DividesSplit(g, b);
    assert a * b == g * (a * (b / g)) by { Swap(a, g, b / g); }
    MultipleOf(g, a * (b / g));
  }

  /** A positive multiple m == l*k of a positive l is at least l. */
  lemma PositiveCofactor(l: int, k: int, m: int)
    requires l > 0 && m > 0 && m == l * k
    ensures m >= l
  {
    assert k >= 1;
    assert l * k >= l * 1;
  }

  /** The product step of LcmLeast: g*m == g*(l*(x*t + y*s)). */
  lemma CommonMultipleFactor(a: int, b: int, g: int, l: int, m: int, x: int, y: int, s: int, t: int)
    requires x * a + y * b == g && a * b == g * l
    requires m == a * s && m == b * t
    ensures g * m == g * (l * (x * t + y * s))
  {
    var k := x * t + y * s;
    assert g * m == x * (a * m) + y * (b * m) by { Distribute(x * a, y * b, m); Swap(x, a, m); Swap(y, b, m); }
    assert a * m == (a * b) * t && b * m == (a * b) * s by { Swap(a, b, t); Swap(b, a, s); }
    assert g * m == (a * b) * k by { Collect(a * b, x, t, y, s); }
    assert (a * b) * k == g * (l * k) by { Swap(g, l, k); }
  }

  lemma Distribute(p: int, q: int, r: int)
    ensures (p + q) * r == p * r + q * r
  {
  }

  /** (p*q)*r == p*(q*r). */
  lemma Swap(p: int, q: int, r: int)
    ensures (p * q) * r == p * (q * r)
  {
  }

  /** x*(c*t) + y*(c*s) == c*(x*t + y*s). */
  lemma Collect(c: int, x: int, t: int, y: int, s: int)
    ensures x * (c * t) + y * (c * s) == c * (x * t + y * s)
  {
  }
}
