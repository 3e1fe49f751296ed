/** Exact complex amplitudes: pairs of reals with the ring operations the simulator uses. */
module Amplitudes {

  datatype Complex = Complex(re: real, im: real)

  const ZERO := Complex(0.0, 0.0)
  const ONE := Complex(1.0, 0.0)
  const IMAG := Complex(0.0, 1.0)
  const MINUS_ONE := Complex(-1.0, 0.0)
  const MINUS_IMAG := Complex(0.0, -1.0)

  function Plus(a: Complex, b: Complex): Complex {
    Complex(a.re + b.re, a.im + b.im)
  }

  function Times(a: Complex, b: Complex): Complex {
    Complex(a.re * b.re - a.im * b.im, a.re * b.im + a.im * b.re)
  }

  function Neg(a: Complex): Complex {
    Complex(-a.re, -a.im)
  }

  function Minus(a: Complex, b: Complex): Complex {
    Complex(a.re - b.re, a.im - b.im)
  }

  function Real(x: real): Complex {
    Complex(x, 0.0)
  }

  /** `std::norm`: the squared modulus. */
  function Norm(a: Complex): real {
    a.re * a.re + a.im * a.im
  }

  lemma TimesAssoc(a: Complex, b: Complex, c: Complex)
    ensures Times(a, Times(b, c)) == Times(Times(a, b), c)
  {
  }

  lemma TimesComm(a: Complex, b: Complex)
    ensures Times(a, b) == Times(b, a)
  {
  }

  lemma TimesPlus(a: Complex, b: Complex, c: Complex)
    ensures Times(a, Plus(b, c)) == Plus(Times(a, b), Times(a, c))
    ensures Times(Plus(b, c), a) == Plus(Times(b, a), Times(c, a))
  {
  }

  /** Two sums over independent indices may be taken in either order. */
  lemma Exchange(u0: Complex, u1: Complex, v0: Complex, v1: Complex,
                 a: Complex, b: Complex, c: Complex, d: Complex)
    ensures Plus(Times(u0, Plus(Times(v0, a), Times(v1, b))), Times(u1, Plus(Times(v0, c), Times(v1, d))))
         == Plus(Times(v0, Plus(Times(u0, a), Times(u1, c))), Times(v1, Plus(Times(u0, b), Times(u1, d))))
  {
    hide Times;
    TimesPlus(u0, Times(v0, a), Times(v1, b));
    TimesPlus(u1, Times(v0, c), Times(v1, d));
    TimesPlus(v0, Times(u0, a), Times(u1, c));
    TimesPlus(v1, Times(u0, b), Times(u1, d));
    Rotate(u0, v0, a);
    Rotate(u0, v1, b);
    Rotate(u1, v0, c);
    Rotate(u1, v1, d);
  }

  lemma Rotate(u: Complex, v: Complex, a: Complex)
    ensures Times(u, Times(v, a)) == Times(v, Times(u, a))
  {
    hide Times;
    TimesAssoc(u, v, a);
    TimesComm(u, v);
    TimesAssoc(v, u, a);
  }

  /** The modulus of a product is the product of the moduli. */
  lemma NormTimes(a: Complex, b: Complex)
    ensures Norm(Times(a, b)) == Norm(a) * Norm(b)
  {
    var x, y, v, w := a.re * b.re, a.im * b.im, a.re * b.im, a.im * b.re;
    SquareMinus(x, y);
    SquarePlus(v, w);
    CrossProduct(a.re, a.im, b.re, b.im);
    ProductSquare(a.re, b.re);
    ProductSquare(a.im, b.im);
    ProductSquare(a.re, b.im);
    ProductSquare(a.im, b.re);
    SumTimesSum(a.re * a.re, a.im * a.im, b.re * b.re, b.im * b.im);
  }

  lemma SquareMinus(x: real, y: real)
    ensures (x - y) * (x - y) == x * x - 2.0 * (x * y) + y * y
  {
  }

  lemma SquarePlus(x: real, y: real)
    ensures (x + y) * (x + y) == x * x + 2.0 * (x * y) + y * y
  {
  }

  lemma CrossProduct(a: real, b: real, c: real, d: real)
    ensures (a * c) * (b * d) == (a * d) * (b * c)
  {
  }

  lemma ProductSquare(a: real, c: real)
    ensures (a * c) * (a * c) == (a * a) * (c * c)
  {
  }

  lemma SumTimesSum(p: real, q: real, r: real, s: real)
    ensures (p + q) * (r + s) == p * r + p * s + q * r + q * s
  {
  }

  lemma SquarePositive(x: real, p: real)
    requires p == x * x
    ensures p >= 0.0 && (p == 0.0 <==> x == 0.0)
  {
    if x == 0.0 {
      assert p == 0.0;
    } else if x > 0.0 {
      PositiveProduct(x, x, p);
    } else {
      NegatedSquare(x, -x, p);
      PositiveProduct(-x, -x, p);
    }
  }

  lemma NegatedSquare(x: real, y: real, p: real)
    requires y == -x && p == x * x
    ensures p == y * y
  {
  }

  lemma PositiveProduct(x: real, y: real, p: real)
    requires x > 0.0 && y > 0.0 && p == x * y
    ensures p > 0.0
  {
  }

  lemma ProductZero(x: real, y: real)
    ensures x * y == 0.0 <==> x == 0.0 || y == 0.0
  {
    if x * y == 0.0 && x != 0.0 {
      assert y == (x * y) / x;
    }
  }

  lemma NormPositive(a: Complex)
    ensures Norm(a) >= 0.0
    ensures Norm(a) == 0.0 <==> a == ZERO
  {
    var p, q := a.re * a.re, a.im * a.im;
    SquarePositive(a.re, p);
    SquarePositive(a.im, q);
  }

  /** The complex numbers have no zero divisors. */
  lemma TimesZero(a: Complex, b: Complex)
    ensures Times(a, b) == ZERO <==> a == ZERO || b == ZERO
  {
    hide Times, Norm;
    NormTimes(a, b);
    NormPositive(a);
    NormPositive(b);
    NormPositive(Times(a, b));
    ProductZero(Norm(a), Norm(b));
  }
}
