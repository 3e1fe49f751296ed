/**
 The gates as matrices, the rotation angles, and the matrix identities that let a gate pass the
 rotations and the Hadamard that are still pending on a qubit.
 */
module Gates {
  import opened Amplitudes
  import opened Operators

  /** A rotation angle, given by the cosine and sine of its half. */
  datatype HalfAngle = HalfAngle(c: real, s: real)

  predicate IsAngle(a: HalfAngle) { a.c * a.c + a.s * a.s == 1.0 }

  type Angle = a: HalfAngle | IsAngle(a) witness HalfAngle(1.0, 0.0)

  const NO_ANGLE: Angle := HalfAngle(1.0, 0.0)

  function Negated(a: Angle): Angle {
    NegatedIsAngle(a);
    HalfAngle(a.c, -a.s)
  }

  /** The sum of two angles, by the addition formulas. */
  function Sum(a: Angle, b: Angle): Angle {
    SumIsAngle(a, b);
    HalfAngle(a.c * b.c - a.s * b.s, a.s * b.c + a.c * b.s)
  }

  lemma NegatedIsAngle(a: Angle)
    ensures IsAngle(HalfAngle(a.c, -a.s))
  {
    NegatedSquare(a.s, -a.s, a.s * a.s);
  }

  lemma SumIsAngle(a: Angle, b: Angle)
    ensures IsAngle(HalfAngle(a.c * b.c - a.s * b.s, a.s * b.c + a.c * b.s))
  {
    NormTimes(Complex(a.c, a.s), Complex(b.c, b.s));
    assert Norm(Complex(a.c, a.s)) == 1.0 && Norm(Complex(b.c, b.s)) == 1.0;
  }

  const X_MAT := Mat(ZERO, ONE, ONE, ZERO)
  const Y_MAT := Mat(ZERO, MINUS_IMAG, IMAG, ZERO)
  const Z_MAT := Mat(ONE, ZERO, ZERO, MINUS_ONE)

  /** The Hadamard matrix; `r` is the normaliser, one over the square root of two. */
  function HMat(r: real): Mat { Mat(Real(r), Real(r), Real(r), Real(-r)) }

  function PhaseMat(p: Complex): Mat { Mat(ONE, ZERO, ZERO, p) }

  function RxMat(a: Angle): Mat {
    Mat(Real(a.c), Complex(0.0, -a.s), Complex(0.0, -a.s), Real(a.c))
  }

  function RyMat(a: Angle): Mat {
    Mat(Real(a.c), Real(-a.s), Real(a.s), Real(a.c))
  }

  function RzMat(a: Angle): Mat {
    Mat(Complex(a.c, -a.s), ZERO, ZERO, Complex(a.c, a.s))
  }

  function MatScaled(k: Complex, u: Mat): Mat {
    Mat(Times(k, u.m00), Times(k, u.m01), Times(k, u.m10), Times(k, u.m11))
  }

  lemma MatTimesAssoc(u: Mat, v: Mat, w: Mat)
    ensures MatTimes(u, MatTimes(v, w)) == MatTimes(MatTimes(u, v), w)
  {
    hide Times, Plus;
    EntryAssoc(u.m00, u.m01, v, w.m00, w.m10);
    EntryAssoc(u.m00, u.m01, v, w.m01, w.m11);
    EntryAssoc(u.m10, u.m11, v, w.m00, w.m10);
    EntryAssoc(u.m10, u.m11, v, w.m01, w.m11);
  }

  lemma EntryAssoc(a: Complex, b: Complex, v: Mat, x: Complex, y: Complex)
    ensures Plus(Times(a, Plus(Times(v.m00, x), Times(v.m01, y))), Times(b, Plus(Times(v.m10, x), Times(v.m11, y))))
         == Plus(Times(Plus(Times(a, v.m00), Times(b, v.m10)), x), Times(Plus(Times(a, v.m01), Times(b, v.m11)), y))
  {
    RowTimes(a, b, v, x, y);
  }

  lemma MatTimesIdentity(u: Mat)
    ensures MatTimes(u, ID) == u && MatTimes(ID, u) == u
  {
  }

  // What each Pauli matrix does when it passes H, Rx or Ry.

  lemma XPassH(r: real)
    ensures MatTimes(X_MAT, HMat(r)) == MatTimes(HMat(r), Z_MAT)
  {
  }

  lemma ZPassH(r: real)
    ensures MatTimes(Z_MAT, HMat(r)) == MatTimes(HMat(r), X_MAT)
  {
  }

  lemma YPassH(r: real)
    ensures MatTimes(Y_MAT, HMat(r)) == MatTimes(HMat(r), MatScaled(MINUS_ONE, Y_MAT))
  {
    var minusY := Mat(ZERO, IMAG, MINUS_IMAG, ZERO);
    assert MatScaled(MINUS_ONE, Y_MAT) == minusY;
    ImaginaryTimes(r);
    ImaginaryTimes(-r);
  }

  lemma ImaginaryTimes(x: real)
    ensures Times(IMAG, Real(x)) == Complex(0.0, x) == Times(Real(x), IMAG)
    ensures Times(MINUS_IMAG, Real(x)) == Complex(0.0, -x) == Times(Real(x), MINUS_IMAG)
    ensures Times(ZERO, Real(x)) == ZERO == Times(Real(x), ZERO)
  {
  }

  lemma PassRx(a: Angle)
    ensures MatTimes(X_MAT, RxMat(a)) == MatTimes(RxMat(a), X_MAT)
    ensures MatTimes(Y_MAT, RxMat(a)) == MatTimes(RxMat(Negated(a)), Y_MAT)
    ensures MatTimes(Z_MAT, RxMat(a)) == MatTimes(RxMat(Negated(a)), Z_MAT)
  {
    hide *;
    XPassRx(a);
    YPassRx(a);
    ZPassRx(a);
  }

  lemma XPassRx(a: Angle)
    ensures MatTimes(X_MAT, RxMat(a)) == MatTimes(RxMat(a), X_MAT)
  {
  }

  lemma YPassRx(a: Angle)
    ensures MatTimes(Y_MAT, RxMat(a)) == MatTimes(RxMat(Negated(a)), Y_MAT)
  {
  }

  lemma ZPassRx(a: Angle)
    ensures MatTimes(Z_MAT, RxMat(a)) == MatTimes(RxMat(Negated(a)), Z_MAT)
  {
  }

  lemma PassRy(a: Angle, r: real)
    ensures MatTimes(X_MAT, RyMat(a)) == MatTimes(RyMat(Negated(a)), X_MAT)
    ensures MatTimes(Y_MAT, RyMat(a)) == MatTimes(RyMat(a), Y_MAT)
    ensures MatTimes(Z_MAT, RyMat(a)) == MatTimes(RyMat(Negated(a)), Z_MAT)
    ensures MatTimes(HMat(r), RyMat(a)) == MatTimes(RyMat(Negated(a)), HMat(r))
  {
    hide *;
    XPassRy(a);
    YPassRy(a);
    ZPassRy(a);
    HPassRy(a, r);
  }

  lemma XPassRy(a: Angle)
    ensures MatTimes(X_MAT, RyMat(a)) == MatTimes(RyMat(Negated(a)), X_MAT)
  {
  }

  lemma YPassRy(a: Angle)
    ensures MatTimes(Y_MAT, RyMat(a)) == MatTimes(RyMat(a), Y_MAT)
  {
  }

  lemma ZPassRy(a: Angle)
    ensures MatTimes(Z_MAT, RyMat(a)) == MatTimes(RyMat(Negated(a)), Z_MAT)
  {
  }

  lemma HPassRy(a: Angle, r: real)
    ensures MatTimes(HMat(r), RyMat(a)) == MatTimes(RyMat(Negated(a)), HMat(r))
  {
  }

  lemma RxAdd(a: Angle, b: Angle)
    ensures MatTimes(RxMat(a), RxMat(b)) == RxMat(Sum(b, a))
  {
  }

  lemma RyAdd(a: Angle, b: Angle)
    ensures MatTimes(RyMat(a), RyMat(b)) == RyMat(Sum(b, a))
  {
  }

  lemma HSquared(r: real)
    requires 2.0 * r * r == 1.0
    ensures MatTimes(HMat(r), HMat(r)) == ID
  {
  }

  /** Rz is a phase gate by the full angle, up to the global phase of the half angle. */
  lemma RzIsPhase(a: Angle)
    ensures MatScaled(Complex(a.c, a.s), RzMat(a)) == PhaseMat(Times(Complex(a.c, a.s), Complex(a.c, a.s)))
    ensures Norm(Complex(a.c, a.s)) == 1.0
  {
    var k := Complex(a.c, a.s);
    hide Times;
    UnitTimesConjugate(a);
  }

  lemma UnitTimesConjugate(a: Angle)
    ensures Times(Complex(a.c, a.s), Complex(a.c, -a.s)) == ONE
    ensures Times(Complex(a.c, a.s), ZERO) == ZERO
  {
  }

  lemma OnScaled(k: Complex, u: Mat, q: nat, w: Wave)
    ensures On(MatScaled(k, u), q, w) == Scaled(k, On(u, q, w))
  {
    hide Mixed;
    forall l: Label ensures On(MatScaled(k, u), q, w)[l] == Scaled(k, On(u, q, w))[l] {
      MixedScaled(k, u, q, w, l);
    }
    SameWave(On(MatScaled(k, u), q, w), Scaled(k, On(u, q, w)));
  }

  lemma MixedScaled(k: Complex, u: Mat, q: nat, w: Wave, l: Label)
    ensures Mixed(MatScaled(k, u), q, w, l) == Times(k, Mixed(u, q, w, l))
  {
    var a, b := Row0(u, q in l), Row1(u, q in l);
    hide Times, Plus;
    TimesAssoc(k, a, w[l - {q}]);
    TimesAssoc(k, b, w[l + {q}]);
    TimesPlus(k, Times(a, w[l - {q}]), Times(b, w[l + {q}]));
  }

  /** A controlled phase, in its two forms. */
  lemma ControlledPhase(cs: set<nat>, p: Complex, q: nat, w: Wave)
    requires q !in cs
    ensures Controlled(cs, PhaseMat(p), q, w) == Diagonal(cs + {q}, p, w)
  {
    forall l: Label ensures Controlled(cs, PhaseMat(p), q, w)[l] == Diagonal(cs + {q}, p, w)[l] {
      if cs <= l {
        MixedPhase(p, q, w, l);
        assert cs + {q} <= l <==> q in l;
      }
    }
    SameWave(Controlled(cs, PhaseMat(p), q, w), Diagonal(cs + {q}, p, w));
  }

  lemma MixedPhase(p: Complex, q: nat, w: Wave, l: Label)
    ensures Mixed(PhaseMat(p), q, w, l) == if q in l then Times(p, w[l]) else w[l]
  {
    hide Times, Plus;
    TimesUnit(w[l - {q}]);
    TimesUnit(w[l + {q}]);
    TimesUnit(Times(p, w[l]));
    assert l == if q in l then l + {q} else l - {q};
  }

  /** A controlled minus sign is a phase on the controls. */
  lemma ControlledMinus(cs: set<nat>, u: Mat, q: nat, w: Wave)
    requires q !in cs
    ensures Controlled(cs, MatScaled(MINUS_ONE, u), q, w) == Controlled(cs, u, q, Diagonal(cs, MINUS_ONE, w))
  {
    hide Mixed;
    forall l: Label
      ensures Controlled(cs, MatScaled(MINUS_ONE, u), q, w)[l] == Controlled(cs, u, q, Diagonal(cs, MINUS_ONE, w))[l]
    {
      if cs <= l {
        MixedScaled(MINUS_ONE, u, q, w, l);
        MinusAt(cs, u, q, w, l);
      }
    }
    SameWave(Controlled(cs, MatScaled(MINUS_ONE, u), q, w), Controlled(cs, u, q, Diagonal(cs, MINUS_ONE, w)));
  }

  lemma MinusAt(cs: set<nat>, u: Mat, q: nat, w: Wave, l: Label)
    requires q !in cs && cs <= l
    ensures Mixed(u, q, Diagonal(cs, MINUS_ONE, w), l) == Times(MINUS_ONE, Mixed(u, q, w, l))
  {
    Above(cs, l, q);
    MixedPlus(u, q in l, MINUS_ONE, w[l - {q}], w[l + {q}]);
  }

  /** Exchanging two qubits carries a matrix on one to the other. */
  lemma ExchangeOn(a: nat, b: nat, v: Mat, w: Wave)
    requires a != b
    ensures Exchange2({}, a, b, On(v, a, w)) == On(v, b, Exchange2({}, a, b, w))
  {
    hide Times, Plus, Exchanged, Flip;
    forall l: Label ensures Exchange2({}, a, b, On(v, a, w))[l] == On(v, b, Exchange2({}, a, b, w))[l] {
      ExchangeLabels(a, b, l);
    }
    SameWave(Exchange2({}, a, b, On(v, a, w)), On(v, b, Exchange2({}, a, b, w)));
  }

  lemma ExchangeLabels(a: nat, b: nat, l: Label)
    requires a != b
    ensures a in Exchanged({}, a, b, l) <==> b in l
    ensures Exchanged({}, a, b, l - {b}) == Exchanged({}, a, b, l) - {a}
    ensures Exchanged({}, a, b, l + {b}) == Exchanged({}, a, b, l) + {a}
  {
    var m := Exchanged({}, a, b, l);
    assert Exchanged({}, a, b, l - {b}) == m - {a};
    assert Exchanged({}, a, b, l + {b}) == m + {a};
  }

  lemma ExchangedSame(cs: set<nat>, a: nat, b: nat, l: Label)
    ensures Exchanged(cs, a, b, l) == Exchanged(cs, b, a, l)
    ensures a == b ==> Exchanged(cs, a, b, l) == l
  {
    if (a in l) != (b in l) {
      assert Flip(Flip(l, a), b) == Flip(Flip(l, b), a);
    }
  }

  lemma ExchangeSame(cs: set<nat>, a: nat, b: nat, w: Wave)
    ensures Exchange2(cs, a, b, w) == Exchange2(cs, b, a, w)
  {
    hide *;
    forall l: Label ensures Exchange2(cs, a, b, w)[l] == Exchange2(cs, b, a, w)[l] {
      ExchangeSameAt(cs, a, b, w, l);
    }
    SameWave(Exchange2(cs, a, b, w), Exchange2(cs, b, a, w));
  }

  lemma ExchangeSameAt(cs: set<nat>, a: nat, b: nat, w: Wave, l: Label)
    ensures Exchange2(cs, a, b, w)[l] == Exchange2(cs, b, a, w)[l]
  {
    hide Exchanged;
    ExchangedSame(cs, a, b, l);
  }

  lemma ExchangeNothing(cs: set<nat>, a: nat, w: Wave)
    ensures Exchange2(cs, a, a, w) == w
  {
    hide Exchanged;
    forall l: Label ensures Exchange2(cs, a, a, w)[l] == w[l] {
      ExchangedSame(cs, a, a, l);
    }
    SameWave(Exchange2(cs, a, a, w), w);
  }
}
