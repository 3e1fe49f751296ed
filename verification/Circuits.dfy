/**
 What the operators of the gates mean in terms of each other: controls split a state by the value of a qubit, an
 exchange is three controlled X, and a rotation is the identity and a Pauli matrix mixed by cosine and sine.
 */
module Circuits {
  import opened Sequences
  import opened Amplitudes
  import opened Operators
  import opened Gates
  import opened LazyQueue
  import opened LazyMeaning
  import opened Occupancy
  import opened PauliStrings
  import opened BornRule

  /** The sum of two states. */
  ghost function Together(v: Wave, w: Wave): Wave { imap l: Label | true :: Plus(v[l], w[l]) }

  /** The part of a state in which a qubit has a value. */
  ghost function Kept(one: bool, c: nat, w: Wave): Wave { On(ProjectMat(one, ONE), c, w) }

  predicate HasControls(g: Gate) { g.MCX? || g.MCY? || g.MCZ? || g.MCH? || g.MCPhase? || g.CSWAP? }

  /** The gate with one control more. */
  function WithControl(g: Gate, c: nat): Gate
    requires HasControls(g)
  {
    g.(controls := g.controls + [c])
  }

  /** The gate a controlled gate is without controls. */
  function Uncontrolled(g: Gate): Gate
    requires HasControls(g)
  {
    match g
    case MCX(_, q) => X(q)
    case MCY(_, q) => Y(q)
    case MCZ(_, q) => Z(q)
    case MCH(_, q) => H(q)
    case MCPhase(_, p, q) => Phase(p, q)
    case CSWAP(_, a, b) => SWAP(a, b)
  }

  lemma NoControls(g: Gate, r: real)
    requires HasControls(g) && g.controls == []
    ensures Ideal(g, r) == Ideal(Uncontrolled(g), r)
  {
    assert SetOf([]) == {};
    match g
    case MCX(_, q) =>
    case MCY(_, q) =>
    case MCZ(_, q) => assert {} - {q} == {};
    case MCH(_, q) =>
    case MCPhase(_, p, q) => assert {} - {q} == {};
    case CSWAP(_, a, b) =>
  }

  /**
   One control more: the part of the state in which it is 0 is left alone, and the gate is applied to the part in
   which it is 1.
   */
  lemma ControlSplits(g: Gate, c: nat, r: real, w: Wave)
    requires HasControls(g) && c !in g.controls && c != g.q && (g.CSWAP? ==> c != g.q2)
    ensures Apply(Ideal(WithControl(g, c), r), w) == Together(Kept(false, c, w), Apply(Ideal(g, r), Kept(true, c, w)))
  {
    hide Kept, HMat, Together, Controlled, Exchange2, PhaseMat, SetOf;
    MoreControls(g.controls, c);
    var cs := SetOf(g.controls);
    match g
    case MCX(_, q) => MatrixSplits(cs, X_MAT, q, c, w);
    case MCY(_, q) => MatrixSplits(cs, Y_MAT, q, c, w);
    case MCZ(_, q) =>
      assert cs + {c} - {q} == cs - {q} + {c};
      MatrixSplits(cs - {q}, Z_MAT, q, c, w);
    case MCH(_, q) => MatrixSplits(cs, HMat(r), q, c, w);
    case MCPhase(_, p, q) =>
      assert cs + {c} - {q} == cs - {q} + {c};
      MatrixSplits(cs - {q}, PhaseMat(p), q, c, w);
    case CSWAP(_, a, b) => ExchangeSplits(cs, a, b, c, w);
  }

  lemma MoreControls(cs: seq<nat>, c: nat)
    ensures SetOf(cs + [c]) == SetOf(cs) + {c} && (c in SetOf(cs) <==> c in cs)
  {
  }

  lemma KeptIs(one: bool, c: nat, w: Wave, l: Label)
    ensures Kept(one, c, w)[l] == if c in l <==> one then w[l] else ZERO
  {
    hide On;
    KeptAt(c, one, w, l);
  }

  lemma MatrixSplits(cs: set<nat>, u: Mat, q: nat, c: nat, w: Wave)
    requires c !in cs && c != q
    ensures Controlled(cs + {c}, u, q, w) == Together(Kept(false, c, w), Controlled(cs, u, q, Kept(true, c, w)))
  {
    hide Controlled, Together, Kept;
    var v := Together(Kept(false, c, w), Controlled(cs, u, q, Kept(true, c, w)));
    forall l: Label ensures Controlled(cs + {c}, u, q, w)[l] == v[l] {
      MatrixSplitsAt(cs, u, q, c, w, l);
    }
    SameWave(Controlled(cs + {c}, u, q, w), v);
  }

  lemma MatrixSplitsAt(cs: set<nat>, u: Mat, q: nat, c: nat, w: Wave, l: Label)
    requires c !in cs && c != q
    ensures Controlled(cs + {c}, u, q, w)[l] == Together(Kept(false, c, w), Controlled(cs, u, q, Kept(true, c, w)))[l]
  {
    hide Times, Plus, Kept;
    KeptIs(false, c, w, l);
    KeptIs(true, c, w, l);
    KeptIs(true, c, w, l - {q});
    KeptIs(true, c, w, l + {q});
    assert cs + {c} <= l <==> cs <= l && c in l;
    NoneMixed(u, q in l);
    TimesUnit(w[l]);
    TimesUnit(Controlled(cs + {c}, u, q, w)[l]);
    TimesUnit(ZERO);
  }

  lemma NoneMixed(u: Mat, one: bool)
    ensures Plus(Times(Row0(u, one), ZERO), Times(Row1(u, one), ZERO)) == ZERO
  {
  }

  lemma ExchangeSplits(cs: set<nat>, a: nat, b: nat, c: nat, w: Wave)
    requires c !in cs && c != a && c != b
    ensures Exchange2(cs + {c}, a, b, w) == Together(Kept(false, c, w), Exchange2(cs, a, b, Kept(true, c, w)))
  {
    hide Exchange2, Together, Kept;
    var v := Together(Kept(false, c, w), Exchange2(cs, a, b, Kept(true, c, w)));
    forall l: Label ensures Exchange2(cs + {c}, a, b, w)[l] == v[l] {
      ExchangeSplitsAt(cs, a, b, c, w, l);
    }
    SameWave(Exchange2(cs + {c}, a, b, w), v);
  }

  lemma ExchangeSplitsAt(cs: set<nat>, a: nat, b: nat, c: nat, w: Wave, l: Label)
    requires c !in cs && c != a && c != b
    ensures Exchange2(cs + {c}, a, b, w)[l] == Together(Kept(false, c, w), Exchange2(cs, a, b, Kept(true, c, w)))[l]
  {
    hide *;
    ExchangeAt(cs + {c}, a, b, w, l);
    ExchangeAt(cs, a, b, Kept(true, c, w), l);
    TogetherAt(Kept(false, c, w), Exchange2(cs, a, b, Kept(true, c, w)), l);
    ExchangedSplits(cs, a, b, c, l);
    KeptIs(false, c, w, l);
    KeptIs(true, c, w, Exchanged(cs, a, b, l));
    TimesUnit(w[l]);
    TimesUnit(w[Exchanged(cs, a, b, l)]);
  }

  lemma TogetherAt(v: Wave, w: Wave, l: Label)
    ensures Together(v, w)[l] == Plus(v[l], w[l])
  {
  }

  lemma ExchangeAt(cs: set<nat>, a: nat, b: nat, w: Wave, l: Label)
    ensures Exchange2(cs, a, b, w)[l] == w[Exchanged(cs, a, b, l)]
  {
  }

  lemma ExchangedSplits(cs: set<nat>, a: nat, b: nat, c: nat, l: Label)
    requires c !in cs && c != a && c != b
    ensures Exchanged(cs + {c}, a, b, l) == if c in l then Exchanged(cs, a, b, l) else l
    ensures c in Exchanged(cs, a, b, l) <==> c in l
  {
    assert cs + {c} <= l <==> cs <= l && c in l;
  }

  /** X flips: the amplitude at a label comes from the label with the bit flipped, where the controls are 1. */
  lemma FlipAt(cs: set<nat>, q: nat, w: Wave, l: Label)
    ensures Controlled(cs, X_MAT, q, w)[l] == if cs <= l then w[if q in l then l - {q} else l + {q}] else w[l]
  {
    hide Times, Plus;
    TimesUnit(w[l - {q}]);
    TimesUnit(w[l + {q}]);
  }

  /** A controlled exchange is three X, each controlled by the other qubit as well. */
  lemma ExchangeIsThreeX(cs: seq<nat>, a: nat, b: nat, r: real, w: Wave)
    requires a != b && a !in cs && b !in cs
    ensures var ab, ba := Ideal(MCX(cs + [a], b), r), Ideal(MCX(cs + [b], a), r);
      Apply(Ideal(CSWAP(cs, a, b), r), w) == Apply(ab, Apply(ba, Apply(ab, w)))
  {
    hide Controlled, Exchange2;
    MoreControls(cs, a);
    MoreControls(cs, b);
    ThreeX(SetOf(cs), a, b, w);
  }

  lemma ThreeX(cs: set<nat>, a: nat, b: nat, w: Wave)
    requires a != b && a !in cs && b !in cs
    ensures Exchange2(cs, a, b, w)
      == Controlled(cs + {a}, X_MAT, b, Controlled(cs + {b}, X_MAT, a, Controlled(cs + {a}, X_MAT, b, w)))
  {
    hide Controlled, Flip;
    var w1 := Controlled(cs + {a}, X_MAT, b, w);
    var w2 := Controlled(cs + {b}, X_MAT, a, w1);
    var w3 := Controlled(cs + {a}, X_MAT, b, w2);
    forall l: Label ensures Exchange2(cs, a, b, w)[l] == w3[l] {
      ThreeXAt(cs, a, b, w, l);
    }
    SameWave(Exchange2(cs, a, b, w), w3);
  }

  lemma ThreeXAt(cs: set<nat>, a: nat, b: nat, w: Wave, l: Label)
    requires a != b && a !in cs && b !in cs
    ensures var w2 := Controlled(cs + {b}, X_MAT, a, Controlled(cs + {a}, X_MAT, b, w));
      Exchange2(cs, a, b, w)[l] == Controlled(cs + {a}, X_MAT, b, w2)[l]
  {
    hide Controlled;
    var w1 := Controlled(cs + {a}, X_MAT, b, w);
    var w2 := Controlled(cs + {b}, X_MAT, a, w1);
    var l1 := if cs + {a} <= l then Flip(l, b) else l;
    var l2 := if cs + {b} <= l1 then Flip(l1, a) else l1;
    var l3 := if cs + {a} <= l2 then Flip(l2, b) else l2;
    FlipAt(cs + {a}, b, w2, l);
    FlipAt(cs + {b}, a, w1, l1);
    FlipAt(cs + {a}, b, w, l2);
    assert Exchanged(cs, a, b, l) == l3;
  }

  /** A rotation: cosine times the state minus i times sine times the Pauli matrix on it, of the half angle. */
  lemma RotationMixes(axis: Axis, a: Angle, q: nat, r: real, w: Wave)
    ensures Apply(Ideal(R(axis, a, q), r), w)
      == Together(Scaled(Real(a.c), w), Scaled(Complex(0.0, -a.s), On(PauliMat(axis), q, w)))
  {
    hide Apply, Together;
    var v := Together(Scaled(Real(a.c), w), Scaled(Complex(0.0, -a.s), On(PauliMat(axis), q, w)));
    forall l: Label ensures Apply(Ideal(R(axis, a, q), r), w)[l] == v[l] {
      RotationAt(axis, a, q, r, w, l);
    }
    SameWave(Apply(Ideal(R(axis, a, q), r), w), v);
  }

  lemma RotationAt(axis: Axis, a: Angle, q: nat, r: real, w: Wave, l: Label)
    ensures Apply(Ideal(R(axis, a, q), r), w)[l]
      == Together(Scaled(Real(a.c), w), Scaled(Complex(0.0, -a.s), On(PauliMat(axis), q, w)))[l]
  {
    hide *;
    TogetherAt(Scaled(Real(a.c), w), Scaled(Complex(0.0, -a.s), On(PauliMat(axis), q, w)), l);
    ScaledIs(Real(a.c), w, l);
    ScaledIs(Complex(0.0, -a.s), On(PauliMat(axis), q, w), l);
    if axis.PauliI? {
      IdleRotation(a, q, r, w, l);
      PhaseMixes(a, w[l]);
    } else {
      RotationRows(axis, a, q, r, w, l);
    }
  }

  lemma ScaledIs(k: Complex, w: Wave, l: Label)
    ensures Scaled(k, w)[l] == Times(k, w[l])
  {
  }

  lemma IdleRotation(a: Angle, q: nat, r: real, w: Wave, l: Label)
    ensures Apply(Ideal(R(PauliI, a, q), r), w)[l] == Times(Complex(a.c, -a.s), w[l])
    ensures On(PauliMat(PauliI), q, w)[l] == w[l]
  {
    hide On, Times;
    OnIdentity(q, w);
  }

  lemma PhaseMixes(a: Angle, z: Complex)
    ensures Times(Complex(a.c, -a.s), z) == Plus(Times(Real(a.c), z), Times(Complex(0.0, -a.s), z))
  {
  }

  function RotationMat(axis: Axis, a: Angle): Mat
    requires !axis.PauliI?
  {
    if axis.PauliX? then RxMat(a) else if axis.PauliY? then RyMat(a) else RzMat(a)
  }

  lemma RotationApplied(axis: Axis, a: Angle, q: nat, r: real, w: Wave)
    requires !axis.PauliI?
    ensures Apply(Ideal(R(axis, a, q), r), w) == On(RotationMat(axis, a), q, w)
  {
    hide Apply, On, RxMat, RyMat, RzMat;
    OnIsApply(RotationMat(axis, a), q, w);
  }

  lemma RotationRows(axis: Axis, a: Angle, q: nat, r: real, w: Wave, l: Label)
    requires !axis.PauliI?
    ensures Apply(Ideal(R(axis, a, q), r), w)[l]
      == Plus(Times(Real(a.c), w[l]), Times(Complex(0.0, -a.s), On(PauliMat(axis), q, w)[l]))
  {
    hide *;
    RotationApplied(axis, a, q, r, w);
    OwnLabel(q, l);
    OnAt(PauliMat(axis), q, w, l);
    MixedRows(PauliMat(axis), q, w, l);
    OnAt(RotationMat(axis, a), q, w, l);
    MixedRows(RotationMat(axis, a), q, w, l);
    RotationEntries(axis, a, w[l - {q}], w[l + {q}]);
  }

  lemma OwnLabel(q: nat, l: Label)
    ensures l == if q in l then l + {q} else l - {q}
  {
  }

  lemma MixedRows(u: Mat, q: nat, w: Wave, l: Label)
    ensures Mixed(u, q, w, l) == if q in l then Plus(Times(u.m10, w[l - {q}]), Times(u.m11, w[l + {q}]))
                                 else Plus(Times(u.m00, w[l - {q}]), Times(u.m01, w[l + {q}]))
  {
    hide Times, Plus;
  }

  /** The same for the entries of the matrices. */
  lemma RotationEntries(axis: Axis, a: Angle, x: Complex, y: Complex)
    requires !axis.PauliI?
    ensures var (u, p, k, i) := (RotationMat(axis, a), PauliMat(axis), Real(a.c), Complex(0.0, -a.s));
      && Plus(Times(u.m00, x), Times(u.m01, y)) == Plus(Times(k, x), Times(i, Plus(Times(p.m00, x), Times(p.m01, y))))
      && Plus(Times(u.m10, x), Times(u.m11, y)) == Plus(Times(k, y), Times(i, Plus(Times(p.m10, x), Times(p.m11, y))))
  {
    hide Times, Plus, RxMat, RyMat, RzMat, PauliMat;
    var p, k, i := PauliMat(axis), Real(a.c), Complex(0.0, -a.s);
    EntriesMix(axis, a);
    RowMixes(k, i, p.m00, p.m01, x, y);
    RowMixes(k, i, p.m11, p.m10, y, x);
    PlusSwapped(Times(RotationMat(axis, a).m10, x), Times(RotationMat(axis, a).m11, y));
    PlusSwapped(Times(p.m10, x), Times(p.m11, y));
  }

  lemma PlusSwapped(a: Complex, b: Complex)
    ensures Plus(a, b) == Plus(b, a)
  {
  }

  lemma RowMixes(k: Complex, i: Complex, p: Complex, q: Complex, x: Complex, y: Complex)
    ensures Plus(Times(Plus(k, Times(i, p)), x), Times(Times(i, q), y))
      == Plus(Times(k, x), Times(i, Plus(Times(p, x), Times(q, y))))
  {
    hide Times, Plus;
    TimesPlus(i, Times(p, x), Times(q, y));
    TimesAssoc(i, p, x);
    TimesAssoc(i, q, y);
    TimesPlus(x, k, Times(i, p));
    PlusAssociates(Times(k, x), Times(i, Times(p, x)), Times(i, Times(q, y)));
  }

  lemma PlusAssociates(a: Complex, b: Complex, c: Complex)
    ensures Plus(Plus(a, b), c) == Plus(a, Plus(b, c))
  {
  }

  /** Each entry of a rotation matrix, from those of the Pauli matrix. */
  lemma EntriesMix(axis: Axis, a: Angle)
    requires !axis.PauliI?
    ensures var (u, p, k, i) := (RotationMat(axis, a), PauliMat(axis), Real(a.c), Complex(0.0, -a.s));
      && u.m00 == Plus(k, Times(i, p.m00)) && u.m01 == Times(i, p.m01)
      && u.m10 == Times(i, p.m10) && u.m11 == Plus(k, Times(i, p.m11))
  {
  }

  /** The Pauli matrices: X Y = i Z, and each is its own inverse. */
  lemma PauliProducts()
    ensures MatTimes(PauliMat(PauliX), PauliMat(PauliY)) == MatScaled(IMAG, PauliMat(PauliZ))
    ensures MatTimes(PauliMat(PauliX), PauliMat(PauliX)) == ID == MatTimes(PauliMat(PauliZ), PauliMat(PauliZ))
    ensures MatTimes(PauliMat(PauliY), PauliMat(PauliY)) == ID
  {
    hide Times, Plus;
    UnitTimes(ZERO);
    UnitTimes(ONE);
    UnitTimes(MINUS_ONE);
    UnitTimes(IMAG);
    UnitTimes(MINUS_IMAG);
    UnitProducts();
  }

  lemma UnitTimes(z: Complex)
    ensures Times(ZERO, z) == ZERO == Times(z, ZERO) && Times(ONE, z) == z == Times(z, ONE)
    ensures Plus(ZERO, z) == z == Plus(z, ZERO)
  {
  }

  lemma UnitProducts()
    ensures Times(IMAG, IMAG) == MINUS_ONE == Times(MINUS_IMAG, MINUS_IMAG) && Times(IMAG, MINUS_IMAG) == ONE
    ensures Times(MINUS_IMAG, IMAG) == ONE == Times(MINUS_ONE, MINUS_ONE) && Times(IMAG, MINUS_ONE) == MINUS_IMAG
  {
  }
}
