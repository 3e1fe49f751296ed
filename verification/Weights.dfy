/**
 The weight of a state: the sum of the squared moduli of its amplitudes. Gates conserve it; measurements
 draw their outcomes by it.
 */
module Weights {
  import opened Sequences
  import opened Amplitudes
  import opened Operators
  import opened Gates
  import opened LazyQueue
  import opened LazyMeaning
  import LazySteps
  import opened Kernels
  import opened BitsetOrder
  import opened PauliStrings

  // ---------------------------------------------------------------- finite sums over labels

  ghost function LabelSum(s: set<Label>, f: Label -> real): real {
    if s == {} then 0.0
    else
      var l :| l in s;
      f(l) + LabelSum(s - {l}, f)
  }

  /** The order of the summands does not matter. */
  lemma {:induction false} SumPick(s: set<Label>, f: Label -> real, l: Label)
    requires l in s
    ensures LabelSum(s, f) == f(l) + LabelSum(s - {l}, f)
  {
    var m :| m in s && LabelSum(s, f) == f(m) + LabelSum(s - {m}, f);
    if m != l {
      SumPick(s - {m}, f, l);
      SumPick(s - {l}, f, m);
      assert s - {m} - {l} == s - {l} - {m};
    }
  }

  lemma {:induction false} SumSame(s: set<Label>, f: Label -> real, g: Label -> real)
    requires forall l :: l in s ==> f(l) == g(l)
    ensures LabelSum(s, f) == LabelSum(s, g)
  {
    if s != {} {
      var l :| l in s;
      SumPick(s, f, l);
      SumPick(s, g, l);
      SumSame(s - {l}, f, g);
    }
  }

  lemma {:induction false} SumPlus(s: set<Label>, f: Label -> real, g: Label -> real, h: Label -> real)
    requires forall l :: l in s ==> h(l) == f(l) + g(l)
    ensures LabelSum(s, h) == LabelSum(s, f) + LabelSum(s, g)
  {
    if s != {} {
      var l :| l in s;
      SumPick(s, f, l);
      SumPick(s, g, l);
      SumPick(s, h, l);
      SumPlus(s - {l}, f, g, h);
    }
  }

  lemma TimesSum(k: real, x: real, rest: real, sum: real, x2: real, rest2: real, sum2: real)
    requires sum == x + rest && sum2 == x2 + rest2 && x2 == k * x && rest2 == k * rest
    ensures sum2 == k * sum
  {
  }

  lemma SumEmpty(f: Label -> real)
    ensures LabelSum({}, f) == 0.0
  {
  }

  lemma {:induction false} SumScaled(s: set<Label>, k: real, f: Label -> real, g: Label -> real)
    requires forall l :: l in s ==> g(l) == k * f(l)
    ensures LabelSum(s, g) == k * LabelSum(s, f)
  {
    hide LabelSum;
    if s == {} {
      SumEmpty(f);
      SumEmpty(g);
    } else {
      var l :| l in s;
      SumPick(s, f, l);
      SumPick(s, g, l);
      SumScaled(s - {l}, k, f, g);
      TimesSum(k, f(l), LabelSum(s - {l}, f), LabelSum(s, f), g(l), LabelSum(s - {l}, g), LabelSum(s, g));
    }
  }

  lemma {:induction false} SumNone(s: set<Label>, f: Label -> real)
    requires forall l :: l in s ==> f(l) == 0.0
    ensures LabelSum(s, f) == 0.0
  {
    if s != {} {
      var l :| l in s;
      SumPick(s, f, l);
      SumNone(s - {l}, f);
    }
  }

  lemma {:induction false} SumJoin(s: set<Label>, t: set<Label>, f: Label -> real)
    requires s !! t
    ensures LabelSum(s + t, f) == LabelSum(s, f) + LabelSum(t, f)
  {
    if s == {} {
      assert s + t == t;
    } else {
      var l :| l in s;
      SumPick(s, f, l);
      SumPick(s + t, f, l);
      SumJoin(s - {l}, t, f);
      assert s + t - {l} == (s - {l}) + t;
    }
  }

  lemma {:induction false} SumNonnegative(s: set<Label>, f: Label -> real)
    requires forall l :: l in s ==> f(l) >= 0.0
    ensures LabelSum(s, f) >= 0.0 && forall l :: l in s ==> f(l) <= LabelSum(s, f)
  {
    if s != {} {
      var m :| m in s;
      SumPick(s, f, m);
      SumNonnegative(s - {m}, f);
      forall l | l in s ensures f(l) <= LabelSum(s, f) {
        assert l == m || l in s - {m};
      }
    }
  }

  /** Summands that are zero may be left out. */
  lemma SumWithin(s: set<Label>, t: set<Label>, f: Label -> real)
    requires forall l :: l in s && l !in t ==> f(l) == 0.0
    requires forall l :: l in t && l !in s ==> f(l) == 0.0
    ensures LabelSum(s, f) == LabelSum(t, f)
  {
    SumJoin(s * t, s - t, f);
    SumJoin(s * t, t - s, f);
    SumNone(s - t, f);
    SumNone(t - s, f);
    assert s == s * t + (s - t) && t == s * t + (t - s);
  }

  /** Labels moved one to one onto others. */
  lemma {:induction false} SumMoved(s: set<Label>, t: set<Label>, move: Label -> Label, f: Label -> real,
                                    g: Label -> real)
    requires forall l :: l in s ==> move(l) in t && g(l) == f(move(l))
    requires forall l, m :: l in s && m in s && move(l) == move(m) ==> l == m
    requires forall m :: m in t ==> exists l :: l in s && move(l) == m
    ensures LabelSum(s, g) == LabelSum(t, f)
  {
    if s == {} {
      assert t == {};
    } else {
      var l :| l in s;
      SumPick(s, g, l);
      SumPick(t, f, move(l));
      SumMoved(s - {l}, t - {move(l)}, move, f, g);
    }
  }

  // ---------------------------------------------------------------- the weight of a state

  ghost function Qubits(n: nat): (r: set<nat>)
    ensures forall q: nat :: q in r <==> q < n
  {
    if n == 0 then {} else Qubits(n - 1) + {n - 1}
  }

  /** The labels of the first `n` qubits. */
  ghost function Labels(n: nat): set<Label> { set l: Label | l <= Qubits(n) }

  lemma LabelIn(n: nat, l: Label)
    ensures l in Labels(n) <==> forall q :: q in l ==> q < n
  {
  }

  ghost function Norms(w: Wave): Label -> real { l => Norm(w[l]) }

  /** The sum of the squared moduli on the first `n` qubits. */
  ghost function Weight(n: nat, w: Wave): real { LabelSum(Labels(n), Norms(w)) }

  /** No state has a negative weight, and an amplitude that is not zero adds to it. */
  lemma WeightNonnegative(n: nat, w: Wave)
    ensures Weight(n, w) >= 0.0 && forall l :: l in Labels(n) && w[l] != ZERO ==> Weight(n, w) > 0.0
  {
    hide LabelSum, Labels, Norm;
    forall l: Label ensures Norms(w)(l) >= 0.0 && (w[l] != ZERO ==> Norms(w)(l) > 0.0) {
      NormPositive(w[l]);
      UnitNorms();
    }
    SumNonnegative(Labels(n), Norms(w));
  }

  // ---------------------------------------------------------------- matrices that conserve it

  function Conj(a: Complex): Complex { Complex(a.re, -a.im) }

  /** The real part of the inner product of two amplitudes. */
  function Dot(a: Complex, b: Complex): real { a.re * b.re + a.im * b.im }

  function Inner(a: Complex, b: Complex): Complex { Times(Conj(a), b) }

  /** The columns have modulus one and are orthogonal. */
  predicate Unitary(u: Mat) {
    && Norm(u.m00) + Norm(u.m10) == 1.0 && Norm(u.m01) + Norm(u.m11) == 1.0
    && Plus(Inner(u.m00, u.m01), Inner(u.m10, u.m11)) == ZERO
  }

  lemma NormOfSum(a: Complex, b: Complex)
    ensures Norm(Plus(a, b)) == Norm(a) + Norm(b) + 2.0 * Dot(a, b)
  {
    SquarePlus(a.re, b.re);
    SquarePlus(a.im, b.im);
  }

  lemma InnerTimes(u: Complex, a: Complex, v: Complex, b: Complex)
    ensures Dot(Times(u, a), Times(v, b)) == Times(Inner(u, v), Inner(a, b)).re
  {
    ConjTimes(u, a);
    DotInner(Times(u, a), Times(v, b));
    hide Times, Conj, Dot;
    TimesAssoc(Times(Conj(u), Conj(a)), v, b);
    TimesAssoc(Conj(u), Conj(a), v);
    TimesComm(Conj(a), v);
    TimesAssoc(Conj(u), v, Conj(a));
    TimesAssoc(Times(Conj(u), v), Conj(a), b);
  }

  lemma DotInner(a: Complex, b: Complex)
    ensures Dot(a, b) == Times(Conj(a), b).re
  {
  }

  lemma ConjTimes(a: Complex, b: Complex)
    ensures Conj(Times(a, b)) == Times(Conj(a), Conj(b))
  {
  }

  /** A unitary matrix conserves the weight of a pair of amplitudes. */
  lemma PairNorm(u: Mat, a: Complex, b: Complex)
    requires Unitary(u)
    ensures Norm(Plus(Times(u.m00, a), Times(u.m01, b))) + Norm(Plus(Times(u.m10, a), Times(u.m11, b)))
      == Norm(a) + Norm(b)
  {
    hide Times, Plus, Norm, Dot, Inner;
    NormOfSum(Times(u.m00, a), Times(u.m01, b));
    NormOfSum(Times(u.m10, a), Times(u.m11, b));
    NormTimes(u.m00, a);
    NormTimes(u.m01, b);
    NormTimes(u.m10, a);
    NormTimes(u.m11, b);
    InnerTimes(u.m00, a, u.m01, b);
    InnerTimes(u.m10, a, u.m11, b);
    CrossVanishes(Inner(u.m00, u.m01), Inner(u.m10, u.m11), Inner(a, b));
    PairSum(Norm(u.m00), Norm(u.m10), Norm(a));
    PairSum(Norm(u.m01), Norm(u.m11), Norm(b));
  }

  lemma PairSum(p: real, q: real, x: real)
    requires p + q == 1.0
    ensures p * x + q * x == x
  {
    assert p * x + q * x == (p + q) * x;
  }

  lemma CrossVanishes(x: Complex, y: Complex, z: Complex)
    requires Plus(x, y) == ZERO
    ensures Times(x, z).re + Times(y, z).re == 0.0
  {
    assert y == Complex(-x.re, -x.im);
  }

  // ---------------------------------------------------------------- operators that conserve it

  /** The operator stays on the first `n` qubits and is unitary. */
  ghost predicate Conserves(g: Operator, n: nat) {
    match g
    case OnQubit(cs, u, q) => q < n && q !in cs && Unitary(u)
    case PhaseOn(mask, p) => Norm(p) == 1.0
    case Swapping(cs, a, b) => a < n && b < n && a !in cs && b !in cs
  }

  lemma ApplyConserves(g: Operator, n: nat, w: Wave)
    requires Conserves(g, n)
    ensures Weight(n, Apply(g, w)) == Weight(n, w)
  {
    hide Unitary, LabelSum;
    match g
    case OnQubit(cs, u, q) => MatrixConserves(cs, u, q, n, w);
    case PhaseOn(mask, p) =>
      forall l | l in Labels(n) ensures Norms(Apply(g, w))(l) == Norms(w)(l) {
        NormTimes(p, w[l]);
      }
      SumSame(Labels(n), Norms(Apply(g, w)), Norms(w));
    case Swapping(cs, a, b) => ExchangeConserves(cs, a, b, n, w);
  }

  lemma ExchangeConserves(cs: set<nat>, a: nat, b: nat, n: nat, w: Wave)
    requires a < n && b < n && a !in cs && b !in cs
    ensures Weight(n, Exchange2(cs, a, b, w)) == Weight(n, w)
  {
    hide LabelSum, Exchanged, Norm;
    var move := (l: Label) => Exchanged(cs, a, b, l);
    forall l | l in Labels(n) ensures move(l) in Labels(n) && move(move(l)) == l {
      ExchangedTwice(cs, a, b, l);
      ExchangedWithin(cs, a, b, n, l);
    }
    SumMoved(Labels(n), Labels(n), move, Norms(w), Norms(Exchange2(cs, a, b, w)));
  }

  lemma ExchangedWithin(cs: set<nat>, a: nat, b: nat, n: nat, l: Label)
    requires a < n && b < n && l in Labels(n)
    ensures Exchanged(cs, a, b, l) in Labels(n)
  {
  }

  /** The labels without and with a bit, in pairs. */
  ghost function Zeros(n: nat, q: nat): set<Label> { set l | l in Labels(n) && q !in l }
  ghost function Ones(n: nat, q: nat): set<Label> { set l | l in Labels(n) && q in l }

  ghost function PairNorms(w: Wave, q: nat): Label -> real { l => Norm(w[l]) + Norm(w[l + {q}]) }

  lemma WeightInPairs(n: nat, q: nat, w: Wave)
    requires q < n
    ensures Weight(n, w) == LabelSum(Zeros(n, q), PairNorms(w, q))
  {
    hide LabelSum, Norm;
    var zs, os := Zeros(n, q), Ones(n, q);
    assert Labels(n) == zs + os;
    SumJoin(zs, os, Norms(w));
    var move := (l: Label) => l + {q};
    var moved := (l: Label) => Norm(w[l + {q}]);
    forall m | m in os ensures exists l :: l in zs && move(l) == m {
      assert m - {q} in zs && m == move(m - {q});
    }
    forall l, m | l in zs && m in zs && move(l) == move(m) ensures l == m {
      assert l == move(l) - {q};
    }
    SumMoved(zs, os, move, Norms(w), moved);
    SumPlus(zs, Norms(w), moved, PairNorms(w, q));
  }

  lemma PairConserved(cs: set<nat>, u: Mat, q: nat, w: Wave, l: Label)
    requires q !in cs && Unitary(u) && q !in l
    ensures PairNorms(Controlled(cs, u, q, w), q)(l) == PairNorms(w, q)(l)
  {
    hide Norm, Unitary, Times, Plus;
    Above(cs, l, q);
    if cs <= l {
      PairLabel(l, q);
      PairNorm(u, w[l], w[l + {q}]);
    }
  }

  lemma PairLabel(l: Label, q: nat)
    requires q !in l
    ensures l - {q} == l && l + {q} - {q} == l && l + {q} + {q} == l + {q}
  {
  }

  lemma MatrixConserves(cs: set<nat>, u: Mat, q: nat, n: nat, w: Wave)
    requires q < n && q !in cs && Unitary(u)
    ensures Weight(n, Controlled(cs, u, q, w)) == Weight(n, w)
  {
    hide LabelSum, Weight, Unitary, Controlled, PairNorms, Labels;
    var v := Controlled(cs, u, q, w);
    WeightInPairs(n, q, w);
    WeightInPairs(n, q, v);
    forall l | l in Zeros(n, q) ensures PairNorms(v, q)(l) == PairNorms(w, q)(l) {
      PairConserved(cs, u, q, w, l);
    }
    SumSame(Zeros(n, q), PairNorms(v, q), PairNorms(w, q));
  }

  lemma OnConserves(u: Mat, q: nat, n: nat, w: Wave)
    requires q < n && Unitary(u)
    ensures Weight(n, On(u, q, w)) == Weight(n, w)
  {
    hide On, Weight, Unitary, Controlled;
    OnIsApply(u, q, w);
    MatrixConserves({}, u, q, n, w);
  }

  // ---------------------------------------------------------------- the gates are unitary

  lemma UnitNorms()
    ensures Norm(ONE) == Norm(MINUS_ONE) == Norm(IMAG) == Norm(MINUS_IMAG) == 1.0 && Norm(ZERO) == 0.0
  {
    NormOf(0.0, 0.0);
    NormOf(1.0, 0.0);
    NormOf(-1.0, 0.0);
    NormOf(0.0, 1.0);
    NormOf(0.0, -1.0);
    hide Norm;
  }

  lemma NormOf(x: real, y: real)
    ensures Norm(Complex(x, y)) == x * x + y * y
  {
  }

  lemma ConjZero()
    ensures Conj(ZERO) == ZERO
  {
  }

  lemma InnerZero(z: Complex)
    ensures Inner(ZERO, z) == ZERO && Inner(z, ZERO) == ZERO && Plus(ZERO, ZERO) == ZERO
  {
    hide Times, Plus, Conj;
    ConjZero();
    TimesUnit(z);
    TimesUnit(ZERO);
    TimesUnit(Conj(z));
    TimesComm(Conj(z), ZERO);
  }

  lemma PauliUnitary()
    ensures Unitary(ID) && Unitary(X_MAT) && Unitary(Y_MAT) && Unitary(Z_MAT)
  {
    hide Norm, Inner, Plus;
    UnitNorms();
    InnerZero(ONE);
    InnerZero(MINUS_ONE);
    InnerZero(IMAG);
    InnerZero(MINUS_IMAG);
  }

  lemma HUnitary(r: real)
    requires 2.0 * r * r == 1.0
    ensures Unitary(HMat(r))
  {
    NegatedSquare(r, -r, r * r);
    assert Inner(Real(r), Real(r)) == Real(r * r) && Inner(Real(r), Real(-r)) == Real(-(r * r)) by { RealInner(r); }
  }

  lemma RealInner(r: real)
    ensures Inner(Real(r), Real(r)) == Real(r * r) && Inner(Real(r), Real(-r)) == Real(-(r * r))
  {
  }

  lemma RotationUnitary(a: Angle)
    ensures Unitary(RxMat(a)) && Unitary(RyMat(a)) && Unitary(RzMat(a))
  {
    hide *;
    RxUnitary(a);
    RyUnitary(a);
    RzUnitary(a);
  }

  lemma RxUnitary(a: Angle)
    ensures Unitary(RxMat(a))
  {
    NegatedSquare(a.s, -a.s, a.s * a.s);
  }

  lemma RyUnitary(a: Angle)
    ensures Unitary(RyMat(a))
  {
    NegatedSquare(a.s, -a.s, a.s * a.s);
  }

  lemma RzUnitary(a: Angle)
    ensures Unitary(RzMat(a))
  {
    NegatedSquare(a.s, -a.s, a.s * a.s);
  }

  lemma PhaseUnitary(p: Complex)
    requires Norm(p) == 1.0
    ensures Unitary(PhaseMat(p))
  {
  }

  // ---------------------------------------------------------------- what is pending conserves it

  lemma PendingConserves(r: real, p: Pending, q: nat, n: nat, w: Wave)
    requires 2.0 * r * r == 1.0 && q < n
    ensures Weight(n, On(PendingMat(r, p), q, w)) == Weight(n, w)
  {
    hide Weight, Unitary, On, MatTimes, HMat, RxMat, RyMat;
    PauliUnitary();
    HUnitary(r);
    RotationUnitary(p.ax);
    RotationUnitary(p.ay);
    var h, x, y := HPart(r, p), XPart(p), YPart(p);
    OnOn(x, h, q, w);
    OnOn(y, MatTimes(x, h), q, w);
    OnConserves(h, q, n, w);
    OnConserves(x, q, n, On(h, q, w));
    OnConserves(y, q, n, On(x, q, On(h, q, w)));
  }

  lemma {:induction false} LayerConserves(r: real, pend: seq<Pending>, k: nat, n: nat, w: Wave)
    requires 2.0 * r * r == 1.0 && k <= |pend| && k <= n
    ensures Weight(n, Layer(r, pend, k, w)) == Weight(n, w)
  {
    hide Weight, On, PendingMat, Layer;
    if k == 0 {
      LayerNone(r, pend, w);
    } else {
      LayerStep(r, pend, k, w);
      PendingConserves(r, pend[k - 1], k - 1, n, Layer(r, pend, k - 1, w));
      LayerConserves(r, pend, k - 1, n, w);
    }
  }

  lemma ScaledWeight(k: Complex, n: nat, w: Wave)
    ensures Weight(n, Scaled(k, w)) == Norm(k) * Weight(n, w)
  {
    hide LabelSum, Norm, Times;
    forall l | l in Labels(n) ensures Norms(Scaled(k, w))(l) == Norm(k) * Norms(w)(l) {
      NormTimes(k, w[l]);
    }
    SumScaled(Labels(n), Norm(k), Norms(w), Norms(Scaled(k, w)));
  }

  /** States equal up to a phase have the same weight. */
  lemma SameWeight(n: nat, v: Wave, w: Wave)
    requires SameState(v, w)
    ensures Weight(n, v) == Weight(n, w)
  {
    hide Weight, Norm, Scaled;
    var u: Complex :| Norm(u) == 1.0 && v == Scaled(u, w);
    ScaledWeight(u, n, w);
  }

  // ---------------------------------------------------------------- programs of gates conserve it

  predicate UnitPhase(g: Gate) { g.Phase? || g.MCPhase? ==> Norm(g.phase) == 1.0 }

  lemma IdealConserves(g: Gate, r: real, n: nat)
    requires Legal(g, n) && UnitPhase(g) && 2.0 * r * r == 1.0
    ensures Conserves(Ideal(g, r), n)
  {
    hide Unitary, Norm, HMat, RxMat, RyMat, RzMat, PhaseMat;
    PauliUnitary();
    HUnitary(r);
    match g
    case Phase(p, q) => PhaseUnitary(p);
    case MCPhase(cs, p, q) => PhaseUnitary(p);
    case R(axis, a, q) =>
      RotationUnitary(a);
      AnglePhase(a);
    case _ =>
  }

  lemma AnglePhase(a: Angle)
    ensures Norm(Complex(a.c, -a.s)) == 1.0
  {
    NegatedSquare(a.s, -a.s, a.s * a.s);
  }

  /** The textbook state of a program has the weight of the state it started from. */
  lemma {:induction false} RunIdealConserves(gates: seq<Gate>, r: real, n: nat, w: Wave)
    requires 2.0 * r * r == 1.0 && forall i :: 0 <= i < |gates| ==> Legal(gates[i], n) && UnitPhase(gates[i])
    ensures Weight(n, LazySteps.RunIdeal(gates, r, w)) == Weight(n, w)
  {
    hide Weight, Apply, Ideal, Legal, UnitPhase, Conserves;
    if gates != [] {
      var k := |gates| - 1;
      RunIdealConserves(gates[..k], r, n, w);
      IdealConserves(gates[k], r, n);
      ApplyConserves(Ideal(gates[k], r), n, LazySteps.RunIdeal(gates[..k], r, w));
    }
  }

  // ---------------------------------------------------------------- the weight of a table

  /** Nothing is stored beyond the first `n` qubits but zeros. */
  ghost predicate Covered(n: nat, w: Wave) { forall l: Label :: l !in Labels(n) ==> w[l] == ZERO }

  /** A sum over entries whose summands vanish with the amplitude is one over all labels. */
  lemma SumOfEntries(n: nat, m: Table, keys: set<Label>, f: Label -> real)
    requires Covered(n, WaveOf(m)) && keys <= m.Keys
    requires forall l: Label :: l !in keys || AmplitudeOf(m, l) == ZERO ==> f(l) == 0.0
    ensures LabelSum(keys, f) == LabelSum(Labels(n), f)
  {
    hide LabelSum, Labels;
    forall l | l in keys && l !in Labels(n) ensures f(l) == 0.0 {
      assert WaveOf(m)[l] == ZERO;
    }
    SumWithin(keys, Labels(n), f);
  }

  /** The entries with one value of a bit. */
  function Part(m: Table, t: nat, one: bool): set<Label> { set l | l in m && (t in l <==> one) }

  /** Without stored zeros, entries of no weight are no entries. */
  lemma EmptyPart(m: Table, t: nat, one: bool)
    requires NoZeros(m) && LabelSum(Part(m, t, one), Norms(WaveOf(m))) == 0.0
    ensures Part(m, t, one) == {}
  {
    hide LabelSum, Norm;
    forall l | l in Part(m, t, one) ensures Norms(WaveOf(m))(l) > 0.0 {
      NormPositive(m[l]);
    }
    SumNonnegative(Part(m, t, one), Norms(WaveOf(m)));
  }

  // ---------------------------------------------------------------- weights of projections

  ghost function Dots(v: Wave, w: Wave): Label -> real { l => Dot(v[l], w[l]) }

  lemma DotScaled(h: real, k: real, a: Complex, b: Complex)
    requires k == h || k == -h
    ensures Norm(Plus(Times(Real(h), a), Times(Real(k), b)))
      == h * h * (Norm(a) + Norm(b) + (if k == h then 2.0 else -2.0) * Dot(a, b))
  {
    hide Times, Plus, Norm, Dot;
    NormOfSum(Times(Real(h), a), Times(Real(k), b));
    NormTimes(Real(h), a);
    NormTimes(Real(k), b);
    RealNorm(h, k);
    DotTimes(h, k, a, b);
    HalfSum(h * h, Norm(a), Norm(b), Dot(a, b), if k == h then 2.0 else -2.0);
  }

  lemma RealNorm(h: real, k: real)
    requires k == h || k == -h
    ensures Norm(Real(h)) == h * h == Norm(Real(k))
  {
    NegatedSquare(h, -h, h * h);
  }

  lemma DotTimes(h: real, k: real, a: Complex, b: Complex)
    requires k == h || k == -h
    ensures Dot(Times(Real(h), a), Times(Real(k), b)) == (if k == h then 1.0 else -1.0) * (h * h * Dot(a, b))
  {
  }

  lemma HalfSum(p: real, x: real, y: real, d: real, c: real)
    ensures p * (x + y + c * d) == p * x + p * y + c * (p * d)
  {
  }

  /** The weight of a combination with equal moduli: the weights, and the inner product twice. */
  lemma CombinedWeight(n: nat, axes: seq<Axis>, qs: seq<nat>, h: real, minus: bool, w: Wave)
    requires |axes| == |qs|
    ensures var p := PauliString(axes, qs, w);
      Weight(n, Combined(axes, qs, Real(h), Real(if minus then -h else h), w))
      == h * h * (Weight(n, w) + Weight(n, p)
        + (if minus && h != 0.0 then -2.0 else 2.0) * LabelSum(Labels(n), Dots(w, p)))
  {
    hide LabelSum, Times, Plus, Norm, Dot, PauliString, Labels;
    var p, k := PauliString(axes, qs, w), if minus then -h else h;
    var c := if k == h then 2.0 else -2.0;
    var v := Combined(axes, qs, Real(h), Real(k), w);
    forall l | l in Labels(n) ensures Norms(v)(l) == h * h * (Norm(w[l]) + Norm(p[l]) + c * Dot(w[l], p[l])) {
      DotScaled(h, k, w[l], p[l]);
    }
    WeighedSum(Labels(n), w, p, c, h * h, v);
  }

  lemma {:induction false} WeighedSum(s: set<Label>, w: Wave, p: Wave, c: real, h2: real, v: Wave)
    requires forall l :: l in s ==> Norms(v)(l) == h2 * (Norm(w[l]) + Norm(p[l]) + c * Dot(w[l], p[l]))
    ensures LabelSum(s, Norms(v)) == h2 * (LabelSum(s, Norms(w)) + LabelSum(s, Norms(p)) + c * LabelSum(s, Dots(w, p)))
  {
    hide LabelSum, Norm, Dot;
    if s == {} {
      SumEmpty(Norms(w));
      SumEmpty(Norms(p));
      SumEmpty(Dots(w, p));
      SumEmpty(Norms(v));
    } else {
      var l :| l in s;
      var rest := s - {l};
      WeighedSum(rest, w, p, c, h2, v);
      SumPick(s, Norms(w), l);
      SumPick(s, Norms(p), l);
      SumPick(s, Dots(w, p), l);
      SumPick(s, Norms(v), l);
      WeighedStep(h2, c, Norm(w[l]), Norm(p[l]), Dot(w[l], p[l]), Norms(v)(l),
                  LabelSum(rest, Norms(w)), LabelSum(rest, Norms(p)), LabelSum(rest, Dots(w, p)),
                  LabelSum(rest, Norms(v)),
                  LabelSum(s, Norms(w)), LabelSum(s, Norms(p)), LabelSum(s, Dots(w, p)), LabelSum(s, Norms(v)));
    }
  }

  lemma WeighedStep(k: real, c: real, a: real, b: real, d: real, v: real,
                    a1: real, b1: real, d1: real, v1: real, a2: real, b2: real, d2: real, v2: real)
    requires v == k * (a + b + c * d) && v1 == k * (a1 + b1 + c * d1)
    requires a2 == a + a1 && b2 == b + b1 && d2 == d + d1 && v2 == v + v1
    ensures v2 == k * (a2 + b2 + c * d2)
  {
    TimesSum(c, d, d1, d2, c * d, c * d1, c * d + c * d1);
    TimesSum(k, a + b + c * d, a1 + b1 + c * d1, a2 + b2 + c * d2, v, v1, v2);
  }

  lemma PauliMatUnitary(axis: Axis)
    ensures Unitary(PauliMat(axis))
  {
    hide Unitary;
    PauliUnitary();
  }

  lemma {:induction false} StringConserves(axes: seq<Axis>, qs: seq<nat>, n: nat, w: Wave)
    requires |axes| == |qs| && Within(qs, n)
    ensures Weight(n, PauliString(axes, qs, w)) == Weight(n, w)
  {
    hide Weight, On, Unitary, PauliMat;
    if axes != [] {
      var k := |axes| - 1;
      StringConserves(axes[..k], qs[..k], n, w);
      PauliMatUnitary(axes[k]);
      OnConserves(PauliMat(axes[k]), qs[k], n, PauliString(axes[..k], qs[..k], w));
    }
  }

  /** The expectation of a Pauli product. */
  ghost function Expectation(n: nat, axes: seq<Axis>, qs: seq<nat>, w: Wave): real
    requires |axes| == |qs|
  {
    LabelSum(Labels(n), Dots(w, PauliString(axes, qs, w)))
  }

  /** Half of the identity plus or minus a Pauli product, times `k`: its weight is given by the expectation. */
  lemma HalfWeight(n: nat, axes: seq<Axis>, qs: seq<nat>, k: real, one: bool, w: Wave)
    requires |axes| == |qs| && Within(qs, n) && Weight(n, w) == 1.0
    ensures Weight(n, Combined(axes, qs, Real(0.5 * k), Real(if one then -0.5 * k else 0.5 * k), w))
      == k * k * (if one then 0.5 - 0.5 * Expectation(n, axes, qs, w) else 0.5 + 0.5 * Expectation(n, axes, qs, w))
  {
    hide Weight, Combined, PauliString, LabelSum, Dots;
    StringConserves(axes, qs, n, w);
    CombinedWeight(n, axes, qs, 0.5 * k, one, w);
    HalfSquare(k, Expectation(n, axes, qs, w));
  }

  lemma HalfSquare(k: real, e: real)
    ensures (0.5 * k) * (0.5 * k) * (2.0 + 2.0 * e) == k * k * (0.5 + 0.5 * e)
    ensures (0.5 * k) * (0.5 * k) * (2.0 - 2.0 * e) == k * k * (0.5 - 0.5 * e)
  {
  }

  /** What one entry contributes to the expectation: its product with the entry it is flipped to. */
  ghost function Contribution(axes: seq<Axis>, qs: seq<nat>, w: Wave): Label -> real
    requires |axes| == |qs|
  {
    l => var m := Xor(l, XYMask(axes, qs)); Dot(w[m], Times(Factor(axes, qs, l), w[l]))
  }

  lemma ContributionAt(axes: seq<Axis>, qs: seq<nat>, w: Wave, l: Label)
    requires |axes| == |qs| && NoDuplicates(qs)
    ensures Contribution(axes, qs, w)(l) == Dots(w, PauliString(axes, qs, w))(Xor(l, XYMask(axes, qs)))
    ensures w[l] == ZERO ==> Contribution(axes, qs, w)(l) == 0.0
  {
    hide PauliString, Factor, XYMask, Xor, Times;
    XorTwice(l, XYMask(axes, qs));
    StringAt(axes, qs, w, Xor(l, XYMask(axes, qs)));
    TimesZero(Factor(axes, qs, l), w[l]);
  }

  lemma XorWithin(n: nat, l: Label, m: set<nat>)
    requires l in Labels(n) && forall q :: q in m ==> q < n
    ensures Xor(l, m) in Labels(n)
  {
  }

  /** The entries' contributions make the expectation. */
  lemma ExpectationOfEntries(n: nat, axes: seq<Axis>, qs: seq<nat>, m: Table)
    requires |axes| == |qs| && NoDuplicates(qs) && Within(qs, n) && Covered(n, WaveOf(m))
    ensures LabelSum(m.Keys, Contribution(axes, qs, WaveOf(m))) == Expectation(n, axes, qs, WaveOf(m))
  {
    hide LabelSum, Contribution, Dots, PauliString, XYMask, Xor, Labels, Covered;
    var w, flip := WaveOf(m), XYMask(axes, qs);
    var f, g := Contribution(axes, qs, w), Dots(w, PauliString(axes, qs, w));
    forall l: Label | l !in m.Keys || AmplitudeOf(m, l) == ZERO ensures f(l) == 0.0 {
      ContributionAt(axes, qs, w, l);
    }
    SumOfEntries(n, m, m.Keys, f);
    var move := (l: Label) => Xor(l, flip);
    MasksWithin(axes, qs);
    forall l | l in Labels(n) ensures move(l) in Labels(n) && move(move(l)) == l && f(l) == g(move(l)) {
      XorWithin(n, l, flip);
      XorTwice(l, flip);
      ContributionAt(axes, qs, w, l);
    }
    SumMoved(Labels(n), Labels(n), move, g, f);
  }

  // ---------------------------------------------------------------- the weight kept by an outcome

  /** The squared moduli of the entries with one value of a bit make the weight of their projection. */
  lemma PartWeight(n: nat, m: Table, t: nat, one: bool, w: Wave)
    requires Covered(n, WaveOf(m))
    requires forall l: Label :: w[l] == if t in l <==> one then AmplitudeOf(m, l) else ZERO
    ensures LabelSum(Part(m, t, one), Norms(WaveOf(m))) == Weight(n, w)
  {
    hide LabelSum, Labels, Norm;
    UnitNorms();
    var keys := Part(m, t, one);
    forall l: Label | l !in keys || AmplitudeOf(m, l) == ZERO ensures Norms(w)(l) == 0.0 {
    }
    SumSame(keys, Norms(WaveOf(m)), Norms(w));
    SumOfEntries(n, m, keys, Norms(w));
  }

  /** The sum of the squared moduli of the entries. */
  ghost function Total(m: Table): real { LabelSum(m.Keys, Norms(WaveOf(m))) }

  /** What a normaliser is: one over the square root. */
  ghost predicate IsReciprocalRoot(rsqrt: real -> real) {
    forall x: real :: x > 0.0 ==> rsqrt(x) > 0.0 && rsqrt(x) * rsqrt(x) * x == 1.0
  }

  /** What is divided by the root of its weight weighs one, unless it weighs nothing. */
  lemma UnitOrNothing(rsqrt: real -> real, c: real)
    requires IsReciprocalRoot(rsqrt) && c >= 0.0
    ensures rsqrt(c) * rsqrt(c) * c == if c > 0.0 then 1.0 else 0.0
  {
  }

  lemma TotalOne(l: Label, v: Complex)
    ensures Total(map[l := v]) == Norm(v)
  {
    hide Norm;
    var m: Table := map[l := v];
    SumPick(m.Keys, Norms(WaveOf(m)), l);
    assert m.Keys - {l} == {};
  }

  lemma TotalMore(m: Table, l: Label, v: Complex)
    requires l !in m
    ensures Total(m[l := v]) == Total(m) + Norm(v)
  {
    hide Norm, LabelSum;
    var n := m[l := v];
    SumPick(n.Keys, Norms(WaveOf(n)), l);
    assert n.Keys - {l} == m.Keys;
    SumSame(m.Keys, Norms(WaveOf(n)), Norms(WaveOf(m)));
  }

  lemma TotalScaled(m: Table, k: Complex, n: Table)
    requires n.Keys == m.Keys && forall l :: l in n ==> n[l] == Times(m[l], k)
    ensures Total(n) == Norm(k) * Total(m)
  {
    hide Norm, LabelSum, Times;
    forall l | l in m.Keys ensures Norms(WaveOf(n))(l) == Norm(k) * Norms(WaveOf(m))(l) {
      NormTimes(m[l], k);
    }
    SumScaled(m.Keys, Norm(k), Norms(WaveOf(m)), Norms(WaveOf(n)));
  }

  /** A table divided by the root of its total has total one. */
  lemma TotalNormalized(m: Table, rsqrt: real -> real, n: Table)
    requires IsReciprocalRoot(rsqrt) && Total(m) > 0.0 && n.Keys == m.Keys
    requires forall l :: l in n ==> n[l] == Times(m[l], Real(rsqrt(Total(m))))
    ensures Total(n) == 1.0 && rsqrt(Total(m)) > 0.0
  {
    hide Total, Times;
    var k := rsqrt(Total(m));
    RealNorm(k, k);
    TotalScaled(m, Real(k), n);
  }
}
