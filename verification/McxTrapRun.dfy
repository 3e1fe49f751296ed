/** A run that reaches the trap of MCX from the initial simulator, and exactly when it goes wrong. */
module McxTrapRun {
  import opened Amplitudes
  import opened Operators
  import opened Gates
  import opened LazyQueue
  import opened LazyMeaning
  import opened LazySteps
  import opened Kernels
  import opened McxTrapExact

  /** Nothing done yet: |0...0> stored, nothing queued, nothing pending. */
  ghost predicate Initial(s: Sim) {
    Valid(s) && s.psi == Vacuum() && s.queue == [] && forall q :: 0 <= q < |s.pend| ==> s.pend[q] == NOTHING
  }

  function TrapGates(c: nat, t: nat, a: Angle): seq<Gate> { [H(c), R(PauliY, a, t), H(t), MCX([c], t)] }

  // ---------------------------------------------------------------- the states compared

  /** What the target holds before the MCX; the control is |+> next to it. */
  ghost function Target(r: real, t: nat, a: Angle): Wave { On(RyMat(Negated(a)), t, On(HMat(r), t, Vacuum())) }

  function Product(x: real, y: real): real { x * y }

  function Weight(r: real, a: Angle, one: bool): real { Product(r, if one then a.c - a.s else a.c + a.s) }

  lemma VacuumAbove(q: nat, l: Label)
    ensures Vacuum()[l + {q}] == ZERO
  {
    assert q in l + {q};
  }

  lemma HVacuumAt(r: real, t: nat, l: Label)
    ensures On(HMat(r), t, Vacuum())[l] == Times(Real(r), Vacuum()[l - {t}])
  {
    hide Vacuum, Times, Plus, On;
    VacuumAbove(t, l);
    OnAt(HMat(r), t, Vacuum(), l);
    TimesNil(Real(r));
    TimesNil(Real(-r));
    TimesUnit(Times(Real(r), Vacuum()[l - {t}]));
  }

  lemma TargetAt(r: real, t: nat, a: Angle, l: Label)
    ensures Target(r, t, a)[l] == Times(Real(Weight(r, a, t in l)), Vacuum()[l - {t}])
  {
    hide Vacuum, Times, Plus, On, Weight;
    var w, v := On(HMat(r), t, Vacuum()), Vacuum()[l - {t}];
    HVacuumAt(r, t, l - {t});
    HVacuumAt(r, t, l + {t});
    assert l - {t} - {t} == l - {t} && l + {t} - {t} == l - {t};
    OnAt(RyMat(Negated(a)), t, w, l);
    TurnedRow(r, a, t in l, v);
  }

  lemma TurnedRow(r: real, a: Angle, one: bool, v: Complex)
    ensures var u := RyMat(Negated(a));
      Plus(Times(Row0(u, one), Times(Real(r), v)), Times(Row1(u, one), Times(Real(r), v)))
      == Times(Real(Weight(r, a, one)), v)
  {
    hide Times, Plus, Product;
    var x, y := if one then -a.s else a.c, if one then a.c else a.s;
    assert RyMat(Negated(a)) == Mat(Real(a.c), Real(a.s), Real(-a.s), Real(a.c));
    Distribute(x, y, if one then a.c - a.s else a.c + a.s, r, v);
  }

  lemma Distribute(x: real, y: real, z: real, r: real, v: Complex)
    requires z == x + y
    ensures Plus(Times(Real(x), Times(Real(r), v)), Times(Real(y), Times(Real(r), v))) == Times(Real(Product(r, z)), v)
  {
    hide Times, Plus, Product;
    TimesPlus(Times(Real(r), v), Real(x), Real(y));
    RealPlus(x, y);
    TimesAssoc(Real(z), Real(r), v);
    RealTimes(z, r);
  }

  lemma RealPlus(x: real, y: real)
    ensures Plus(Real(x), Real(y)) == Real(x + y)
  {
  }

  lemma RealTimes(x: real, r: real)
    ensures Times(Real(x), Real(r)) == Real(Product(r, x)) == Times(Real(r), Real(x))
  {
  }

  /** What the lazy run leaves, and what the gates make, up to a global phase. */
  ghost function Left(r: real, c: nat, t: nat, a: Angle): Wave {
    On(HMat(r), c, Controlled({c}, X_MAT, t, Target(r, t, a)))
  }

  ghost function Right(r: real, c: nat, t: nat, a: Angle): Wave {
    Controlled({c}, X_MAT, t, On(HMat(r), c, Target(r, t, a)))
  }

  lemma CxAt(c: nat, t: nat, w: Wave, l: Label)
    requires c != t
    ensures Controlled({c}, X_MAT, t, w)[l] == if c in l then w[Flip(l, t)] else w[l]
  {
    hide Times, Plus;
    if c in l {
      assert {c} <= l;
      TimesUnit(w[l - {t}]);
      TimesUnit(w[l + {t}]);
    } else {
      assert !({c} <= l);
    }
  }

  lemma HAt(r: real, c: nat, w: Wave, l: Label)
    requires w[l + {c}] == ZERO
    ensures On(HMat(r), c, w)[l] == Times(Real(r), w[l - {c}])
  {
    hide Times, Plus, On;
    OnAt(HMat(r), c, w, l);
    TimesNil(Real(r));
    TimesNil(Real(-r));
    TimesUnit(Times(Real(r), w[l - {c}]));
  }

  /** The target's state has the control at 0. */
  lemma TargetZero(r: real, c: nat, t: nat, a: Angle, l: Label)
    requires c != t && c in l
    ensures Target(r, t, a)[l] == ZERO
  {
    hide Target, Weight, Times;
    TargetAt(r, t, a, l);
    assert c in l - {t};
    TimesNil(Real(Weight(r, a, t in l)));
  }

  lemma LeftAt(r: real, c: nat, t: nat, a: Angle, l: Label)
    requires c != t
    ensures Left(r, c, t, a)[l] == Times(Real(r), Target(r, t, a)[l - {c}])
  {
    hide Target, Times, On, Controlled;
    var w := Controlled({c}, X_MAT, t, Target(r, t, a));
    CxAt(c, t, Target(r, t, a), l + {c});
    CxAt(c, t, Target(r, t, a), l - {c});
    FlipOther(l + {c}, t, c);
    TargetZero(r, c, t, a, Flip(l + {c}, t));
    HAt(r, c, w, l);
  }

  lemma RightAt(r: real, c: nat, t: nat, a: Angle, l: Label)
    requires c != t
    ensures Right(r, c, t, a)[l] == Times(Real(r), Target(r, t, a)[if c in l then Flip(l, t) - {c} else l - {c}])
  {
    hide Target, Times, On, Controlled;
    var m := if c in l then Flip(l, t) else l;
    CxAt(c, t, On(HMat(r), c, Target(r, t, a)), l);
    TargetZero(r, c, t, a, m + {c});
    HAt(r, c, Target(r, t, a), m);
  }

  /** Left and right are one state exactly when the angle is none, or a full turn. */
  lemma LeftIsRightIff(r: real, c: nat, t: nat, a: Angle)
    requires 2.0 * r * r == 1.0 && c != t
    ensures SameState(Left(r, c, t, a), Right(r, c, t, a)) <==> a.s == 0.0
  {
    hide Left, Right, Target, SameState;
    if a.s == 0.0 {
      forall l: Label ensures Left(r, c, t, a)[l] == Right(r, c, t, a)[l] {
        LeftAt(r, c, t, a, l);
        RightAt(r, c, t, a, l);
        EvenTarget(r, t, a, l - {c});
        FlipOther(l, t, c);
      }
      SameWave(Left(r, c, t, a), Right(r, c, t, a));
      SameRefl(Left(r, c, t, a));
    } else if SameState(Left(r, c, t, a), Right(r, c, t, a)) {
      SameThenEven(r, c, t, a);
      assert false;
    }
  }

  lemma EvenTarget(r: real, t: nat, a: Angle, l: Label)
    requires a.s == 0.0
    ensures Target(r, t, a)[Flip(l, t)] == Target(r, t, a)[l]
  {
    hide Target, Times;
    TargetAt(r, t, a, l);
    TargetAt(r, t, a, Flip(l, t));
    assert Flip(l, t) - {t} == l - {t};
  }

  lemma SameThenEven(r: real, c: nat, t: nat, a: Angle)
    requires 2.0 * r * r == 1.0 && c != t && SameState(Left(r, c, t, a), Right(r, c, t, a))
    ensures a.s == 0.0
  {
    hide Left, Right, Target, Times, Norm, Weight;
    var v, w := Left(r, c, t, a), Right(r, c, t, a);
    var u: Complex :| Norm(u) == 1.0 && v == Scaled(u, w);
    assert v[{c}] == Times(u, w[{c}]) && v[{t}] == Times(u, w[{t}]);
    LeftAt(r, c, t, a, {c});
    LeftAt(r, c, t, a, {t});
    RightAt(r, c, t, a, {c});
    RightAt(r, c, t, a, {t});
    assert {c} - {c} == {} && {t} - {c} == {t} && Flip({c}, t) - {c} == {t};
    TargetAt(r, t, a, {});
    TargetAt(r, t, a, {t});
    assert {t} - {t} == {} && {} - {t} == {};
    TimesComm(Real(Weight(r, a, false)), ONE);
    TimesComm(Real(Weight(r, a, true)), ONE);
    TimesUnit(Real(Weight(r, a, false)));
    TimesUnit(Real(Weight(r, a, true)));
    assert Times(Real(r), Real(Weight(r, a, false))) == Times(Real(r), Real(Weight(r, a, true)));
    WeightsDiffer(r, a);
  }

  lemma WeightsDiffer(r: real, a: Angle)
    requires 2.0 * r * r == 1.0
    requires Times(Real(r), Real(Weight(r, a, false))) == Times(Real(r), Real(Weight(r, a, true)))
    ensures a.s == 0.0
  {
    var x, y := Weight(r, a, false), Weight(r, a, true);
    assert r * x == r * y;
    assert x - y == 2.0 * (r * a.s);
    assert r * (x - y) == 2.0 * r * r * a.s;
  }

  // ---------------------------------------------------------------- the run

  lemma SumFromNone(a: Angle)
    ensures Sum(NO_ANGLE, a) == a
  {
  }

  /** After H on the control, and Ry and H on the target: everything is pending, nothing has run. */
  ghost predicate Armed(s: Sim, s3: Sim, c: nat, t: nat, a: Angle)
    requires c < |s.pend| && t < |s.pend|
  {
    && |s3.occ| == |s3.pend| == |s.pend| && s3.r == s.r && s3.psi == Vacuum() && s3.queue == []
    && s3.pend == s.pend[c := NOTHING.(h := true)][t := Pending(true, false, NO_ANGLE, true, Negated(a))]
  }

  lemma LastGate(s: Sim, gates: seq<Gate>, k: nat)
    requires k < |gates| && |s.occ| == |s.pend| && forall i :: 0 <= i < |gates| ==> Legal(gates[i], |s.pend|)
    ensures Run(s, gates[..k + 1]) == Step(Run(s, gates[..k]), gates[k])
  {
    hide Step, Legal;
    assert gates[..k + 1][..k] == gates[..k];
  }

  lemma ArmedRun(s: Sim, c: nat, t: nat, a: Angle)
    requires Initial(s) && c < |s.pend| && t < |s.pend| && c != t
    ensures Armed(s, Run(s, TrapGates(c, t, a)[..3]), c, t, a)
  {
    hide Run, Negated, Vacuum, Step, Legal;
    var g := TrapGates(c, t, a);
    TrapLegal(c, t, a, |s.pend|);
    LastGate(s, g, 0);
    LastGate(s, g, 1);
    LastGate(s, g, 2);
    NoGates(s, g[..0]);
    QueuedH(s, c);
    QueuedRy(Run(s, g[..1]), t, a);
    QueuedH(Run(s, g[..2]), t);
  }

  lemma TrapLegal(c: nat, t: nat, a: Angle, n: nat)
    requires c < n && t < n && c != t
    ensures forall i :: 0 <= i < 4 ==> Legal(TrapGates(c, t, a)[i], n)
  {
  }

  lemma QueuedH(s: Sim, q: nat)
    requires q < |s.pend| && !s.pend[q].x && !s.pend[q].h && |s.occ| == |s.pend|
    ensures var p := s.pend[q];
      var s2 := Step(s, H(q));
      && s2.r == s.r && s2.psi == s.psi && s2.queue == s.queue
      && s2.pend == s.pend[q := p.(h := true, ay := if p.y then Negated(p.ay) else p.ay)]
  {
    hide Negated;
  }

  lemma QueuedRy(s: Sim, q: nat, a: Angle)
    requires q < |s.pend| && s.pend[q] == NOTHING && |s.occ| == |s.pend|
    ensures var s2 := Step(s, R(PauliY, a, q));
      && s2.r == s.r && s2.psi == s.psi && s2.queue == s.queue
      && s2.pend == s.pend[q := Pending(false, false, NO_ANGLE, true, a)]
  {
    hide Sum;
    SumFromNone(a);
  }

  lemma NoGates(s: Sim, gates: seq<Gate>)
    requires gates == [] && |s.occ| == |s.pend|
    ensures Run(s, gates) == s
  {
  }

  lemma FlushSingle(s: Sim, t: nat)
    requires t < |s.pend|
    ensures FlushQubits(s, [t], LevelRy) == FlushQubit(s, t, LevelRy)
  {
    hide FlushQubit;
    assert [t][..0] == [];
    assert FlushQubits(s, [], LevelRy) == s;
  }

  lemma FlushOne(s: Sim, t: nat)
    requires t < |s.pend| && s.queue == []
    ensures Flush(s, [t], LevelRy) == FlushRy(FlushRx(FlushH(s, t), t), t)
  {
    hide FlushH, FlushRx, FlushRy, Denoted, RunQueue, FlushQubits, All;
    DenotedIsAll(s);
    assert FlushQueue(s) == s;
    FlushSingle(s, t);
  }

  lemma FlushTarget(s: Sim, t: nat, b: Angle)
    requires t < |s.pend| && s.queue == [] && s.pend[t] == Pending(true, false, NO_ANGLE, true, b)
    ensures Flush(s, [t], LevelRy).psi == Rotated(true, b, t, On(HMat(s.r), t, s.psi))
  {
    hide On, Rotated, Flush;
    FlushOne(s, t);
  }

  lemma ArmedValid(s: Sim, s3: Sim, c: nat, t: nat, a: Angle)
    requires Initial(s) && c < |s.pend| && t < |s.pend| && c != t && Armed(s, s3, c, t, a)
    ensures Valid(s3) && McxTrap(s3, [c], t)
  {
    hide Vacuum;
  }

  /** What is pending after the flush of the target: H on the control alone. */
  lemma OnlyH(s: Sim, s3: Sim, c: nat, t: nat, a: Angle, w: Wave)
    requires Initial(s) && c < |s.pend| && t < |s.pend| && c != t && Armed(s, s3, c, t, a)
    ensures All(s.r, s3.pend[t := Flushed(s3.pend[t], LevelRy)], w) == On(HMat(s.r), c, w)
  {
    hide On, HMat, Layer, Vacuum, All, PendingMat;
    var pend := s3.pend[t := Flushed(s3.pend[t], LevelRy)];
    assert Flushed(s3.pend[t], LevelRy).Nothing();
    HAlone(s.r, pend[c]);
    Focus(s.r, pend, c, w);
    var rest := pend[c := NOTHING];
    AllIsLayer(s.r, rest, w);
    NothingLayer(s.r, rest, |rest|, w);
  }

  lemma TrapLeaves(s: Sim, s3: Sim, c: nat, t: nat, a: Angle)
    requires Initial(s) && c < |s.pend| && t < |s.pend| && c != t && Armed(s, s3, c, t, a)
    ensures SameState(Denoted(StepMCX(s3, [c], t)), Left(s.r, c, t, a))
  {
    hide On, HMat, SameState, Flush, Denoted, Vacuum, StepMCX, Controlled, Rotated, RyMat, Negated, Flushed, All;
    var cx, psi := OnQubit({c}, X_MAT, t), Flush(s3, [t], LevelRy).psi;
    ArmedValid(s, s3, c, t, a);
    ArmedFacts(s, s3, c, t, a);
    TrapDenotes(s3, c, t);
    OnlyH(s, s3, c, t, a, Apply(cx, psi));
    RotatedIsRotation(true, Negated(a), t, On(HMat(s.r), t, Vacuum()));
    SameApply(cx, psi, Target(s.r, t, a));
    SameOn(HMat(s.r), c, Apply(cx, psi), Apply(cx, Target(s.r, t, a)));
  }

  lemma ArmedFacts(s: Sim, s3: Sim, c: nat, t: nat, a: Angle)
    requires c < |s.pend| && t < |s.pend| && c != t && Armed(s, s3, c, t, a)
    ensures |s3.pend| == |s.pend| == |s3.occ| && s3.r == s.r
    ensures Flush(s3, [t], LevelRy).psi == Rotated(true, Negated(a), t, On(HMat(s.r), t, Vacuum()))
  {
    hide Vacuum, Negated, Flush, On, HMat, Rotated;
    FlushTarget(s3, t, Negated(a));
  }

  /** In the trap: the CNOT under what is then pending. */
  lemma TrapDenotes(s: Sim, c: nat, t: nat)
    requires Valid(s) && c < |s.pend| && t < |s.pend| && c != t && McxTrap(s, [c], t)
    ensures Denoted(StepMCX(s, [c], t))
      == All(s.r, s.pend[t := Flushed(s.pend[t], LevelRy)],
             Apply(OnQubit({c}, X_MAT, t), Flush(s, [t], LevelRy).psi))
  {
    hide On, RunQueue, SameState, Flush, Denoted, All, StepMCX, Apply, Flushed, Valid, McxTrap;
    TrapStep(s, c, t);
    var s2 := Flush(s, [t], LevelRy);
    PushedDenotes(s2, OpMCX({c}, t));
    RunNothing(s2);
  }

  lemma RunNothing(s: Sim)
    requires s.queue == []
    ensures RunQueue(s.queue, s.psi) == s.psi
  {
  }

  lemma TrapIdeal(r: real, c: nat, t: nat, a: Angle)
    requires c != t
    ensures RunIdeal(TrapGates(c, t, a), r, Vacuum()) == Right(r, c, t, a)
  {
    hide On, HMat, MatTimes, RyMat, Negated, Vacuum, Controlled, RunIdeal, Ideal, Apply, TrapGates;
    var v := Vacuum();
    var w1 := On(HMat(r), c, v);
    IdealSteps(r, c, t, a, v);
    IdealOf(r, c, t, a, v, w1, On(RyMat(a), t, w1), On(HMat(r), t, On(RyMat(a), t, w1)));
    PassRy(a, r);
    OnOn(HMat(r), RyMat(a), t, w1);
    OnOn(RyMat(Negated(a)), HMat(r), t, w1);
    OnCommute(HMat(r), t, HMat(r), c, v);
    OnCommute(RyMat(Negated(a)), t, HMat(r), c, On(HMat(r), t, v));
  }

  /** What each gate stands for, on some states. */
  lemma IdealOf(r: real, c: nat, t: nat, a: Angle, w0: Wave, w1: Wave, w2: Wave, w3: Wave)
    ensures Apply(Ideal(H(c), r), w0) == On(HMat(r), c, w0)
    ensures Apply(Ideal(R(PauliY, a, t), r), w1) == On(RyMat(a), t, w1)
    ensures Apply(Ideal(H(t), r), w2) == On(HMat(r), t, w2)
    ensures Apply(Ideal(MCX([c], t), r), w3) == Controlled({c}, X_MAT, t, w3)
  {
    hide *;
    IdealGates(r, c, t, a);
    OnIsApply(HMat(r), c, w0);
    OnIsApply(RyMat(a), t, w1);
    OnIsApply(HMat(r), t, w2);
    ControlledIsApply({c}, X_MAT, t, w3);
  }

  lemma IdealGates(r: real, c: nat, t: nat, a: Angle)
    ensures Ideal(H(c), r) == OnQubit({}, HMat(r), c)
    ensures Ideal(R(PauliY, a, t), r) == OnQubit({}, RyMat(a), t)
    ensures Ideal(H(t), r) == OnQubit({}, HMat(r), t)
    ensures Ideal(MCX([c], t), r) == OnQubit({c}, X_MAT, t)
  {
    assert SetOf([c]) == {c};
  }

  lemma ControlledIsApply(cs: set<nat>, u: Mat, q: nat, w: Wave)
    ensures Apply(OnQubit(cs, u, q), w) == Controlled(cs, u, q, w)
  {
    hide Controlled;
  }

  lemma IdealSteps(r: real, c: nat, t: nat, a: Angle, v: Wave)
    ensures RunIdeal(TrapGates(c, t, a), r, v) == Apply(Ideal(MCX([c], t), r),
      Apply(Ideal(H(t), r), Apply(Ideal(R(PauliY, a, t), r), Apply(Ideal(H(c), r), v))))
  {
    hide Apply, Ideal;
    var g := TrapGates(c, t, a);
    assert g[..3][..2] == g[..2] && g[..2][..1] == g[..1] && g[..1][..0] == [];
    assert RunIdeal(g[..1], r, v) == Apply(Ideal(H(c), r), v);
    assert RunIdeal(g[..2], r, v) == Apply(Ideal(R(PauliY, a, t), r), RunIdeal(g[..1], r, v));
    assert RunIdeal(g[..3], r, v) == Apply(Ideal(H(t), r), RunIdeal(g[..2], r, v));
  }

  /**
   H on the control, Ry and H on the target, and a CNOT, from the initial state: the lazy run stores what the
   gates make if and only if the angle is none or a full turn.
   */
  lemma TrapRunIff(s: Sim, c: nat, t: nat, a: Angle)
    requires Initial(s) && c < |s.pend| && t < |s.pend| && c != t
    ensures SameState(FlushAll(Run(s, TrapGates(c, t, a))).psi, RunIdeal(TrapGates(c, t, a), s.r, Denoted(s)))
      <==> a.s == 0.0
  {
    hide Run, Step, SameState, Denoted, Vacuum, Left, Right, RunIdeal, FlushAll, Legal;
    var g := TrapGates(c, t, a);
    TrapLegal(c, t, a, |s.pend|);
    var s3 := Run(s, g[..3]);
    ArmedRun(s, c, t, a);
    TrapStored(s, s3, c, t, a);
    TrapIdeal(s.r, c, t, a);
    InitialDenotes(s);
    LeftIsRightIff(s.r, c, t, a);
    SameOther(FlushAll(Run(s, g)).psi, Left(s.r, c, t, a), Right(s.r, c, t, a));
  }

  lemma TrapStored(s: Sim, s3: Sim, c: nat, t: nat, a: Angle)
    requires Initial(s) && c < |s.pend| && t < |s.pend| && c != t
    requires s3 == Run(s, TrapGates(c, t, a)[..3]) && Armed(s, s3, c, t, a)
    ensures SameState(FlushAll(Run(s, TrapGates(c, t, a))).psi, Left(s.r, c, t, a))
  {
    hide Run, StepMCX, SameState, Denoted, Vacuum, Left, FlushAll;
    var g := TrapGates(c, t, a);
    TrapLegal(c, t, a, |s.pend|);
    LastGate(s, g, 3);
    assert g[..4] == g;
    TrapLeaves(s, s3, c, t, a);
    FlushAllStores(Run(s, g));
    SameTrans(FlushAll(Run(s, g)).psi, Denoted(Run(s, g)), Left(s.r, c, t, a));
  }

  lemma SameOther(v: Wave, left: Wave, right: Wave)
    requires SameState(v, left)
    ensures SameState(v, right) <==> SameState(left, right)
  {
    hide SameState;
    if SameState(left, right) {
      SameTrans(v, left, right);
    }
    if SameState(v, right) {
      SameSym(v, left);
      SameTrans(left, v, right);
    }
  }

  lemma InitialDenotes(s: Sim)
    requires Initial(s)
    ensures Denoted(s) == Vacuum()
  {
    hide Layer, Vacuum, All, RunQueue;
    DenotedIsAll(s);
    AllIsLayer(s.r, s.pend, s.psi);
    NothingLayer(s.r, s.pend, |s.pend|, s.psi);
  }
}
