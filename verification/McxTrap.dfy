/** Exactly when MCX is queued faithfully, and runs that can never meet the exception. */
module McxTrapExact {
  import opened Amplitudes
  import opened Operators
  import opened Gates
  import opened LazyQueue
  import opened LazyMeaning
  import opened LazySteps
  import opened Kernels

  // ---------------------------------------------------------------- states a table holds

  ghost predicate Stored(w: Wave) { exists m: Table :: WaveOf(m) == w }

  /** A matrix on one qubit reaches only the labels of stored entries, with the bit set or cleared. */
  lemma StoredOn(u: Mat, q: nat, w: Wave)
    requires Stored(w)
    ensures Stored(On(u, q, w))
  {
    hide Mixed, WaveOf;
    var m: Table :| WaveOf(m) == w;
    var labels := (set l | l in m :: l - {q}) + (set l | l in m :: l + {q});
    var m2: Table := map l | l in labels :: Mixed(u, q, w, l);
    forall l: Label ensures AmplitudeOf(m2, l) == On(u, q, w)[l] {
      if l !in labels {
        NotReached(m, labels, q, l);
        MixedOfZeros(u, q, w, l);
      }
    }
    WaveOfIs(m2, On(u, q, w));
  }

  lemma NotReached(m: Table, labels: set<Label>, q: nat, l: Label)
    requires labels == (set l | l in m :: l - {q}) + (set l | l in m :: l + {q}) && l !in labels
    ensures WaveOf(m)[l - {q}] == ZERO && WaveOf(m)[l + {q}] == ZERO
  {
    var lo, hi := l - {q}, l + {q};
    assert lo - {q} == lo && lo + {q} == hi && hi - {q} == lo && hi + {q} == hi;
    assert l == lo || l == hi;
    assert lo in m ==> lo - {q} in labels && lo + {q} in labels;
    assert hi in m ==> hi - {q} in labels && hi + {q} in labels;
  }

  lemma MixedOfZeros(u: Mat, q: nat, w: Wave, l: Label)
    requires w[l - {q}] == ZERO && w[l + {q}] == ZERO
    ensures Mixed(u, q, w, l) == ZERO
  {
  }

  lemma WaveOfIs(m: Table, w: Wave)
    requires forall l: Label :: AmplitudeOf(m, l) == w[l]
    ensures WaveOf(m) == w
  {
    SameWave(WaveOf(m), w);
  }

  // ---------------------------------------------------------------- every pending layer is onto

  lemma OnOnto(u: Mat, v: Mat, q: nat, w: Wave)
    requires MatTimes(u, v) == ID
    ensures On(u, q, On(v, q, w)) == w
  {
    hide On, MatTimes;
    OnOn(u, v, q, w);
    OnIdentity(q, w);
  }

  lemma SumNegated(a: Angle)
    ensures Sum(Negated(a), a) == NO_ANGLE
  {
  }

  lemma RotationInverse(a: Angle)
    ensures MatTimes(RxMat(a), RxMat(Negated(a))) == ID
    ensures MatTimes(RyMat(a), RyMat(Negated(a))) == ID
  {
    SumNegated(a);
    RxAdd(a, Negated(a));
    RyAdd(a, Negated(a));
    hide MatTimes, Sum, Negated;
  }

  lemma PauliInverse()
    ensures MatTimes(X_MAT, X_MAT) == ID && MatTimes(Y_MAT, Y_MAT) == ID
  {
    hide Times, Plus;
    ImaginarySquares();
    TimesUnit(ONE);
    TimesUnit(ZERO);
    TimesUnit(IMAG);
    TimesUnit(MINUS_IMAG);
    TimesNil(ONE);
    TimesNil(IMAG);
    TimesNil(MINUS_IMAG);
  }

  lemma ImaginarySquares()
    ensures Times(IMAG, MINUS_IMAG) == ONE && Times(MINUS_IMAG, IMAG) == ONE
  {
  }

  lemma TimesNil(z: Complex)
    ensures Times(z, ZERO) == ZERO && Plus(ZERO, ZERO) == ZERO
  {
  }

  lemma RotatedOnto(axisY: bool, a: Angle, q: nat, w: Wave) returns (v: Wave)
    requires Stored(w)
    ensures Stored(v) && Rotated(axisY, a, q, v) == w
  {
    hide MatTimes, On, RxMat, RyMat, Negated, Stored;
    if a.c == 0.0 {
      PauliInverse();
      var u := if axisY then Y_MAT else X_MAT;
      OnOnto(u, u, q, w);
      StoredOn(u, q, w);
      v := On(u, q, w);
    } else if a.s == 0.0 {
      v := w;
    } else {
      RotationInverse(a);
      var u := if axisY then RyMat(a) else RxMat(a);
      var i := if axisY then RyMat(Negated(a)) else RxMat(Negated(a));
      OnOnto(u, i, q, w);
      StoredOn(i, q, w);
      v := On(i, q, w);
    }
  }

  lemma PendingOnto(r: real, p: Pending, q: nat, w: Wave) returns (v: Wave)
    requires 2.0 * r * r == 1.0 && Stored(w)
    ensures Stored(v) && On(PendingMat(r, p), q, v) == w
  {
    hide MatTimes, On, RxMat, RyMat, HMat, Negated, Stored;
    RotationInverse(p.ay);
    RotationInverse(p.ax);
    HSquared(r);
    MatTimesIdentity(ID);
    var y, x, h := YPart(p), XPart(p), HPart(r, p);
    var iy := if p.y then RyMat(Negated(p.ay)) else ID;
    var ix := if p.x then RxMat(Negated(p.ax)) else ID;
    var w1 := On(iy, q, w);
    var w2 := On(ix, q, w1);
    v := On(h, q, w2);
    StoredOn(iy, q, w);
    StoredOn(ix, q, w1);
    StoredOn(h, q, w2);
    OnOnto(y, iy, q, w);
    OnOnto(x, ix, q, w1);
    OnOnto(h, h, q, w2);
    OnOn(x, h, q, v);
    OnOn(y, MatTimes(x, h), q, v);
  }

  lemma LayerOnto(r: real, pend: seq<Pending>, k: nat, w: Wave) returns (v: Wave)
    requires 2.0 * r * r == 1.0 && k <= |pend| && Stored(w)
    ensures Stored(v) && Layer(r, pend, k, v) == w
  {
    hide On, PendingMat, Layer, Stored;
    if k == 0 {
      v := w;
      LayerNone(r, pend, v);
    } else {
      var below := PendingOnto(r, pend[k - 1], k - 1, w);
      v := LayerOnto(r, pend, k - 1, below);
      LayerStep(r, pend, k, v);
    }
  }

  // ---------------------------------------------------------------- the trap

  const VACUUM: Table := map[{} := ONE]

  /** The state |0...0>. */
  ghost function Vacuum(): Wave { WaveOf(VACUUM) }

  lemma StoredVacuum()
    ensures Stored(Vacuum())
  {
  }

  /** H on the control and a CNOT do not commute on |0...0>. */
  lemma HCnotDiffer(r: real, c: nat, t: nat)
    requires 2.0 * r * r == 1.0 && c != t
    ensures !SameState(On(HMat(r), c, Controlled({c}, X_MAT, t, Vacuum())),
                       Controlled({c}, X_MAT, t, On(HMat(r), c, Vacuum())))
  {
    hide On, Controlled, Vacuum;
    LeftAt(r, c, t, {c, t});
    RightAt(r, c, t, {c, t});
    NonZero(r);
    DifferAt(On(HMat(r), c, Controlled({c}, X_MAT, t, Vacuum())),
             Controlled({c}, X_MAT, t, On(HMat(r), c, Vacuum())), {c, t});
  }

  lemma NonZero(r: real)
    requires 2.0 * r * r == 1.0
    ensures Real(r) != ZERO
  {
  }

  lemma DifferAt(v: Wave, w: Wave, l: Label)
    requires v[l] == ZERO && w[l] != ZERO
    ensures !SameState(v, w)
  {
    hide Norm, Times;
    if SameState(v, w) {
      var u: Complex :| Norm(u) == 1.0 && v == Scaled(u, w);
      assert v[l] == Times(u, w[l]);
      TimesZero(u, w[l]);
      NormPositive(u);
      assert false;
    }
  }

  lemma PairLabels(c: nat, t: nat)
    requires c != t
    ensures var l: Label := {c, t};
      l - {c} == {t} && l + {c} == l && l - {t} == {c} && l + {t} == l && {c} <= l
    ensures var l: Label := {c}; l - {c} == {} && l + {c} == l && !({c} <= {t})
  {
    assert c !in {t};
  }

  lemma LeftAt(r: real, c: nat, t: nat, l: Label)
    requires c != t && l == {c, t}
    ensures On(HMat(r), c, Controlled({c}, X_MAT, t, Vacuum()))[l] == ZERO
  {
    hide Times, Plus;
    PairLabels(c, t);
    var v := Controlled({c}, X_MAT, t, Vacuum());
    assert v[l] == Plus(Times(ONE, Vacuum()[{c}]), Times(ZERO, Vacuum()[l]));
    assert v[{t}] == ZERO;
    TimesUnit(ZERO);
    TimesNil(Real(r));
    TimesNil(Real(-r));
  }

  lemma RightAt(r: real, c: nat, t: nat, l: Label)
    requires c != t && l == {c, t}
    ensures Controlled({c}, X_MAT, t, On(HMat(r), c, Vacuum()))[l] == Real(r)
  {
    hide Times, Plus;
    PairLabels(c, t);
    var v := On(HMat(r), c, Vacuum());
    assert v[{c}] == Plus(Times(Real(r), Vacuum()[{}]), Times(Real(-r), Vacuum()[{c}]));
    TimesComm(Real(r), ONE);
    TimesUnit(Real(r));
    TimesNil(Real(-r));
    TimesUnit(v[{c}]);
    TimesUnit(v[l]);
  }

  /** In the trap the operation is queued under the control's H. */
  lemma TrapStep(s: Sim, c: nat, t: nat)
    requires Valid(s) && c < |s.pend| && t < |s.pend| && c != t && McxTrap(s, [c], t)
    ensures var s2 := Flush(s, [t], LevelRy);
      && StepMCX(s, [c], t) == Occupy(Push(s2, OpMCX({c}, t)), t)
      && s2.pend == s.pend[t := Flushed(s.pend[t], LevelRy)] && s2.queue == [] && s2.r == s.r
  {
    hide Denoted, SameState, Flush;
    FlushedFacts(s, [t], LevelRy);
    assert SetOf([c]) == {c};
    assert Flush(s, [t], LevelRy).pend == s.pend[t := Flushed(s.pend[t], LevelRy)];
  }

  lemma TrapPsi(s: Sim, t: nat, w: Wave) returns (psi: Wave)
    requires 2.0 * s.r * s.r == 1.0 && t < |s.pend| && s.pend[t].h && s.pend[t].y && Stored(w)
    ensures Stored(psi) && Flush(s.(psi := psi, queue := []), [t], LevelRy).psi == w
  {
    hide On, HMat, Rotated, RunQueue, MatTimes, Stored;
    var p := s.pend[t];
    var w1 := RotatedOnto(true, p.ay, t, w);
    var w2 := w1;
    if p.x {
      w2 := RotatedOnto(false, p.ax, t, w1);
    }
    HSquared(s.r);
    OnOnto(HMat(s.r), HMat(s.r), t, w2);
    StoredOn(HMat(s.r), t, w2);
    psi := On(HMat(s.r), t, w2);
    var s0 := s.(psi := psi, queue := []);
    DenotedIsAll(s0);
    assert FlushQueue(s0) == s0;
    assert [t][..0] == [];
    assert Flush(s0, [t], LevelRy) == FlushQubit(FlushQubits(s0, [], LevelRy), t, LevelRy);
    assert FlushQubit(s0, t, LevelRy) == FlushRy(FlushRx(FlushH(s0, t), t), t);
  }

  /** A stored state that all but the control's H turns into the vacuum, once the target is flushed. */
  lemma TrapState(s: Sim, c: nat, t: nat) returns (bad: Sim)
    requires Valid(s) && c < |s.pend| && t < |s.pend| && c != t && McxTrap(s, [c], t)
    ensures bad == s.(psi := bad.psi, queue := []) && Stored(bad.psi)
    ensures All(s.r, s.pend[t := Flushed(s.pend[t], LevelRy)][c := NOTHING], Flush(bad, [t], LevelRy).psi) == Vacuum()
  {
    hide HMat, On, RunQueue, Layer, SameState, Flush, Denoted, All, Vacuum, Stored;
    StoredVacuum();
    var rest := s.pend[t := Flushed(s.pend[t], LevelRy)][c := NOTHING];
    var v := LayerOnto(s.r, rest, |rest|, Vacuum());
    AllIsLayer(s.r, rest, v);
    var psi := TrapPsi(s, t, v);
    bad := s.(psi := psi, queue := []);
  }

  /** For every configuration in the trap there is a state, held by a table, that MCX gets wrong. */
  lemma TrapIsWrong(s: Sim, cs: seq<nat>, t: nat) returns (bad: Sim)
    requires Valid(s) && Legal(MCX(cs, t), |s.pend|) && McxTrap(s, cs, t)
    ensures bad == s.(psi := bad.psi, queue := []) && Stored(bad.psi)
    ensures !SameState(Denoted(StepMCX(bad, cs, t)), Apply(Ideal(MCX(cs, t), s.r), Denoted(bad)))
  {
    hide HMat, On, RunQueue, Layer, SameState, Flush, Denoted, All, Vacuum, StepMCX, Apply, Stored;
    var c := cs[0];
    assert cs == [c] && SetOf(cs) == {c};
    bad := TrapState(s, c, t);
    TrapStep(bad, c, t);
    var s2 := Flush(bad, [t], LevelRy);
    FlushedFacts(bad, [t], LevelRy);
    TrappedDenotes(s2, c, t);
    PushedDenotes(s2, OpMCX({c}, t));
    WrongAfterFlush(bad, s2, StepMCX(bad, cs, t), c, t);
  }

  /** Under the control's H alone, the queued operation is not the CNOT. */
  lemma TrappedDenotes(s2: Sim, c: nat, t: nat)
    requires 2.0 * s2.r * s2.r == 1.0 && c < |s2.pend| && t < |s2.pend| && c != t && s2.queue == []
    requires s2.pend[t].Nothing() && s2.pend[c].h && !s2.pend[c].x && !s2.pend[c].y
    requires All(s2.r, s2.pend[c := NOTHING], s2.psi) == Vacuum()
    ensures !SameState(Denoted(Push(s2, OpMCX({c}, t))), Apply(OnQubit({c}, X_MAT, t), Denoted(s2)))
  {
    hide On, HMat, RunQueue, MatTimes, PendingMat, Controlled, Layer, SameState, Denoted, All, Vacuum;
    var r, v, pend, rest := s2.r, s2.psi, s2.pend, s2.pend[c := NOTHING];
    DenotedIsAll(s2);
    PushedDenotes(s2, OpMCX({c}, t));
    McxIs({c}, t, v);
    HAlone(r, pend[c]);
    Focus(r, pend, c, v);
    Focus(r, pend, c, Controlled({c}, X_MAT, t, v));
    PassAll(r, rest, OnQubit({c}, X_MAT, t), v);
    HCnotDiffer(r, c, t);
  }

  /** A state that is wrong against the flushed state is wrong against the state before the flush. */
  lemma WrongAfterFlush(s: Sim, s2: Sim, wrong: Sim, c: nat, t: nat)
    requires SameState(Denoted(s2), Denoted(s))
    requires !SameState(Denoted(wrong), Apply(OnQubit({c}, X_MAT, t), Denoted(s2)))
    ensures !SameState(Denoted(wrong), Apply(OnQubit({c}, X_MAT, t), Denoted(s)))
  {
    hide SameState, Denoted, Apply;
    var cx := OnQubit({c}, X_MAT, t);
    if SameState(Denoted(wrong), Apply(cx, Denoted(s))) {
      SameSym(Denoted(s2), Denoted(s));
      SameApply(cx, Denoted(s), Denoted(s2));
      SameTrans(Denoted(wrong), Apply(cx, Denoted(s)), Apply(cx, Denoted(s2)));
      assert false;
    }
  }

  lemma HAlone(r: real, p: Pending)
    requires p.h && !p.x && !p.y
    ensures PendingMat(r, p) == HMat(r)
  {
    hide MatTimes, HMat;
    MatTimesIdentity(HMat(r));
  }

  /**
   MCX is queued faithfully, whatever table is stored and whatever is
   queued, if and only if it is not in the trap.
   */
  lemma McxFaithfulIff(s: Sim, cs: seq<nat>, t: nat)
    requires Valid(s) && Legal(MCX(cs, t), |s.pend|)
    ensures !McxTrap(s, cs, t) <==>
      forall m: Table, queue: seq<Operation> {:trigger s.(psi := WaveOf(m), queue := queue)} ::
        var any := s.(psi := WaveOf(m), queue := queue);
        SameState(Denoted(StepMCX(any, cs, t)), Apply(Ideal(MCX(cs, t), s.r), Denoted(any)))
  {
    hide Denoted, SameState, StepMCX, Apply, Ideal, WaveOf;
    if McxTrap(s, cs, t) {
      var bad := TrapIsWrong(s, cs, t);
      var m: Table :| WaveOf(m) == bad.psi;
      assert bad == s.(psi := WaveOf(m), queue := []);
    } else {
      forall m: Table, queue: seq<Operation>
        ensures var any := s.(psi := WaveOf(m), queue := queue);
          SameState(Denoted(StepMCX(any, cs, t)), Apply(Ideal(MCX(cs, t), s.r), Denoted(any)))
      {
        MCXPerforms(s.(psi := WaveOf(m), queue := queue), cs, t);
      }
    }
  }

  // ---------------------------------------------------------------- runs without Ry

  predicate NoRy(pend: seq<Pending>) { forall j :: 0 <= j < |pend| ==> !pend[j].y }

  ghost predicate Quiet(s: Sim) { Valid(s) && NoRy(s.pend) }

  lemma FlushKeepsNoRy(c: bool, s: Sim, qs: seq<nat>, level: Level)
    requires Quiet(s) && Within(qs, |s.pend|)
    ensures Quiet(if c then Flush(s, qs, level) else s)
  {
    hide Denoted, SameState, Flush;
    FlushedFacts(s, qs, level);
  }

  lemma ExecuteKeepsNoRy(s: Sim, qs: seq<nat>)
    requires Quiet(s) && Within(qs, |s.pend|)
    ensures Quiet(ExecuteIf(s, qs))
  {
    hide Denoted, SameState, ExecuteIf;
    ExecuteIfFacts(s, qs);
  }

  lemma SingleKeepsNoRy(s: Sim, g: Gate)
    requires Quiet(s) && Legal(g, |s.pend|)
    requires g.X? || g.Y? || g.Z? || g.H? || g.SWAP? || g.Phase? || (g.R? && !g.axis.PauliY?)
    ensures NoRy(Step(s, g).pend)
  {
    hide *;
    if g.X? || g.Y? || g.Z? || g.SWAP? {
      PlainKeepsNoRy(s, g);
    } else if g.R? {
      RotationKeepsNoRy(s, g);
    } else {
      MixedKeepsNoRy(s, g);
    }
  }

  lemma PlainKeepsNoRy(s: Sim, g: Gate)
    requires Quiet(s) && Legal(g, |s.pend|) && (g.X? || g.Y? || g.Z? || g.SWAP?)
    ensures NoRy(Step(s, g).pend)
  {
    hide Valid, Negated, Denoted, RunQueue, StepH, StepMCX, StepMCY, StepMCZ, StepMCH, StepPhase, StepMCPhase,
         StepCSWAP, StepR;
  }

  lemma MixedKeepsNoRy(s: Sim, g: Gate)
    requires Quiet(s) && Legal(g, |s.pend|) && (g.H? || g.Phase?)
    ensures NoRy(Step(s, g).pend)
  {
    hide Flush, ExecuteIf, Negated, RunQueue, StepX, StepY, StepZ, StepMCX, StepMCY, StepMCZ, StepMCH, StepMCPhase,
         StepSWAP, StepCSWAP, StepR;
    match g
    case H(q) => FlushKeepsNoRy(true, s, [q], LevelRx);
    case Phase(p, q) => ExecuteKeepsNoRy(s, [q]);
  }

  lemma RotationKeepsNoRy(s: Sim, g: Gate)
    requires Quiet(s) && Legal(g, |s.pend|) && g.R? && !g.axis.PauliY?
    ensures NoRy(Step(s, g).pend)
  {
    hide Flush, ExecuteIf, Sum, RunQueue, StepX, StepY, StepZ, StepH, StepMCX, StepMCY, StepMCZ, StepMCH, StepMCPhase,
         StepSWAP, StepCSWAP;
    var q := g.q;
    FlushKeepsNoRy(s.pend[q].x, s, [q], LevelQueue);
    var f := if s.pend[q].x then Flush(s, [q], LevelQueue) else s;
    FlushKeepsNoRy(f.pend[q].h, f, [q], LevelH);
    ExecuteKeepsNoRy(if f.pend[q].h then Flush(f, [q], LevelH) else f, [q]);
  }

  lemma ControlledKeepsNoRy(s: Sim, g: Gate)
    requires Quiet(s) && Legal(g, |s.pend|)
    requires (g.MCX? || g.MCY? || g.MCZ? || g.MCH? || g.MCPhase? || g.CSWAP?) && g.controls != []
    ensures NoRy(Step(s, g).pend)
  {
    hide *;
    if g.MCX? || g.MCY? || g.MCZ? {
      PauliKeepsNoRy(s, g);
    } else {
      OtherKeepsNoRy(s, g);
    }
  }

  lemma PauliKeepsNoRy(s: Sim, g: Gate)
    requires Quiet(s) && Legal(g, |s.pend|) && (g.MCX? || g.MCY? || g.MCZ?) && g.controls != []
    ensures NoRy(Step(s, g).pend)
  {
    hide *;
    match g
    case MCX(cs, q) => MCXKeepsNoRy(s, cs, q);
    case MCY(cs, q) => MCYKeepsNoRy(s, cs, q);
    case MCZ(cs, q) => MCZKeepsNoRy(s, cs, q);
  }

  lemma MCXKeepsNoRy(s: Sim, cs: seq<nat>, q: nat)
    requires Quiet(s) && Legal(MCX(cs, q), |s.pend|) && cs != []
    ensures NoRy(Step(s, MCX(cs, q)).pend)
  {
    hide Flush, ExecuteIf, RunQueue, Valid;
    ExecuteKeepsNoRy(s, cs);
    FlushKeepsNoRy(true, s, cs, LevelRy);
  }

  lemma MCYKeepsNoRy(s: Sim, cs: seq<nat>, q: nat)
    requires Quiet(s) && Legal(MCY(cs, q), |s.pend|) && cs != []
    ensures NoRy(Step(s, MCY(cs, q)).pend)
  {
    hide Flush, ExecuteIf, RunQueue;
    ExecuteKeepsNoRy(s, cs);
    var e := ExecuteIf(s, cs);
    FlushKeepsNoRy(e.pend[q].x, e, [q], LevelRx);
  }

  lemma MCZKeepsNoRy(s: Sim, cs: seq<nat>, q: nat)
    requires Quiet(s) && Legal(MCZ(cs, q), |s.pend|) && cs != []
    ensures NoRy(Step(s, MCZ(cs, q)).pend)
  {
    hide Flush, ExecuteIf, CountObstacles, FirstH, RunQueue;
    FlushKeepsNoRy(true, s, cs, LevelRy);
    FlushKeepsNoRy(true, Flush(s, cs, LevelRy), [q], LevelRy);
  }

  lemma OtherKeepsNoRy(s: Sim, g: Gate)
    requires Quiet(s) && Legal(g, |s.pend|) && (g.MCH? || g.MCPhase? || g.CSWAP?) && g.controls != []
    ensures NoRy(Step(s, g).pend)
  {
    hide *;
    match g
    case MCH(cs, q) => MCHKeepsNoRy(s, cs, q);
    case MCPhase(cs, p, q) => MCPhaseKeepsNoRy(s, cs, p, q);
    case CSWAP(cs, a, b) => CSWAPKeepsNoRy(s, cs, a, b);
  }

  lemma MCHKeepsNoRy(s: Sim, cs: seq<nat>, q: nat)
    requires Quiet(s) && Legal(MCH(cs, q), |s.pend|) && cs != []
    ensures NoRy(Step(s, MCH(cs, q)).pend)
  {
    hide Flush, ExecuteIf, Controlled, RunQueue;
    ExecuteKeepsNoRy(s, cs);
    FlushKeepsNoRy(true, ExecuteIf(s, cs), [q], LevelRy);
  }

  lemma MCPhaseKeepsNoRy(s: Sim, cs: seq<nat>, p: Complex, q: nat)
    requires Quiet(s) && Legal(MCPhase(cs, p, q), |s.pend|) && cs != []
    ensures NoRy(Step(s, MCPhase(cs, p, q)).pend)
  {
    hide Flush, ExecuteIf, RunQueue;
    ExecuteKeepsNoRy(s, cs);
    ExecuteKeepsNoRy(ExecuteIf(s, cs), [q]);
  }

  lemma CSWAPKeepsNoRy(s: Sim, cs: seq<nat>, a: nat, b: nat)
    requires Quiet(s) && Legal(CSWAP(cs, a, b), |s.pend|) && cs != []
    ensures NoRy(Step(s, CSWAP(cs, a, b)).pend)
  {
    hide Flush, ExecuteIf, RunQueue;
    var e := ExecuteIf(s, cs);
    var lo, hi := if a > b then b else a, if a > b then a else b;
    ExecuteKeepsNoRy(s, cs);
    ExecuteKeepsNoRy(e, [lo]);
    ExecuteKeepsNoRy(ExecuteIf(e, [lo]), [hi]);
  }

  lemma StepKeepsNoRy(s: Sim, g: Gate)
    requires Quiet(s) && Legal(g, |s.pend|) && !(g.R? && g.axis.PauliY?)
    ensures NoRy(Step(s, g).pend)
  {
    hide Valid, NoRy, StepX, StepY, StepZ, StepH, StepPhase, StepSWAP;
    match g
    case MCX(cs, q) => if cs == [] { SingleKeepsNoRy(s, X(q)); } else { ControlledKeepsNoRy(s, g); }
    case MCY(cs, q) => if cs == [] { SingleKeepsNoRy(s, Y(q)); } else { ControlledKeepsNoRy(s, g); }
    case MCZ(cs, q) => if cs == [] { SingleKeepsNoRy(s, Z(q)); } else { ControlledKeepsNoRy(s, g); }
    case MCH(cs, q) => if cs == [] { SingleKeepsNoRy(s, H(q)); } else { ControlledKeepsNoRy(s, g); }
    case MCPhase(cs, p, q) => if cs == [] { SingleKeepsNoRy(s, Phase(p, q)); } else { ControlledKeepsNoRy(s, g); }
    case CSWAP(cs, a, b) => if cs == [] { SingleKeepsNoRy(s, SWAP(a, b)); } else { ControlledKeepsNoRy(s, g); }
    case X(q) => SingleKeepsNoRy(s, g);
    case Y(q) => SingleKeepsNoRy(s, g);
    case Z(q) => SingleKeepsNoRy(s, g);
    case H(q) => SingleKeepsNoRy(s, g);
    case Phase(p, q) => SingleKeepsNoRy(s, g);
    case SWAP(a, b) => SingleKeepsNoRy(s, g);
    case R(axis, a, q) => SingleKeepsNoRy(s, g);
  }

  lemma {:induction false} RunKeepsNoRy(s: Sim, gates: seq<Gate>)
    requires Quiet(s) && forall i :: 0 <= i < |gates| ==> Legal(gates[i], |s.pend|)
    requires forall i :: 0 <= i < |gates| ==> !(gates[i].R? && gates[i].axis.PauliY?)
    ensures Quiet(Run(s, gates))
  {
    hide Step, Legal, Quiet;
    QuietSizes(s);
    if gates != [] {
      var n := |gates| - 1;
      RunKeepsNoRy(s, gates[..n]);
      StepQuiet(Run(s, gates[..n]), gates[n]);
    }
  }

  lemma QuietSizes(s: Sim)
    requires Quiet(s)
    ensures |s.occ| == |s.pend|
  {
  }

  lemma StepQuiet(s: Sim, g: Gate)
    requires Quiet(s) && Legal(g, |s.pend|) && !(g.R? && g.axis.PauliY?)
    ensures Quiet(Step(s, g))
  {
    hide Denoted, Step, Legal, NoRy, SameState, Ideal, Faithful;
    StepKeepsNoRy(s, g);
    NoRyIsFaithful(s, g);
    StepPerforms(s, g);
  }

  lemma NoRyIsFaithful(s: Sim, g: Gate)
    requires Quiet(s) && Legal(g, |s.pend|)
    ensures Faithful(s, g)
  {
  }

  /** Without Ry gates no run meets the trap, so every such run is executed faithfully. */
  lemma RunWithoutRy(s: Sim, gates: seq<Gate>)
    requires Valid(s) && NoRy(s.pend) && forall i :: 0 <= i < |gates| ==> Legal(gates[i], |s.pend|)
    requires forall i :: 0 <= i < |gates| ==> !(gates[i].R? && gates[i].axis.PauliY?)
    ensures SameState(FlushAll(Run(s, gates)).psi, RunIdeal(gates, s.r, Denoted(s)))
  {
    hide Denoted, SameState, Run, RunIdeal, FlushAll, Legal, Faithful, NoRy;
    forall i | 0 <= i < |gates| ensures FaithfulAfter(s, gates, i) {
      RunKeepsNoRy(s, gates[..i]);
      NoRyIsFaithful(Run(s, gates[..i]), gates[i]);
    }
    RunPerforms(s, gates);
  }
}
