/**
 Measurements draw their outcomes by the weights of the denoted state, whatever gates are pending. From a state of
 weight one they leave one, except when 0 is drawn for an outcome 1 that has no weight: then nothing is left.
 */
module BornRule {
  import opened Amplitudes
  import opened Operators
  import opened Gates
  import opened LazyQueue
  import opened LazyMeaning
  import opened LazySteps
  import opened McxTrapExact
  import McxTrapRun
  import opened Occupancy
  import opened Bounds
  import opened Kernels
  import opened BitsetOrder
  import opened PauliStrings
  import opened PauliKernels
  import opened JointMeasure
  import opened Weights
  import opened Sequences

  /** The weight of the part of a state in which a qubit has a value. */
  ghost function Chance(n: nat, t: nat, one: bool, w: Wave): real { Weight(n, On(ProjectMat(one, ONE), t, w)) }

  lemma ConfinedCovered(n: nat, w: Wave)
    requires Confined(n, w)
    ensures Covered(n, w)
  {
    forall l: Label | l !in Labels(n) ensures w[l] == ZERO {
      LabelIn(n, l);
      var q :| q in l && q >= n;
      assert QubitZero(q, w);
    }
  }

  lemma ProjectScaled(one: bool, k: Complex)
    ensures MatScaled(k, ProjectMat(one, ONE)) == ProjectMat(one, k)
  {
    hide Times;
    TimesComm(k, ONE);
    TimesUnit(k);
    TimesComm(k, ZERO);
  }

  lemma ProjectedWeight(n: nat, t: nat, one: bool, k: real, w: Wave)
    ensures Weight(n, On(ProjectMat(one, Real(k)), t, w)) == k * k * Chance(n, t, one, w)
  {
    hide Weight, On, Norm, ProjectMat, Scaled, MatScaled;
    ProjectScaled(one, Real(k));
    OnScaled(Real(k), ProjectMat(one, ONE), t, w);
    ScaledWeight(Real(k), n, On(ProjectMat(one, ONE), t, w));
    RealNorm(k, k);
    SquareTimes(Norm(Real(k)), k, Chance(n, t, one, w));
  }

  lemma SquareTimes(p: real, k: real, c: real)
    requires p == k * k
    ensures p * c == k * k * c
  {
  }

  /** Setting the kept bit to 0 conserves what is kept. */
  lemma ResetWeight(n: nat, t: nat, one: bool, k: real, w: Wave)
    requires t < n
    ensures Weight(n, On(ResetMat(one, Real(k)), t, w)) == k * k * Chance(n, t, one, w)
  {
    hide Weight, On, ProjectMat, ResetMat, Chance, MatTimes, Unitary;
    ProjectedWeight(n, t, one, k, w);
    ResetIsFlip(one, Real(k));
    if one {
      OnOn(X_MAT, ProjectMat(one, Real(k)), t, w);
      PauliUnitary();
      OnConserves(X_MAT, t, n, On(ProjectMat(one, Real(k)), t, w));
    }
  }

  lemma ResetIsFlip(one: bool, k: Complex)
    ensures ResetMat(one, k) == if one then MatTimes(X_MAT, ProjectMat(one, k)) else ProjectMat(one, k)
  {
    hide Times, Plus;
    TimesUnit(k);
    TimesUnit(ZERO);
  }

  /** A state with the same meaning, and what is stored of it, have the same weight. */
  lemma StoredWeight(n: nat, s: Sim)
    requires LazyQueue.Valid(s) && s.queue == [] && |s.pend| == n
    ensures Weight(n, Denoted(s)) == Weight(n, s.psi)
  {
    hide Weight, Layer;
    DenotedIsLayer(s);
    LayerConserves(s.r, s.pend, |s.pend|, n, s.psi);
  }

  /**
   Once what is pending on a qubit has run, the stored state gives its
   outcomes the chances the denoted state does.
   */
  lemma ChanceStored(s: Sim, t: nat, one: bool)
    requires Bounded(s) && t < |s.pend|
    ensures var f := Flush(s, [t], LevelRy);
      Confined(|s.pend|, f.psi) && Chance(|s.pend|, t, one, f.psi) == Chance(|s.pend|, t, one, Denoted(s))
  {
    hide Weight, On, ProjectMat, Flush, Denoted, SameState, RunQueue, QubitZero, Confined, Apply;
    var f, u, n := Flush(s, [t], LevelRy), ProjectMat(one, ONE), |s.pend|;
    FlushBounded(s, [t], LevelRy);
    MatrixAfterFlush(s, t, u);
    var m := f.(psi := On(u, t, f.psi));
    StoredWeight(n, m);
    OnIsApply(u, t, Denoted(s));
    SameWeight(n, Denoted(m), On(u, t, Denoted(s)));
  }

  /** What a measurement leaves weighs the chance of its outcome times the square of the normaliser. */
  lemma MeasuredWeight(s: Sim, t: nat, one: bool, k: real)
    requires LazyQueue.Valid(s) && t < |s.pend| && |s.occ| == |s.pend| && s.occ[t]
    ensures Weight(|s.pend|, Denoted(StepM(s, t, one, Real(k)).1)) == k * k * Chance(|s.pend|, t, one, Denoted(s))
    ensures Weight(|s.pend|, Denoted(StepReset(s, t, one, Real(k)))) == k * k * Chance(|s.pend|, t, one, Denoted(s))
  {
    hide Weight, On, ProjectMat, ResetMat, StepM, StepReset, Denoted, SameState, LazyQueue.Valid, Sound, Chance, Apply;
    var n, w := |s.pend|, Denoted(s);
    OutcomeIs(s, t, one, Real(k));
    MPerforms(s, t, one, Real(k));
    ResetPerforms(s, t, one, Real(k));
    OnIsApply(ProjectMat(one, Real(k)), t, w);
    OnIsApply(ResetMat(one, Real(k)), t, w);
    SameWeight(n, Denoted(StepM(s, t, one, Real(k)).1), On(ProjectMat(one, Real(k)), t, w));
    SameWeight(n, Denoted(StepReset(s, t, one, Real(k))), On(ResetMat(one, Real(k)), t, w));
    ProjectedWeight(n, t, one, k, w);
    ResetWeight(n, t, one, k, w);
  }

  lemma OutcomeIs(s: Sim, t: nat, one: bool, k: Complex)
    requires t < |s.pend| && |s.occ| == |s.pend| && s.occ[t]
    ensures StepM(s, t, one, k).0 == one
  {
    hide Flush, On;
  }

  /** A qubit that is not flagged has no chance to be measured 1. */
  lemma NoChance(s: Sim, t: nat)
    requires Sound(s) && t < |s.pend| && |s.occ| == |s.pend| && !s.occ[t]
    ensures Chance(|s.pend|, t, true, Denoted(s)) == 0.0
  {
    hide Denoted, Chance, QubitZero;
    UnoccupiedIsZero(s, t);
    ZeroChance(|s.pend|, t, Denoted(s));
  }

  lemma ZeroChance(n: nat, t: nat, v: Wave)
    requires QubitZero(t, v)
    ensures Chance(n, t, true, v) == 0.0
  {
    hide On, LabelSum, Norm, ProjectMat, QubitZero;
    var w := On(ProjectMat(true, ONE), t, v);
    forall l | l in Labels(n) ensures Norms(w)(l) == 0.0 {
      OneAt(t, v, l);
      UnitNorms();
    }
    SumNone(Labels(n), Norms(w));
  }

  lemma OneAt(t: nat, w: Wave, l: Label)
    requires QubitZero(t, w)
    ensures On(ProjectMat(true, ONE), t, w)[l] == ZERO
  {
    hide Times, Plus, On;
    OnAt(ProjectMat(true, ONE), t, w, l);
    assert t in l + {t};
    TimesUnit(w[l - {t}]);
    TimesUnit(w[l + {t}]);
    TimesUnit(ZERO);
  }

  // ---------------------------------------------------------------- when one is left

  /** The weights of the two outcomes add up to the weight of the state. */
  lemma ChancesAdd(n: nat, t: nat, w: Wave)
    ensures Chance(n, t, true, w) + Chance(n, t, false, w) == Weight(n, w)
    ensures Chance(n, t, true, w) >= 0.0 && Chance(n, t, false, w) >= 0.0
  {
    hide LabelSum, Labels, Norm, On, ProjectMat;
    var ones, zeros := On(ProjectMat(true, ONE), t, w), On(ProjectMat(false, ONE), t, w);
    WeightNonnegative(n, ones);
    WeightNonnegative(n, zeros);
    UnitNorms();
    forall l | l in Labels(n) ensures Norms(w)(l) == Norms(ones)(l) + Norms(zeros)(l) {
      KeptAt(t, true, w, l);
      KeptAt(t, false, w, l);
    }
    SumPlus(Labels(n), Norms(ones), Norms(zeros), Norms(w));
  }

  /** Of two weights that add up to one, a draw picks one that is not zero, unless it is 0 and so is the first. */
  lemma Drawn(c1: real, c0: real, sample: real, one: bool)
    requires c1 + c0 == 1.0 && c1 >= 0.0 && c0 >= 0.0 && 0.0 <= sample <= 1.0 && (one <==> sample <= c1)
    ensures (if one then c1 else c0) > 0.0 <==> !(sample == 0.0 && c1 == 0.0)
  {
  }

  /** The weight that is left of one: nothing if 0 was drawn for a qubit or product that had no weight at 1. */
  function UnitLeft(drawn: bool, sample: real, chance: real): real {
    if drawn && sample == 0.0 && chance == 0.0 then 0.0 else 1.0
  }

  /**
   A flagged qubit of a state of weight one is measured or reset. What is left weighs one, except when 0 was drawn and
   the qubit had no weight at 1: then the outcome is 1 all the same, and nothing is left.
   */
  lemma MeasuredUnitIff(s: Sim, t: nat, one: bool, sample: real, rsqrt: real -> real)
    requires LazyQueue.Valid(s) && t < |s.pend| && |s.occ| == |s.pend| && s.occ[t] && IsReciprocalRoot(rsqrt)
    requires Weight(|s.pend|, Denoted(s)) == 1.0 && 0.0 <= sample <= 1.0
    requires one <==> sample <= Chance(|s.pend|, t, true, Denoted(s))
    ensures var n, k := |s.pend|, Real(rsqrt(Chance(|s.pend|, t, one, Denoted(s))));
      var left := UnitLeft(true, sample, Chance(n, t, true, Denoted(s)));
      && Weight(n, Denoted(StepM(s, t, one, k).1)) == left
      && Weight(n, Denoted(StepReset(s, t, one, k))) == left
  {
    hide Weight, Chance, Denoted, StepM, StepReset, LazyQueue.Valid, IsReciprocalRoot;
    var n, w := |s.pend|, Denoted(s);
    ChancesAdd(n, t, w);
    Drawn(Chance(n, t, true, w), Chance(n, t, false, w), sample, one);
    UnitOrNothing(rsqrt, Chance(n, t, one, w));
    MeasuredWeight(s, t, one, rsqrt(Chance(n, t, one, w)));
  }

  /** The weights after a flagged qubit was measured or reset. */
  lemma MeasuredFacts(s: Sim, t: nat, one: bool, sample: real, rsqrt: real -> real)
    requires LazyQueue.Valid(s) && t < |s.pend| && |s.occ| == |s.pend| && s.occ[t]
    requires one <==> sample <= Chance(|s.pend|, t, true, Denoted(s))
    ensures var n, c := |s.pend|, Chance(|s.pend|, t, one, Denoted(s));
      var m, r := StepM(s, t, one, Real(rsqrt(c))).1, StepReset(s, t, one, Real(rsqrt(c)));
      && Weight(n, Denoted(m)) == rsqrt(c) * rsqrt(c) * c == Weight(n, Denoted(r))
      && (IsReciprocalRoot(rsqrt) && 0.0 <= sample <= 1.0 && Weight(n, Denoted(s)) == 1.0 ==>
            Weight(n, Denoted(m)) == UnitLeft(true, sample, Chance(n, t, true, Denoted(s))) == Weight(n, Denoted(r)))
  {
    hide *;
    MeasuredWeight(s, t, one, rsqrt(Chance(|s.pend|, t, one, Denoted(s))));
    if IsReciprocalRoot(rsqrt) && 0.0 <= sample <= 1.0 && Weight(|s.pend|, Denoted(s)) == 1.0 {
      MeasuredUnitIff(s, t, one, sample, rsqrt);
    }
  }

  lemma ReleasedFacts(s: Sim, t: nat, one: bool, sample: real, rsqrt: real -> real)
    requires Bounded(s) && t < |s.pend| && |s.occ| == |s.pend|
    requires one <==> sample <= Chance(|s.pend|, t, true, Denoted(s))
    ensures var n, k := |s.pend|, Real(rsqrt(Chance(|s.pend|, t, one, Denoted(s))));
      IsReciprocalRoot(rsqrt) && 0.0 <= sample <= 1.0 && Weight(n, Denoted(s)) == 1.0 ==>
        Weight(n, Denoted(StepRelease(s, t, one, k).1)) == 1.0
  {
    hide *;
    if IsReciprocalRoot(rsqrt) && 0.0 <= sample <= 1.0 && Weight(|s.pend|, Denoted(s)) == 1.0 {
      ReleasedUnit(s, t, one, sample, rsqrt);
    }
  }

  /** A stored amplitude for an outcome gives it weight. */
  lemma HasChance(n: nat, t: nat, one: bool, w: Wave)
    requires Confined(n, w) && Has(w, t, one)
    ensures Chance(n, t, one, w) > 0.0
  {
    hide On, Weight, Labels, Confined;
    ConfinedCovered(n, w);
    var l: Label :| w[l] != ZERO && ((t in l) <==> one);
    KeptAt(t, one, w, l);
    WeightNonnegative(n, On(ProjectMat(one, ONE), t, w));
  }

  /** A release resets only a qubit that has weight at both outcomes, so what it leaves always weighs one. */
  lemma ReleasedUnit(s: Sim, t: nat, one: bool, sample: real, rsqrt: real -> real)
    requires Bounded(s) && t < |s.pend| && |s.occ| == |s.pend| && IsReciprocalRoot(rsqrt)
    requires Weight(|s.pend|, Denoted(s)) == 1.0 && 0.0 <= sample <= 1.0
    requires one <==> sample <= Chance(|s.pend|, t, true, Denoted(s))
    ensures Weight(|s.pend|, Denoted(StepRelease(s, t, one, Real(rsqrt(Chance(|s.pend|, t, one, Denoted(s))))).1))
      == 1.0
  {
    hide Bounded, Weight, Chance, Denoted, Flush, Has, StepX, On, IsReciprocalRoot, StepReset, StepM;
    var n, k := |s.pend|, Real(rsqrt(Chance(|s.pend|, t, one, Denoted(s))));
    VacateDenotes(s, t);
    if s.occ[t] {
      var f := Flush(s, [t], LevelRy);
      FlushBounded(s, [t], LevelRy);
      FlushedWeight(s, [t]);
      VacateDenotes(f, t);
      if Has(f.psi, t, true) && Has(f.psi, t, false) {
        HasChance(n, t, true, f.psi);
        ChanceStored(s, t, true);
        BoundedValid(s);
        MeasuredUnitIff(s, t, one, sample, rsqrt);
        ReleaseIsReset(s, t, one, k);
      } else if Has(f.psi, t, true) {
        XWeight(f, t);
        XBounded(f, t);
        FlushedWeight(StepX(f, t), [t]);
        VacateDenotes(Flush(StepX(f, t), [t], LevelRy), t);
      }
    }
  }

  lemma BoundedValid(s: Sim)
    requires Bounded(s)
    ensures LazyQueue.Valid(s)
  {
    hide Confined, RunQueue;
  }

  lemma VacateDenotes(s: Sim, t: nat)
    ensures Denoted(Vacate(s, t)) == Denoted(s)
  {
    hide Layer, RunQueue;
  }

  lemma FlushedWeight(s: Sim, qs: seq<nat>)
    requires Bounded(s) && Within(qs, |s.pend|)
    ensures Weight(|s.pend|, Denoted(Flush(s, qs, LevelRy))) == Weight(|s.pend|, Denoted(s))
  {
    hide Weight, Denoted, Flush, SameState, Flushed, Confined, RunQueue;
    FlushedFacts(s, qs, LevelRy);
    SameWeight(|s.pend|, Denoted(Flush(s, qs, LevelRy)), Denoted(s));
  }

  /** A gate that is executed right and has a phase of modulus one conserves the weight of the denoted state. */
  lemma GateWeight(s: Sim, g: Gate)
    requires LazyQueue.Valid(s) && Legal(g, |s.pend|) && Faithful(s, g) && UnitPhase(g)
    ensures Weight(|s.pend|, Denoted(Step(s, g))) == Weight(|s.pend|, Denoted(s))
  {
    hide Weight, Denoted, Step, SameState, Apply, Ideal, Legal, Faithful, UnitPhase, Conserves;
    StepPerforms(s, g);
    IdealConserves(g, s.r, |s.pend|);
    ApplyConserves(Ideal(g, s.r), |s.pend|, Denoted(s));
    SameWeight(|s.pend|, Denoted(Step(s, g)), Apply(Ideal(g, s.r), Denoted(s)));
  }

  lemma XWeight(s: Sim, t: nat)
    requires Bounded(s) && t < |s.pend|
    ensures Weight(|s.pend|, Denoted(StepX(s, t))) == Weight(|s.pend|, Denoted(s))
  {
    hide Weight, Denoted, StepX, Confined, RunQueue;
    GateWeight(s, X(t));
  }

  lemma ReleaseIsReset(s: Sim, t: nat, one: bool, k: Complex)
    requires t < |s.pend| && |s.occ| == |s.pend| && s.occ[t]
    requires Has(Flush(s, [t], LevelRy).psi, t, true) && Has(Flush(s, [t], LevelRy).psi, t, false)
    ensures StepRelease(s, t, one, k) == (false, StepReset(s, t, one, k))
  {
    hide Flush, Has, On, StepX;
  }

  /** H twice on a qubit of the initial simulator: it is flagged and has no weight at 1. */
  lemma FlaggedInVain(s: Sim, q: nat)
    requires McxTrapRun.Initial(s) && q < |s.pend|
    ensures var t := Run(s, [H(q), H(q)]);
      && LazyQueue.Valid(t) && |t.pend| == |s.pend| && |t.occ| == |t.pend| && t.occ[q]
      && Denoted(t) == Vacuum() && Weight(|t.pend|, Denoted(t)) == 1.0 && Chance(|t.pend|, q, true, Denoted(t)) == 0.0
  {
    hide Weight, Chance, Denoted, Vacuum;
    TwiceHInitial(s, q);
    var t := Run(s, [H(q), H(q)]);
    McxTrapRun.InitialDenotes(t);
    VacuumIs();
    VacuumWeight(|s.pend|);
    ZeroChance(|s.pend|, q, Vacuum());
  }

  lemma VacuumIs()
    ensures Vacuum() == WaveOf(map[{} := ONE]) && forall q: nat :: QubitZero(q, Vacuum())
  {
  }

  lemma TwiceHInitial(s: Sim, q: nat)
    requires McxTrapRun.Initial(s) && q < |s.pend|
    ensures var t := Run(s, [H(q), H(q)]);
      McxTrapRun.Initial(t) && |t.pend| == |s.pend| && |t.occ| == |t.pend| && t.occ[q]
  {
    hide Vacuum, Flush;
    var g := [H(q), H(q)];
    assert g[..2] == g && g[..1][..0] == [] && g[..2][..1] == g[..1];
    McxTrapRun.LastGate(s, g, 0);
    McxTrapRun.LastGate(s, g, 1);
  }

  /**
   The run that empties the table: H twice on a qubit of the initial simulator, and a measurement for which 0 is
   drawn. The outcome is 1, and whatever the normaliser, what is left weighs nothing.
   */
  lemma EmptiedRun(s: Sim, q: nat, k: real)
    requires McxTrapRun.Initial(s) && q < |s.pend|
    ensures var t := Run(s, [H(q), H(q)]);
      && |t.pend| == |s.pend| && Weight(|t.pend|, Denoted(t)) == 1.0 && 0.0 <= Chance(|t.pend|, q, true, Denoted(t))
      && StepM(t, q, true, Real(k)).0 && Weight(|t.pend|, Denoted(StepM(t, q, true, Real(k)).1)) == 0.0
  {
    hide Weight, Chance, Denoted, Run, StepM, Vacuum, Step;
    FlaggedInVain(s, q);
    NothingLeft(Run(s, [H(q), H(q)]), q, k);
  }

  lemma NothingLeft(s: Sim, t: nat, k: real)
    requires LazyQueue.Valid(s) && t < |s.pend| && |s.occ| == |s.pend| && s.occ[t]
    requires Chance(|s.pend|, t, true, Denoted(s)) == 0.0
    ensures StepM(s, t, true, Real(k)).0 && Weight(|s.pend|, Denoted(StepM(s, t, true, Real(k)).1)) == 0.0
  {
    hide *;
    OutcomeIs(s, t, true, Real(k));
    MeasuredWeight(s, t, true, k);
  }

  // ---------------------------------------------------------------- joint measurements

  /** The weight of the part of a state in an eigenspace of a Pauli product. */
  ghost function JointChance(n: nat, axes: seq<Axis>, qs: seq<nat>, one: bool, w: Wave): real
    requires |axes| == |qs|
  {
    Weight(n, Combined(axes, qs, Real(0.5), Real(if one then -0.5 else 0.5), w))
  }

  /** Half of one minus or plus the expectation, as the simulator computes it from the entries. */
  lemma JointChanceIs(n: nat, axes: seq<Axis>, qs: seq<nat>, one: bool, k: real, w: Wave)
    requires |axes| == |qs| && Within(qs, n) && Weight(n, w) == 1.0
    ensures JointChance(n, axes, qs, one, w)
      == if one then 0.5 - 0.5 * Expectation(n, axes, qs, w) else 0.5 + 0.5 * Expectation(n, axes, qs, w)
    ensures Weight(n, Combined(axes, qs, Real(0.5 * k), Real(if one then -0.5 * k else 0.5 * k), w))
      == k * k * JointChance(n, axes, qs, one, w)
  {
    hide Weight, Combined, Expectation;
    HalfWeight(n, axes, qs, k, one, w);
    HalfWeight(n, axes, qs, 1.0, one, w);
    assert 0.5 * 1.0 == 0.5 && -0.5 * 1.0 == -0.5;
  }

  /** Once what is pending on the qubits has run, the stored state gives the outcomes their chances. */
  lemma JointChanceStored(s: Sim, axes: seq<Axis>, qs: seq<nat>, one: bool)
    requires Bounded(s) && |axes| == |qs| && Within(qs, |s.pend|)
    ensures var f := Flush(s, qs, LevelRy);
      && Confined(|s.pend|, f.psi) && Weight(|s.pend|, f.psi) == Weight(|s.pend|, Denoted(s))
      && JointChance(|s.pend|, axes, qs, one, f.psi) == JointChance(|s.pend|, axes, qs, one, Denoted(s))
  {
    hide Weight, Combined, Flush, Denoted, SameState, RunQueue, QubitZero, Confined, Layer, Pending.Nothing;
    var f, n := Flush(s, qs, LevelRy), |s.pend|;
    FlushBounded(s, qs, LevelRy);
    FlushedFacts(s, qs, LevelRy);
    StoredWeight(n, f);
    SameWeight(n, Denoted(f), Denoted(s));
    var id, pauli := Real(0.5), Real(if one then -0.5 else 0.5);
    SameCombined(axes, qs, id, pauli, Denoted(f), Denoted(s));
    SameWeight(n, Combined(axes, qs, id, pauli, Denoted(f)), Combined(axes, qs, id, pauli, Denoted(s)));
    DenotedIsLayer(f);
    LayerCombined(f.r, f.pend, |f.pend|, axes, qs, id, pauli, f.psi);
    LayerConserves(f.r, f.pend, |f.pend|, n, Combined(axes, qs, id, pauli, f.psi));
  }

  /** What the kernel adds up over the entries is the chance of each outcome. */
  lemma StoredChances(m: Table, s: Sim, t: nat)
    requires Bounded(s) && t < |s.pend| && WaveOf(m) == Flush(s, [t], LevelRy).psi
    ensures LabelSum(Part(m, t, true), Norms(WaveOf(m))) == Chance(|s.pend|, t, true, Denoted(s))
    ensures LabelSum(Part(m, t, false), Norms(WaveOf(m))) == Chance(|s.pend|, t, false, Denoted(s))
  {
    hide LabelSum, Part, Norms, WaveOf, Flush, Denoted, On, Chance, Confined, Covered, Bounded;
    ChanceStored(s, t, true);
    ChanceStored(s, t, false);
    ConfinedCovered(|s.pend|, WaveOf(m));
    PartChance(|s.pend|, m, t, true);
    PartChance(|s.pend|, m, t, false);
  }

  lemma PartChance(n: nat, m: Table, t: nat, one: bool)
    requires Covered(n, WaveOf(m))
    ensures LabelSum(Part(m, t, one), Norms(WaveOf(m))) == Chance(n, t, one, WaveOf(m))
  {
    hide LabelSum, Part, Norms, On, Covered, Weight, ProjectMat, Times;
    var w := On(ProjectMat(one, ONE), t, WaveOf(m));
    forall l: Label ensures w[l] == if t in l <==> one then AmplitudeOf(m, l) else ZERO {
      KeptAt(t, one, WaveOf(m), l);
    }
    PartWeight(n, m, t, one, w);
  }

  lemma KeptAt(t: nat, one: bool, w: Wave, l: Label)
    ensures On(ProjectMat(one, ONE), t, w)[l] == if t in l <==> one then w[l] else ZERO
  {
    hide Times, Plus, On;
    OnAt(ProjectMat(one, ONE), t, w, l);
    assert l == if t in l then l + {t} else l - {t};
    TimesUnit(w[l - {t}]);
    TimesUnit(w[l + {t}]);
    TimesUnit(ZERO);
  }

  lemma JointChancesAdd(n: nat, axes: seq<Axis>, qs: seq<nat>, w: Wave)
    requires |axes| == |qs| && Within(qs, n) && Weight(n, w) == 1.0
    ensures JointChance(n, axes, qs, true, w) + JointChance(n, axes, qs, false, w) == 1.0
    ensures JointChance(n, axes, qs, true, w) >= 0.0 && JointChance(n, axes, qs, false, w) >= 0.0
  {
    hide Weight, Combined, Expectation;
    JointChanceIs(n, axes, qs, true, 1.0, w);
    JointChanceIs(n, axes, qs, false, 1.0, w);
    WeightNonnegative(n, Combined(axes, qs, Real(0.5), Real(-0.5), w));
    WeightNonnegative(n, Combined(axes, qs, Real(0.5), Real(0.5), w));
  }

  /** The same of a joint measurement; one of identities only leaves the state as it was. */
  lemma JointUnitIff(s: Sim, axes: seq<Axis>, qs: seq<nat>, one: bool, sample: real, rsqrt: real -> real)
    requires LazyQueue.Valid(s) && |axes| == |qs| && NoDuplicates(qs) && Within(qs, |s.pend|)
    requires IsReciprocalRoot(rsqrt) && Weight(|s.pend|, Denoted(s)) == 1.0 && 0.0 <= sample <= 1.0
    requires one <==> sample <= JointChance(|s.pend|, axes, qs, true, Denoted(s))
    ensures var n := |s.pend|;
      Weight(n, Denoted(StepMeasure(s, axes, qs, one, rsqrt(JointChance(n, axes, qs, one, Denoted(s))))))
      == UnitLeft(!Trivial(axes), sample, JointChance(n, axes, qs, true, Denoted(s)))
  {
    hide Weight, JointChance, Denoted, StepMeasure, LazyQueue.Valid, Trivial, IsReciprocalRoot, NoDuplicates;
    var n, w := |s.pend|, Denoted(s);
    var k := rsqrt(JointChance(n, axes, qs, one, w));
    if Trivial(axes) {
      TrivialWeight(s, axes, qs, one, k);
    } else {
      JointChancesAdd(n, axes, qs, w);
      Drawn(JointChance(n, axes, qs, true, w), JointChance(n, axes, qs, false, w), sample, one);
      UnitOrNothing(rsqrt, JointChance(n, axes, qs, one, w));
      JointMeasuredWeight(s, axes, qs, one, k);
    }
  }

  /** The weights after a joint measurement of a state of weight one. */
  lemma JointFacts(s: Sim, axes: seq<Axis>, qs: seq<nat>, one: bool, sample: real, rsqrt: real -> real)
    requires LazyQueue.Valid(s) && |axes| == |qs| && NoDuplicates(qs) && Within(qs, |s.pend|)
    requires Weight(|s.pend|, Denoted(s)) == 1.0
    requires one <==> sample <= JointChance(|s.pend|, axes, qs, true, Denoted(s))
    ensures var n, c := |s.pend|, JointChance(|s.pend|, axes, qs, one, Denoted(s));
      var m := StepMeasure(s, axes, qs, one, rsqrt(c));
      && (!Trivial(axes) ==> Weight(n, Denoted(m)) == rsqrt(c) * rsqrt(c) * c)
      && (IsReciprocalRoot(rsqrt) && 0.0 <= sample <= 1.0 ==>
            Weight(n, Denoted(m)) == UnitLeft(!Trivial(axes), sample, JointChance(n, axes, qs, true, Denoted(s))))
  {
    hide Weight, JointChance, Denoted, StepMeasure, LazyQueue.Valid, Trivial, IsReciprocalRoot, NoDuplicates, UnitLeft;
    if !Trivial(axes) {
      JointMeasuredWeight(s, axes, qs, one, rsqrt(JointChance(|s.pend|, axes, qs, one, Denoted(s))));
    }
    if IsReciprocalRoot(rsqrt) && 0.0 <= sample <= 1.0 {
      JointUnitIff(s, axes, qs, one, sample, rsqrt);
    }
  }

  lemma TrivialWeight(s: Sim, axes: seq<Axis>, qs: seq<nat>, one: bool, k: real)
    requires LazyQueue.Valid(s) && |axes| == |qs| && NoDuplicates(qs) && Within(qs, |s.pend|) && Trivial(axes)
    ensures Weight(|s.pend|, Denoted(StepMeasure(s, axes, qs, one, k))) == Weight(|s.pend|, Denoted(s))
  {
    hide Weight, Denoted, StepMeasure, LazyQueue.Valid, SameState, PauliString, NoDuplicates;
    MeasurePerforms(s, axes, qs, one, k);
    SameWeight(|s.pend|, Denoted(StepMeasure(s, axes, qs, one, k)), Denoted(s));
  }

  /**
   What follows when Y was measured on a qubit that was not flagged: a measurement of that qubit answers 0 without
   a draw and leaves the state, though the state gives 1 a chance.
   */
  lemma UnflaggedMisread(s: Sim, axes: seq<Axis>, qs: seq<nat>, one: bool, k: real, i: nat, drawn: bool, k2: Complex)
    requires Sound(s) && |axes| == |qs| && NoDuplicates(qs) && Within(qs, |s.pend|) && |s.occ| == |s.pend|
    requires i < |axes| && axes[i].PauliY? && !s.occ[qs[i]]
    requires k != 0.0 && Weight(|s.pend|, Denoted(s)) > 0.0
    ensures var t := StepMeasure(s, axes, qs, one, k);
      && |t.occ| == |t.pend| == |s.pend| && StepM(t, qs[i], drawn, k2) == (false, t)
      && Chance(|t.pend|, qs[i], true, Denoted(t)) > 0.0
  {
    hide Denoted, QubitZero, StepMeasure, Sound, Weight, Chance, Confined, Has, Bounded, NoDuplicates, Flush, On;
    var n, t := |s.pend|, StepMeasure(s, axes, qs, one, k);
    var l := SomeAmplitude(n, Denoted(s));
    UnflaggedFlips(s, axes, qs, one, k, l, i);
    SoundBounded(s);
    MeasureBounded(s, axes, qs, one, k);
    DenotedConfined(t);
    NotZeroHas(qs[i], Denoted(t));
    HasChance(n, qs[i], true, Denoted(t));
  }

  lemma NotZeroHas(q: nat, w: Wave)
    requires !QubitZero(q, w)
    ensures Has(w, q, true)
  {
  }

  /** A state of some weight has an amplitude. */
  lemma SomeAmplitude(n: nat, w: Wave) returns (l: Label)
    requires Weight(n, w) > 0.0
    ensures w[l] != ZERO
  {
    hide LabelSum, Labels, Norm;
    if forall j: Label :: w[j] == ZERO {
      UnitNorms();
      forall j | j in Labels(n) ensures Norms(w)(j) == 0.0 {}
      SumNone(Labels(n), Norms(w));
    }
    l :| w[l] != ZERO;
  }

  /** A bounded simulator denotes a state of its own qubits. */
  lemma DenotedConfined(s: Sim)
    requires Bounded(s)
    ensures Confined(|s.pend|, Denoted(s))
  {
    hide QubitZero, RunQueue, Layer;
    forall q: nat | q >= |s.pend| ensures QubitZero(q, Denoted(s)) {
      LayerKeepsZero(s.r, s.pend, |s.pend|, q, RunQueue(s.queue, s.psi));
    }
  }

  /** So on the initial simulator: Y measured and then the qubit itself, answered 0 against a chance of 1. */
  lemma InitialYMisread(s: Sim, q: nat, one: bool, k: real, drawn: bool, k2: Complex)
    requires McxTrapRun.Initial(s) && q < |s.pend| && k != 0.0 && forall j :: 0 <= j < |s.occ| ==> !s.occ[j]
    ensures var t := StepMeasure(s, [PauliY], [q], one, k);
      && |t.occ| == |t.pend| == |s.pend| && StepM(t, q, drawn, k2) == (false, t)
      && Chance(|t.pend|, q, true, Denoted(t)) > 0.0
  {
    hide Denoted, StepMeasure, Sound, Weight, Chance, Flush, On, StepM;
    InitialSound(s);
    McxTrapRun.InitialDenotes(s);
    VacuumIs();
    VacuumWeight(|s.pend|);
    assert [PauliY][0].PauliY? && !s.occ[[q][0]];
    UnflaggedMisread(s, [PauliY], [q], one, k, 0, drawn, k2);
  }

  /** What the kernel adds up over the entries gives the chances of a joint measurement. */
  lemma JointOutcome(m: Table, s: Sim, axes: seq<Axis>, qs: seq<nat>)
    requires Bounded(s) && |axes| == |qs| && NoDuplicates(qs) && Within(qs, |s.pend|)
    requires WaveOf(m) == Flush(s, qs, LevelRy).psi && Weight(|s.pend|, Denoted(s)) == 1.0
    ensures var p := 0.5 - 0.5 * LabelSum(m.Keys, Contribution(axes, qs, WaveOf(m)));
      && p == JointChance(|s.pend|, axes, qs, true, Denoted(s))
      && 1.0 - p == JointChance(|s.pend|, axes, qs, false, Denoted(s))
  {
    hide LabelSum, WaveOf, Flush, Denoted, Confined, Covered, Bounded, JointChance, Contribution, Weight, Expectation,
         Combined;
    var n := |s.pend|;
    JointChanceStored(s, axes, qs, true);
    JointChanceStored(s, axes, qs, false);
    ConfinedCovered(n, WaveOf(m));
    ExpectationOfEntries(n, axes, qs, m);
    JointChanceIs(n, axes, qs, true, 1.0, WaveOf(m));
    JointChanceIs(n, axes, qs, false, 1.0, WaveOf(m));
  }

  lemma JointMeasuredWeight(s: Sim, axes: seq<Axis>, qs: seq<nat>, one: bool, k: real)
    requires LazyQueue.Valid(s) && |axes| == |qs| && NoDuplicates(qs) && Within(qs, |s.pend|)
    requires Weight(|s.pend|, Denoted(s)) == 1.0 && !Trivial(axes)
    ensures Weight(|s.pend|, Denoted(StepMeasure(s, axes, qs, one, k)))
      == k * k * JointChance(|s.pend|, axes, qs, one, Denoted(s))
  {
    hide StepMeasure, Denoted, JointChance, Weight, Combined, SameState, LazyQueue.Valid, PauliString, Scaled;
    var n, w := |s.pend|, Denoted(s);
    MeasurePerforms(s, axes, qs, one, k);
    var id, pauli := Real(0.5 * k), Real(if one then -0.5 * k else 0.5 * k);
    CombinationIs(axes, qs, id, pauli, w);
    SameWeight(n, Denoted(StepMeasure(s, axes, qs, one, k)), Combined(axes, qs, id, pauli, w));
    JointChanceIs(n, axes, qs, one, k, w);
  }

  /** Once what is pending on the qubits has run, the entries fit the width and give the outcomes their chances. */
  lemma StoredOutcome(m: Table, s: Sim, axes: seq<Axis>, qs: seq<nat>)
    requires Bounded(s) && |axes| == |qs| && NoDuplicates(qs) && Within(qs, |s.pend|)
    requires WaveOf(m) == Flush(s, qs, LevelRy).psi && NoZeros(m)
    ensures Fits(m, |s.pend|)
    ensures var p := 0.5 - 0.5 * LabelSum(m.Keys, Contribution(axes, qs, WaveOf(m)));
      Weight(|s.pend|, Denoted(s)) == 1.0 ==>
        && p == JointChance(|s.pend|, axes, qs, true, Denoted(s))
        && 1.0 - p == JointChance(|s.pend|, axes, qs, false, Denoted(s))
  {
    hide *;
    JointChanceStored(s, axes, qs, true);
    CleanFits(m, |s.pend|);
    if Weight(|s.pend|, Denoted(s)) == 1.0 {
      JointOutcome(m, s, axes, qs);
    }
  }

  /** Without stored zeros the entries' labels lie within the qubits. */
  lemma CleanFits(m: Table, n: nat)
    requires NoZeros(m) && Confined(n, WaveOf(m))
    ensures Fits(m, n)
  {
    hide Confined;
    ConfinedCovered(n, WaveOf(m));
    forall l | l in m ensures FitsIn(l, n) {
      LabelIn(n, l);
      assert WaveOf(m)[l] != ZERO;
    }
  }

  lemma VacuumWeight(n: nat)
    ensures Weight(n, WaveOf(map[{} := ONE])) == 1.0
  {
    hide LabelSum, Norm;
    var m: Table := map[{} := ONE];
    LabelIn(n, {});
    UnitNorms();
    forall l | l in Labels(n) && l !in m.Keys ensures Norms(WaveOf(m))(l) == 0.0 {
      assert WaveOf(m)[l] == ZERO;
    }
    SumWithin(m.Keys, Labels(n), Norms(WaveOf(m)));
    TotalOne({}, ONE);
  }
}
