/**
 Whole programs: gates mixed with measurements, joint measurements, resets and releases. The simulator gives the
 answers the textbook gives for the same draws, and denotes the state the textbook leaves.
 */
module Programs {
  import opened Sequences
  import opened Amplitudes
  import opened Operators
  import opened Gates
  import opened LazyQueue
  import opened LazyMeaning
  import opened LazySteps
  import opened Occupancy
  import opened Bounds
  import opened PauliStrings
  import opened PauliKernels
  import opened JointMeasure
  import opened Weights
  import opened BornRule

  /** One call of the simulator, with the number its random generator returns. */
  datatype Command =
    | Do(g: Gate)
    | MeasureOne(t: nat, sample: real)
    | ResetOne(t: nat, sample: real)
    | ReleaseOne(t: nat, sample: real)
    | MeasureJoint(axes: seq<Axis>, qs: seq<nat>, sample: real)

  predicate LegalCommand(c: Command, n: nat) {
    match c
    case Do(g) => Legal(g, n)
    case MeasureJoint(axes, qs, _) => |axes| == |qs| && NoDuplicates(qs) && Within(qs, n)
    case _ => c.t < n
  }

  predicate LegalCommands(cs: seq<Command>, n: nat) { forall i :: 0 <= i < |cs| ==> LegalCommand(cs[i], n) }

  // ---------------------------------------------------------------- the textbook

  /** The factor that brings what is kept of a qubit back to weight one. */
  ghost function Factor(n: nat, t: nat, one: bool, rsqrt: real -> real, w: Wave): Complex {
    Real(rsqrt(Chance(n, t, one, w)))
  }

  ghost function JointFactor(n: nat, axes: seq<Axis>, qs: seq<nat>, one: bool, rsqrt: real -> real, w: Wave): real
    requires |axes| == |qs|
  {
    rsqrt(JointChance(n, axes, qs, one, w))
  }

  ghost function MeasuredWave(n: nat, rsqrt: real -> real, t: nat, sample: real, w: Wave): (seq<bool>, Wave) {
    var one := sample <= Chance(n, t, true, w);
    ([one], On(ProjectMat(one, Factor(n, t, one, rsqrt, w)), t, w))
  }

  ghost function ResetWave(n: nat, rsqrt: real -> real, t: nat, sample: real, w: Wave): (seq<bool>, Wave) {
    var one := sample <= Chance(n, t, true, w);
    ([], On(ResetMat(one, Factor(n, t, one, rsqrt, w)), t, w))
  }

  /** A release is a reset that answers whether one of the outcomes was certain. */
  ghost function ReleasedWave(n: nat, rsqrt: real -> real, t: nat, sample: real, w: Wave): (seq<bool>, Wave) {
    ([Chance(n, t, true, w) == 0.0 || Chance(n, t, false, w) == 0.0], ResetWave(n, rsqrt, t, sample, w).1)
  }

  ghost function JointWave(n: nat, rsqrt: real -> real, axes: seq<Axis>, qs: seq<nat>, sample: real, w: Wave)
    : (seq<bool>, Wave)
    requires |axes| == |qs|
  {
    var one := sample <= JointChance(n, axes, qs, true, w);
    var k := JointFactor(n, axes, qs, one, rsqrt, w);
    ([one], Combined(axes, qs, Real(0.5 * k), Real(if one then -0.5 * k else 0.5 * k), w))
  }

  /** What a command answers and leaves of a state: an operator applied, or a part projected out and normalised. */
  ghost function Textbook(n: nat, r: real, rsqrt: real -> real, c: Command, w: Wave): (seq<bool>, Wave)
    requires LegalCommand(c, n)
  {
    match c
    case Do(g) => ([], Apply(Ideal(g, r), w))
    case MeasureOne(t, sample) => MeasuredWave(n, rsqrt, t, sample, w)
    case ResetOne(t, sample) => ResetWave(n, rsqrt, t, sample, w)
    case ReleaseOne(t, sample) => ReleasedWave(n, rsqrt, t, sample, w)
    case MeasureJoint(axes, qs, sample) => JointWave(n, rsqrt, axes, qs, sample, w)
  }

  /** The answers of a program, in order, and the state it leaves. */
  ghost function TextbookRun(n: nat, r: real, rsqrt: real -> real, cs: seq<Command>, w: Wave): (seq<bool>, Wave)
    requires LegalCommands(cs, n)
  {
    if cs == [] then ([], w)
    else
      var before := TextbookRun(n, r, rsqrt, cs[..|cs| - 1], w);
      var last := Textbook(n, r, rsqrt, cs[|cs| - 1], before.1);
      (before.0 + last.0, last.1)
  }

  // ---------------------------------------------------------------- the simulator

  ghost function MeasuredSim(s: Sim, rsqrt: real -> real, t: nat, sample: real): (result: (seq<bool>, Sim))
    requires t < |s.pend| == |s.occ|
    ensures SameShape(s, result.1)
  {
    hide Flush, Denoted, Chance, On;
    var one := sample <= Chance(|s.pend|, t, true, Denoted(s));
    var m := StepM(s, t, one, Factor(|s.pend|, t, one, rsqrt, Denoted(s)));
    ([m.0], m.1)
  }

  ghost function ResetSim(s: Sim, rsqrt: real -> real, t: nat, sample: real): (result: (seq<bool>, Sim))
    requires t < |s.pend| == |s.occ|
    ensures SameShape(s, result.1)
  {
    hide Flush, Denoted, Chance, On;
    var one := sample <= Chance(|s.pend|, t, true, Denoted(s));
    ([], StepReset(s, t, one, Factor(|s.pend|, t, one, rsqrt, Denoted(s))))
  }

  ghost function ReleasedSim(s: Sim, rsqrt: real -> real, t: nat, sample: real): (result: (seq<bool>, Sim))
    requires t < |s.pend| == |s.occ|
    ensures SameShape(s, result.1)
  {
    hide StepRelease, Denoted, Chance;
    var one := sample <= Chance(|s.pend|, t, true, Denoted(s));
    var m := StepRelease(s, t, one, Factor(|s.pend|, t, one, rsqrt, Denoted(s)));
    ([m.0], m.1)
  }

  ghost function JointSim(s: Sim, rsqrt: real -> real, axes: seq<Axis>, qs: seq<nat>, sample: real)
    : (result: (seq<bool>, Sim))
    requires |axes| == |qs| && Within(qs, |s.pend|)
    ensures SameShape(s, result.1)
  {
    hide StepMeasure, Denoted, JointChance;
    var one := sample <= JointChance(|s.pend|, axes, qs, true, Denoted(s));
    ([one], StepMeasure(s, axes, qs, one, JointFactor(|s.pend|, axes, qs, one, rsqrt, Denoted(s))))
  }

  /** What a command answers and makes of the simulator. */
  ghost function Executed(s: Sim, rsqrt: real -> real, c: Command): (result: (seq<bool>, Sim))
    requires |s.occ| == |s.pend| && LegalCommand(c, |s.pend|)
    ensures SameShape(s, result.1)
  {
    hide Step, MeasuredSim, ResetSim, ReleasedSim, JointSim, Legal, NoDuplicates;
    match c
    case Do(g) => ([], Step(s, g))
    case MeasureOne(t, sample) => MeasuredSim(s, rsqrt, t, sample)
    case ResetOne(t, sample) => ResetSim(s, rsqrt, t, sample)
    case ReleaseOne(t, sample) => ReleasedSim(s, rsqrt, t, sample)
    case MeasureJoint(axes, qs, sample) => JointSim(s, rsqrt, axes, qs, sample)
  }

  ghost function CommandRun(s: Sim, rsqrt: real -> real, cs: seq<Command>): (result: (seq<bool>, Sim))
    requires |s.occ| == |s.pend| && LegalCommands(cs, |s.pend|)
    ensures SameShape(s, result.1)
  {
    if cs == [] then ([], s)
    else
      var before := CommandRun(s, rsqrt, cs[..|cs| - 1]);
      var last := Executed(before.1, rsqrt, cs[|cs| - 1]);
      (before.0 + last.0, last.1)
  }

  /** A number the generator may return, other than the 0 that picks an outcome without weight. */
  predicate Drawable(sample: real, chance: real) { 0.0 <= sample <= 1.0 && !(sample == 0.0 && chance == 0.0) }

  /**
   Where the simulator follows the textbook: a gate is executed right, phases have modulus one, no draw picks
   an outcome without weight, and what is measured along Y is flagged.
   */
  ghost predicate Followed(s: Sim, c: Command)
    requires |s.occ| == |s.pend| && LegalCommand(c, |s.pend|)
  {
    hide Faithful, UnitPhase, FollowedOne, FollowedJoint, Legal, NoDuplicates;
    match c
    case Do(g) => Faithful(s, g) && UnitPhase(g)
    case MeasureOne(t, sample) => FollowedOne(s, t, sample)
    case ResetOne(t, sample) => FollowedOne(s, t, sample)
    case ReleaseOne(t, sample) => FollowedOne(s, t, sample)
    case MeasureJoint(axes, qs, sample) => FollowedJoint(s, axes, qs, sample)
  }

  ghost predicate FollowedOne(s: Sim, t: nat, sample: real) {
    Drawable(sample, Chance(|s.pend|, t, true, Denoted(s)))
  }

  ghost predicate FollowedJoint(s: Sim, axes: seq<Axis>, qs: seq<nat>, sample: real)
    requires |s.occ| == |s.pend| && |axes| == |qs| && Within(qs, |s.pend|)
  {
    && Drawable(sample, JointChance(|s.pend|, axes, qs, true, Denoted(s)))
    && forall i :: 0 <= i < |axes| && axes[i].PauliY? ==> s.occ[qs[i]]
  }

  ghost predicate FollowedRun(s: Sim, rsqrt: real -> real, cs: seq<Command>)
    requires |s.occ| == |s.pend| && LegalCommands(cs, |s.pend|)
  {
    forall i {:trigger cs[i]} :: 0 <= i < |cs| ==> Followed(CommandRun(s, rsqrt, cs[..i]).1, cs[i])
  }

  /** What every command keeps. */
  ghost predicate Normal(s: Sim) { Sound(s) && |s.occ| == |s.pend| && Weight(|s.pend|, Denoted(s)) == 1.0 }

  /** A simulator's answers and state agree with the textbook's, up to a global phase. */
  ghost predicate Agrees(ours: (seq<bool>, Sim), theirs: (seq<bool>, Wave)) {
    ours.0 == theirs.0 && SameState(Denoted(ours.1), theirs.1)
  }

  // ---------------------------------------------------------------- an outcome that is certain

  lemma NoAmplitude(n: nat, t: nat, one: bool, w: Wave)
    requires !Has(w, t, one)
    ensures Chance(n, t, one, w) == 0.0
  {
    hide LabelSum, Labels, Norm, On, ProjectMat;
    var v := On(ProjectMat(one, ONE), t, w);
    UnitNorms();
    forall l | l in Labels(n) ensures Norms(v)(l) == 0.0 {
      KeptAt(t, one, w, l);
    }
    SumNone(Labels(n), Norms(v));
  }

  /** There is an amplitude for an outcome exactly when it has weight. */
  lemma HasIffChance(n: nat, t: nat, one: bool, w: Wave)
    requires Confined(n, w)
    ensures Has(w, t, one) <==> Chance(n, t, one, w) != 0.0
  {
    hide Has, Chance, Confined;
    if Has(w, t, one) {
      HasChance(n, t, one, w);
    } else {
      NoAmplitude(n, t, one, w);
    }
  }

  /** Projecting to an outcome that is certain changes nothing. */
  lemma CertainKeeps(n: nat, t: nat, one: bool, w: Wave)
    requires Confined(n, w) && Chance(n, t, !one, w) == 0.0
    ensures On(ProjectMat(one, ONE), t, w) == w
  {
    hide Chance, Confined, On, ProjectMat;
    HasIffChance(n, t, !one, w);
    forall l: Label ensures On(ProjectMat(one, ONE), t, w)[l] == w[l] {
      KeptAt(t, one, w, l);
    }
    SameWave(On(ProjectMat(one, ONE), t, w), w);
  }

  /** The draw settles on a certain outcome, and the factor is one. */
  lemma CertainDraw(n: nat, t: nat, sample: real, rsqrt: real -> real, w: Wave)
    requires Weight(n, w) == 1.0 && IsReciprocalRoot(rsqrt) && Drawable(sample, Chance(n, t, true, w))
    ensures Chance(n, t, true, w) == 0.0 ==>
      !(sample <= Chance(n, t, true, w)) && Factor(n, t, false, rsqrt, w) == ONE
    ensures Chance(n, t, false, w) == 0.0 ==>
      sample <= Chance(n, t, true, w) && Factor(n, t, true, rsqrt, w) == ONE
  {
    hide Chance, Weight, IsReciprocalRoot;
    ChancesAdd(n, t, w);
    RootOfOne(rsqrt);
  }

  lemma RootOfOne(rsqrt: real -> real)
    requires IsReciprocalRoot(rsqrt)
    ensures rsqrt(1.0) == 1.0
  {
    SquareOne(rsqrt(1.0));
  }

  lemma SquareOne(k: real)
    requires k > 0.0 && k * k * 1.0 == 1.0
    ensures k == 1.0
  {
    assert (k - 1.0) * (k + 1.0) == 0.0;
  }

  // ---------------------------------------------------------------- one qubit

  lemma NormalFacts(s: Sim)
    requires Normal(s)
    ensures Sound(s) && LazyQueue.Valid(s) && Bounded(s) && |s.occ| == |s.pend| && Weight(|s.pend|, Denoted(s)) == 1.0
    ensures Confined(|s.pend|, Denoted(s))
  {
    hide Sound, Bounded, Confined, Weight, Denoted;
    SoundBounded(s);
    BoundedValid(s);
    DenotedConfined(s);
  }

  lemma MeasureOneFollows(s: Sim, rsqrt: real -> real, t: nat, sample: real)
    requires Normal(s) && t < |s.pend| && IsReciprocalRoot(rsqrt)
    requires Drawable(sample, Chance(|s.pend|, t, true, Denoted(s)))
    ensures var m := MeasuredSim(s, rsqrt, t, sample);
      Normal(m.1) && Agrees(m, MeasuredWave(|s.pend|, rsqrt, t, sample, Denoted(s)))
  {
    hide Sound, Chance, Weight, Denoted, StepM, On, ProjectMat, SameState, Apply, IsReciprocalRoot, LazyQueue.Valid,
         Bounded, Confined;
    NormalFacts(s);
    var n, w := |s.pend|, Denoted(s);
    var one := sample <= Chance(n, t, true, w);
    var k := Factor(n, t, one, rsqrt, w);
    MSound(s, t, one, k);
    MPerforms(s, t, one, k);
    if s.occ[t] {
      OutcomeIs(s, t, one, k);
      MeasuredUnitIff(s, t, one, sample, rsqrt);
      OnIsApply(ProjectMat(one, k), t, w);
    } else {
      NoChance(s, t);
      CertainDraw(n, t, sample, rsqrt, w);
      IdleM(s, t, one, k);
      OnIsApply(ProjectMat(false, ONE), t, w);
    }
  }

  lemma IdleM(s: Sim, t: nat, one: bool, k: Complex)
    requires t < |s.pend| && |s.occ| == |s.pend| && !s.occ[t]
    ensures StepM(s, t, one, k) == (false, s) && StepReset(s, t, one, k) == s
  {
    hide Flush, On;
  }

  /** On a qubit that is not flagged the draw does not matter. */
  lemma IdleBoth(s: Sim, rsqrt: real -> real, t: nat, sample: real, one: bool, k: Complex)
    requires t < |s.pend| == |s.occ|
    ensures !s.occ[t] ==> StepM(s, t, one, k) == (false, s) && MeasuredSim(s, rsqrt, t, sample) == ([false], s)
    ensures !s.occ[t] ==> StepReset(s, t, one, k) == s && ResetSim(s, rsqrt, t, sample) == ([], s)
  {
    hide Flush, On, Denoted, Chance;
  }

  lemma ResetOneFollows(s: Sim, rsqrt: real -> real, t: nat, sample: real)
    requires Normal(s) && t < |s.pend| && IsReciprocalRoot(rsqrt)
    requires Drawable(sample, Chance(|s.pend|, t, true, Denoted(s)))
    ensures var m := ResetSim(s, rsqrt, t, sample);
      Normal(m.1) && Agrees(m, ResetWave(|s.pend|, rsqrt, t, sample, Denoted(s)))
  {
    hide Sound, Chance, Weight, Denoted, StepReset, On, ResetMat, SameState, Apply, IsReciprocalRoot, LazyQueue.Valid,
         Bounded, Confined;
    NormalFacts(s);
    var n, w := |s.pend|, Denoted(s);
    var one := sample <= Chance(n, t, true, w);
    var k := Factor(n, t, one, rsqrt, w);
    ResetSound(s, t, one, k);
    ResetPerforms(s, t, one, k);
    if s.occ[t] {
      MeasuredUnitIff(s, t, one, sample, rsqrt);
      OnIsApply(ResetMat(one, k), t, w);
    } else {
      NoChance(s, t);
      CertainDraw(n, t, sample, rsqrt, w);
      IdleM(s, t, one, k);
      OnIsApply(ResetMat(false, ONE), t, w);
    }
  }

  /** A release finds a basis state exactly when one of the outcomes has no weight. */
  lemma ReleaseFinds(s: Sim, t: nat, one: bool, k: Complex)
    requires Normal(s) && t < |s.pend|
    ensures var n, w := |s.pend|, Denoted(s);
      StepRelease(s, t, one, k).0 <==> Chance(n, t, true, w) == 0.0 || Chance(n, t, false, w) == 0.0
  {
    hide Sound, Chance, Weight, Denoted, Flush, Has, On, StepX, Bounded, Confined, LazyQueue.Valid;
    NormalFacts(s);
    var n, f := |s.pend|, Flush(s, [t], LevelRy);
    if s.occ[t] {
      forall b ensures Has(f.psi, t, b) <==> Chance(n, t, b, Denoted(s)) != 0.0 {
        ChanceStored(s, t, b);
        HasIffChance(n, t, b, f.psi);
      }
    } else {
      NoChance(s, t);
    }
  }

  /** Freeing a qubit that is certain to be 0, or flipping one that is certain to be 1, is resetting it. */
  lemma CertainReset(n: nat, t: nat, one: bool, w: Wave)
    requires Confined(n, w) && Chance(n, t, !one, w) == 0.0
    ensures On(ResetMat(one, ONE), t, w) == if one then On(X_MAT, t, w) else w
  {
    hide Chance, Confined, On, ProjectMat, ResetMat, MatTimes;
    CertainKeeps(n, t, one, w);
    ResetIsFlip(one, ONE);
    OnOn(X_MAT, ProjectMat(one, ONE), t, w);
  }

  /** What a release leaves when no reset is needed. */
  lemma ReleaseKeeps(s: Sim, t: nat, one: bool, k: Complex, value: bool)
    requires Normal(s) && t < |s.pend| && Chance(|s.pend|, t, !value, Denoted(s)) == 0.0
    ensures SameState(Denoted(StepRelease(s, t, one, k).1), On(ResetMat(value, ONE), t, Denoted(s)))
  {
    hide Sound, Chance, Weight, Denoted, Flush, Has, On, StepX, Bounded, Confined, LazyQueue.Valid, SameState, ResetMat;
    NormalFacts(s);
    var n, w := |s.pend|, Denoted(s);
    CertainReset(n, t, value, w);
    VacateDenotes(s, t);
    SameRefl(w);
    if s.occ[t] {
      ReleaseKeepsFlagged(s, t, one, k, value);
    } else {
      NoChance(s, t);
      ChancesAdd(n, t, w);
    }
  }

  lemma ReleaseKeepsFlagged(s: Sim, t: nat, one: bool, k: Complex, value: bool)
    requires Normal(s) && t < |s.pend| && Chance(|s.pend|, t, !value, Denoted(s)) == 0.0 && s.occ[t]
    ensures SameState(Denoted(StepRelease(s, t, one, k).1),
                      if value then On(X_MAT, t, Denoted(s)) else Denoted(s))
  {
    hide Sound, Chance, Weight, Denoted, Flush, Has, On, StepX, Bounded, Confined, LazyQueue.Valid, SameState, Flushed,
         Apply;
    NormalFacts(s);
    var n, w, f := |s.pend|, Denoted(s), Flush(s, [t], LevelRy);
    FlushedFacts(s, [t], LevelRy);
    ChancesAdd(n, t, w);
    forall b ensures Has(f.psi, t, b) <==> Chance(n, t, b, w) != 0.0 {
      ChanceStored(s, t, b);
      HasIffChance(n, t, b, f.psi);
    }
    if value {
      var x := StepX(f, t);
      XPerforms(f, t);
      FlushedFacts(x, [t], LevelRy);
      VacateDenotes(Flush(x, [t], LevelRy), t);
      OnIsApply(X_MAT, t, Denoted(f));
      SameOn(X_MAT, t, Denoted(f), w);
      SameTrans(Denoted(x), On(X_MAT, t, Denoted(f)), On(X_MAT, t, w));
      SameTrans(Denoted(Flush(x, [t], LevelRy)), Denoted(x), On(X_MAT, t, w));
    } else {
      VacateDenotes(f, t);
    }
  }

  lemma ReleaseOneFollows(s: Sim, rsqrt: real -> real, t: nat, sample: real)
    requires Normal(s) && t < |s.pend| && IsReciprocalRoot(rsqrt)
    requires Drawable(sample, Chance(|s.pend|, t, true, Denoted(s)))
    ensures var m := ReleasedSim(s, rsqrt, t, sample);
      Normal(m.1) && Agrees(m, ReleasedWave(|s.pend|, rsqrt, t, sample, Denoted(s)))
  {
    hide Sound, Chance, Weight, Denoted, StepRelease, StepReset, On, ResetMat, SameState, Apply, IsReciprocalRoot,
         LazyQueue.Valid, Bounded, Confined, Flush, Has;
    NormalFacts(s);
    var n, w := |s.pend|, Denoted(s);
    var one := sample <= Chance(n, t, true, w);
    var k := Factor(n, t, one, rsqrt, w);
    ReleaseSound(s, t, one, k);
    ReleaseFinds(s, t, one, k);
    ReleasedUnit(s, t, one, sample, rsqrt);
    CertainDraw(n, t, sample, rsqrt, w);
    if Chance(n, t, !one, w) == 0.0 {
      ReleaseKeeps(s, t, one, k, one);
    } else if Chance(n, t, one, w) != 0.0 {
      ReleaseResets(s, t, one, k);
      ResetPerforms(s, t, one, k);
      OnIsApply(ResetMat(one, k), t, w);
    }
  }

  lemma ReleaseResets(s: Sim, t: nat, one: bool, k: Complex)
    requires Normal(s) && t < |s.pend|
    requires Chance(|s.pend|, t, true, Denoted(s)) != 0.0 && Chance(|s.pend|, t, false, Denoted(s)) != 0.0
    ensures s.occ[t] && StepRelease(s, t, one, k) == (false, StepReset(s, t, one, k))
  {
    hide Sound, Chance, Weight, Denoted, StepRelease, StepReset, Flush, Has, Bounded, Confined;
    NormalFacts(s);
    if !s.occ[t] {
      NoChance(s, t);
    }
    var f := Flush(s, [t], LevelRy);
    ChanceStored(s, t, true);
    ChanceStored(s, t, false);
    HasIffChance(|s.pend|, t, true, f.psi);
    HasIffChance(|s.pend|, t, false, f.psi);
    ReleaseIsReset(s, t, one, k);
  }

  // ---------------------------------------------------------------- Pauli products

  lemma {:induction false} TrivialString(axes: seq<Axis>, qs: seq<nat>, w: Wave)
    requires |axes| == |qs| && Trivial(axes)
    ensures PauliString(axes, qs, w) == w
  {
    hide On;
    if axes != [] {
      var n := |axes| - 1;
      TrivialString(axes[..n], qs[..n], w);
      OnIdentity(qs[n], w);
    }
  }

  /** A product of identities is 0 for certain, and measuring it changes nothing. */
  lemma TrivialCombined(n: nat, axes: seq<Axis>, qs: seq<nat>, w: Wave)
    requires |axes| == |qs| && Trivial(axes)
    ensures JointChance(n, axes, qs, true, w) == 0.0 && Combined(axes, qs, Real(0.5), Real(0.5), w) == w
  {
    hide LabelSum, Labels, Norm, PauliString, Trivial;
    TrivialString(axes, qs, w);
    var v := Combined(axes, qs, Real(0.5), Real(-0.5), w);
    UnitNorms();
    forall l | l in Labels(n) ensures Norms(v)(l) == 0.0 {
      Halves(w[l]);
    }
    SumNone(Labels(n), Norms(v));
    var u := Combined(axes, qs, Real(0.5), Real(0.5), w);
    forall l: Label ensures u[l] == w[l] {
      Halves(w[l]);
    }
    SameWave(u, w);
  }

  lemma Halves(z: Complex)
    ensures Plus(Times(Real(0.5), z), Times(Real(-0.5), z)) == ZERO
    ensures Plus(Times(Real(0.5), z), Times(Real(0.5), z)) == z
  {
  }

  /** The draw for a product of identities is settled, and the combination leaves the state. */
  lemma TrivialDraw(n: nat, axes: seq<Axis>, qs: seq<nat>, sample: real, rsqrt: real -> real, w: Wave)
    requires |axes| == |qs| && Within(qs, n) && Trivial(axes) && Weight(n, w) == 1.0 && IsReciprocalRoot(rsqrt)
    requires Drawable(sample, JointChance(n, axes, qs, true, w))
    ensures !(sample <= JointChance(n, axes, qs, true, w)) && JointFactor(n, axes, qs, false, rsqrt, w) == 1.0
    ensures JointWave(n, rsqrt, axes, qs, sample, w).1 == w
  {
    hide JointChance, Weight, Combined, IsReciprocalRoot, Trivial;
    TrivialCombined(n, axes, qs, w);
    JointChancesAdd(n, axes, qs, w);
    RootOfOne(rsqrt);
    assert 0.5 * 1.0 == 0.5;
  }

  lemma JointDenotes(s: Sim, rsqrt: real -> real, axes: seq<Axis>, qs: seq<nat>, sample: real)
    requires LazyQueue.Valid(s) && |axes| == |qs| && NoDuplicates(qs) && Within(qs, |s.pend|)
    requires IsReciprocalRoot(rsqrt) && Weight(|s.pend|, Denoted(s)) == 1.0
    requires Drawable(sample, JointChance(|s.pend|, axes, qs, true, Denoted(s)))
    ensures Agrees(JointSim(s, rsqrt, axes, qs, sample), JointWave(|s.pend|, rsqrt, axes, qs, sample, Denoted(s)))
  {
    hide JointChance, Weight, Denoted, StepMeasure, SameState, Combined, IsReciprocalRoot, LazyQueue.Valid, Trivial,
         NoDuplicates, PauliString, Scaled, Drawable;
    var n, w := |s.pend|, Denoted(s);
    var one := sample <= JointChance(n, axes, qs, true, w);
    MeasurePerforms(s, axes, qs, one, JointFactor(n, axes, qs, one, rsqrt, w));
    if Trivial(axes) {
      TrivialDraw(n, axes, qs, sample, rsqrt, w);
    }
  }

  lemma MeasureJointFollows(s: Sim, rsqrt: real -> real, axes: seq<Axis>, qs: seq<nat>, sample: real)
    requires Normal(s) && |s.occ| == |s.pend| && IsReciprocalRoot(rsqrt)
    requires |axes| == |qs| && NoDuplicates(qs) && Within(qs, |s.pend|)
    requires Drawable(sample, JointChance(|s.pend|, axes, qs, true, Denoted(s)))
    requires forall i :: 0 <= i < |axes| && axes[i].PauliY? ==> s.occ[qs[i]]
    ensures var m := JointSim(s, rsqrt, axes, qs, sample);
      Normal(m.1) && Agrees(m, JointWave(|s.pend|, rsqrt, axes, qs, sample, Denoted(s)))
  {
    hide Sound, JointChance, Weight, Denoted, StepMeasure, Agrees, IsReciprocalRoot, LazyQueue.Valid, Bounded, Confined,
         NoDuplicates, JointWave;
    NormalFacts(s);
    var n, w := |s.pend|, Denoted(s);
    var one := sample <= JointChance(n, axes, qs, true, w);
    FlaggedMeasureSound(s, axes, qs, one, JointFactor(n, axes, qs, one, rsqrt, w));
    JointDenotes(s, rsqrt, axes, qs, sample);
    JointUnitIff(s, axes, qs, one, sample, rsqrt);
  }

  // ---------------------------------------------------------------- one command

  lemma DoFollows(s: Sim, rsqrt: real -> real, g: Gate)
    requires Normal(s) && Legal(g, |s.pend|) && Faithful(s, g) && UnitPhase(g)
    ensures Normal(Step(s, g)) && SameState(Denoted(Step(s, g)), Apply(Ideal(g, s.r), Denoted(s)))
  {
    hide Sound, Weight, Denoted, Step, SameState, Apply, Ideal, Legal, Faithful, UnitPhase, LazyQueue.Valid, Bounded,
         Confined;
    NormalFacts(s);
    StepSound(s, g);
    StepPerforms(s, g);
    GateWeight(s, g);
  }

  /** One command gives the textbook's answer and state, and keeps the flags sound and the weight at one. */
  lemma CommandFollows(s: Sim, rsqrt: real -> real, c: Command)
    requires Normal(s) && |s.occ| == |s.pend| && IsReciprocalRoot(rsqrt)
    requires LegalCommand(c, |s.pend|) && Followed(s, c)
    ensures Normal(Executed(s, rsqrt, c).1)
    ensures Agrees(Executed(s, rsqrt, c), Textbook(|s.pend|, s.r, rsqrt, c, Denoted(s)))
  {
    hide MeasuredSim, ResetSim, ReleasedSim, JointSim, MeasuredWave, ResetWave, ReleasedWave, JointWave, Normal, Step,
         Apply, SameState, Faithful, UnitPhase, NoDuplicates, Denoted, Chance, JointChance, IsReciprocalRoot, Drawable,
         Legal;
    match c
    case Do(g) => DoFollows(s, rsqrt, g);
    case MeasureOne(t, sample) => MeasureOneFollows(s, rsqrt, t, sample);
    case ResetOne(t, sample) => ResetOneFollows(s, rsqrt, t, sample);
    case ReleaseOne(t, sample) => ReleaseOneFollows(s, rsqrt, t, sample);
    case MeasureJoint(axes, qs, sample) => MeasureJointFollows(s, rsqrt, axes, qs, sample);
  }

  // ---------------------------------------------------------------- whole programs

  lemma SameChance(n: nat, t: nat, one: bool, v: Wave, w: Wave)
    requires SameState(v, w)
    ensures Chance(n, t, one, v) == Chance(n, t, one, w)
  {
    hide Weight, On, ProjectMat, SameState;
    SameOn(ProjectMat(one, ONE), t, v, w);
    SameWeight(n, On(ProjectMat(one, ONE), t, v), On(ProjectMat(one, ONE), t, w));
  }

  lemma SameJointChance(n: nat, axes: seq<Axis>, qs: seq<nat>, one: bool, v: Wave, w: Wave)
    requires |axes| == |qs| && SameState(v, w)
    ensures JointChance(n, axes, qs, one, v) == JointChance(n, axes, qs, one, w)
  {
    hide Weight, Combined, SameState;
    var id, pauli := Real(0.5), Real(if one then -0.5 else 0.5);
    SameCombined(axes, qs, id, pauli, v, w);
    SameWeight(n, Combined(axes, qs, id, pauli, v), Combined(axes, qs, id, pauli, w));
  }

  /** The textbook does not look at a global phase. */
  lemma TextbookSame(n: nat, r: real, rsqrt: real -> real, c: Command, v: Wave, w: Wave)
    requires LegalCommand(c, n) && SameState(v, w)
    ensures Textbook(n, r, rsqrt, c, v).0 == Textbook(n, r, rsqrt, c, w).0
    ensures SameState(Textbook(n, r, rsqrt, c, v).1, Textbook(n, r, rsqrt, c, w).1)
  {
    hide Chance, JointChance, On, Apply, Ideal, Combined, SameState, ProjectMat, ResetMat, Legal, NoDuplicates;
    match c
    case Do(g) => SameApply(Ideal(g, r), v, w);
    case MeasureJoint(axes, qs, sample) =>
      var one := sample <= JointChance(n, axes, qs, true, w);
      SameJointChance(n, axes, qs, true, v, w);
      SameJointChance(n, axes, qs, one, v, w);
      var k := JointFactor(n, axes, qs, one, rsqrt, w);
      SameCombined(axes, qs, Real(0.5 * k), Real(if one then -0.5 * k else 0.5 * k), v, w);
    case _ =>
      SameChance(n, c.t, true, v, w);
      SameChance(n, c.t, false, v, w);
      var one := c.sample <= Chance(n, c.t, true, w);
      SameOn(ProjectMat(one, Factor(n, c.t, one, rsqrt, w)), c.t, v, w);
      SameOn(ResetMat(one, Factor(n, c.t, one, rsqrt, w)), c.t, v, w);
  }

  /** One more command, when the run before it agrees with the textbook. */
  lemma FollowsNext(n: nat, rsqrt: real -> real, c: Command, s: Sim, w: Wave)
    requires Normal(s) && |s.occ| == |s.pend| == n && IsReciprocalRoot(rsqrt) && LegalCommand(c, n) && Followed(s, c)
    requires SameState(Denoted(s), w)
    ensures Normal(Executed(s, rsqrt, c).1)
    ensures Agrees(Executed(s, rsqrt, c), Textbook(n, s.r, rsqrt, c, w))
  {
    hide Executed, Textbook, Normal, Denoted, Followed, LegalCommand, IsReciprocalRoot, SameState;
    CommandFollows(s, rsqrt, c);
    TextbookSame(n, s.r, rsqrt, c, Denoted(s), w);
    SameTrans(Denoted(Executed(s, rsqrt, c).1), Textbook(n, s.r, rsqrt, c, Denoted(s)).1,
              Textbook(n, s.r, rsqrt, c, w).1);
  }

  lemma FollowedBefore(s: Sim, rsqrt: real -> real, cs: seq<Command>)
    requires |s.occ| == |s.pend| && LegalCommands(cs, |s.pend|) && cs != [] && FollowedRun(s, rsqrt, cs)
    ensures FollowedRun(s, rsqrt, cs[..|cs| - 1])
    ensures Followed(CommandRun(s, rsqrt, cs[..|cs| - 1]).1, cs[|cs| - 1])
  {
    hide CommandRun, Followed, LegalCommand;
    var n := |cs| - 1;
    forall i | 0 <= i < n ensures Followed(CommandRun(s, rsqrt, cs[..n][..i]).1, cs[..n][i]) {
      assert cs[..n][..i] == cs[..i] && cs[..n][i] == cs[i];
    }
  }

  /** One more command of a run. */
  lemma FollowedNext(s: Sim, rsqrt: real -> real, cs: seq<Command>, i: nat)
    requires |s.occ| == |s.pend| && LegalCommands(cs, |s.pend|) && i < |cs| && FollowedRun(s, rsqrt, cs)
    requires Normal(CommandRun(s, rsqrt, cs[..i]).1) && IsReciprocalRoot(rsqrt)
    ensures var (before, t) := CommandRun(s, rsqrt, cs[..i]);
      && LegalCommand(cs[i], |t.pend|) && Followed(t, cs[i]) && Normal(Executed(t, rsqrt, cs[i]).1)
      && CommandRun(s, rsqrt, cs[..i + 1]) == (before + Executed(t, rsqrt, cs[i]).0, Executed(t, rsqrt, cs[i]).1)
  {
    hide Executed, Followed, LegalCommand, Normal, IsReciprocalRoot, CommandRun;
    RunMore(s, rsqrt, cs, i);
    CommandFollows(CommandRun(s, rsqrt, cs[..i]).1, rsqrt, cs[i]);
  }

  lemma RunMore(s: Sim, rsqrt: real -> real, cs: seq<Command>, i: nat)
    requires |s.occ| == |s.pend| && LegalCommands(cs, |s.pend|) && i < |cs|
    ensures var (before, t) := CommandRun(s, rsqrt, cs[..i]);
      CommandRun(s, rsqrt, cs[..i + 1]) == (before + Executed(t, rsqrt, cs[i]).0, Executed(t, rsqrt, cs[i]).1)
  {
    hide Executed, LegalCommand;
    assert cs[..i + 1][..i] == cs[..i];
  }

  /** A draw that picks an outcome of some weight gives a factor that is not zero. */
  lemma DrawnNonzero(s: Sim, t: nat, sample: real, rsqrt: real -> real)
    requires Weight(|s.pend|, Denoted(s)) == 1.0 && IsReciprocalRoot(rsqrt)
    requires Drawable(sample, Chance(|s.pend|, t, true, Denoted(s)))
    ensures var one := sample <= Chance(|s.pend|, t, true, Denoted(s));
      rsqrt(Chance(|s.pend|, t, one, Denoted(s))) != 0.0
  {
    hide Chance, Weight, Denoted;
    ChancesAdd(|s.pend|, t, Denoted(s));
  }

  lemma JointDrawnNonzero(s: Sim, axes: seq<Axis>, qs: seq<nat>, sample: real, rsqrt: real -> real)
    requires |axes| == |qs| && Within(qs, |s.pend|) && Weight(|s.pend|, Denoted(s)) == 1.0 && IsReciprocalRoot(rsqrt)
    requires Drawable(sample, JointChance(|s.pend|, axes, qs, true, Denoted(s)))
    ensures var one := sample <= JointChance(|s.pend|, axes, qs, true, Denoted(s));
      rsqrt(JointChance(|s.pend|, axes, qs, one, Denoted(s))) != 0.0
  {
    hide JointChance, Weight, Denoted;
    JointChancesAdd(|s.pend|, axes, qs, Denoted(s));
  }

  /**
   A program of gates, measurements, resets and releases gives the answers of the textbook, in order, and denotes
   the state the textbook leaves, up to a global phase; its flags stay sound and its weight stays one.
   */
  lemma {:induction false} ProgramFollows(s: Sim, rsqrt: real -> real, cs: seq<Command>)
    requires Normal(s) && IsReciprocalRoot(rsqrt) && LegalCommands(cs, |s.pend|) && FollowedRun(s, rsqrt, cs)
    ensures Normal(CommandRun(s, rsqrt, cs).1)
    ensures Agrees(CommandRun(s, rsqrt, cs), TextbookRun(|s.pend|, s.r, rsqrt, cs, Denoted(s)))
  {
    hide Executed, Textbook, Denoted, Followed, FollowedRun, LegalCommand, IsReciprocalRoot, SameState, Sound, Weight;
    if cs == [] {
      SameRefl(Denoted(s));
    } else {
      var n := |cs| - 1;
      FollowedBefore(s, rsqrt, cs);
      ProgramFollows(s, rsqrt, cs[..n]);
      FollowsNext(|s.pend|, rsqrt, cs[n], CommandRun(s, rsqrt, cs[..n]).1,
                  TextbookRun(|s.pend|, s.r, rsqrt, cs[..n], Denoted(s)).1);
    }
  }

  lemma RunNone(s: Sim, rsqrt: real -> real)
    requires |s.occ| == |s.pend|
    ensures CommandRun(s, rsqrt, []) == ([], s)
  {
  }

  /** Run to the end, the program stores what the textbook leaves. */
  lemma ProgramStores(s: Sim, rsqrt: real -> real, cs: seq<Command>)
    requires Normal(s) && |s.occ| == |s.pend| && IsReciprocalRoot(rsqrt)
    requires LegalCommands(cs, |s.pend|) && FollowedRun(s, rsqrt, cs)
    ensures var (a, t) := CommandRun(s, rsqrt, cs);
      var (b, w) := TextbookRun(|s.pend|, s.r, rsqrt, cs, Denoted(s));
      && a == b && SameState(FlushAll(t).psi, w) && Normal(t) && Weight(|s.pend|, FlushAll(t).psi) == 1.0
      && |FlushAll(t).pend| == |t.pend| == |s.pend|
  {
    hide CommandRun, TextbookRun, Denoted, FollowedRun, LegalCommand, IsReciprocalRoot, SameState, Sound, Weight,
         FlushAll;
    ProgramFollows(s, rsqrt, cs);
    var t := CommandRun(s, rsqrt, cs).1;
    FlushAllStores(t);
    SameTrans(FlushAll(t).psi, Denoted(t), TextbookRun(|s.pend|, s.r, rsqrt, cs, Denoted(s)).1);
    SameWeight(|s.pend|, FlushAll(t).psi, Denoted(t));
  }
}
