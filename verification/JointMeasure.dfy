/**
 Joint measurement of a Pauli product on the lazy simulator: it projects the denoted state, and it keeps
 the occupancy flags sound except for a Y on a qubit that is not flagged.
 */
module JointMeasure {
  import opened Sequences
  import opened Amplitudes
  import opened Operators
  import opened Gates
  import opened LazyQueue
  import opened LazyMeaning
  import opened LazySteps
  import opened McxTrapExact
  import McxTrapRun
  import opened Occupancy
  import opened Bounds
  import opened BitsetOrder
  import opened PauliStrings
  import opened PauliKernels

  /** The qubits measured along X. */
  function XQubits(axes: seq<Axis>, qs: seq<nat>): (xs: seq<nat>)
    requires |axes| == |qs|
    ensures forall q :: q in xs ==> q in qs
    ensures forall m: nat :: Within(qs, m) ==> Within(xs, m)
    ensures Trivial(axes) ==> xs == []
  {
    if axes == [] then []
    else
      var n := |axes| - 1;
      var xs := XQubits(axes[..n], qs[..n]);
      assert forall m: nat :: Within(qs, m) ==> Within(qs[..n], m);
      if axes[n].PauliX? then xs + [qs[n]] else xs
  }

  lemma {:induction false} XQubitsDistinct(axes: seq<Axis>, qs: seq<nat>, size: nat)
    requires |axes| == |qs| && NoDuplicates(qs) && Within(qs, size)
    ensures NoDuplicates(XQubits(axes, qs)) && Within(XQubits(axes, qs), size)
    ensures forall i :: 0 <= i < |axes| ==> (axes[i].PauliX? <==> qs[i] in XQubits(axes, qs))
  {
    hide XQubits, NoDuplicates;
    DistinctX(axes, qs);
    forall i | 0 <= i < |axes| ensures axes[i].PauliX? <==> qs[i] in XQubits(axes, qs) {
      XQubitAt(axes, qs, i);
    }
  }

  lemma {:induction false} DistinctX(axes: seq<Axis>, qs: seq<nat>)
    requires |axes| == |qs| && NoDuplicates(qs)
    ensures NoDuplicates(XQubits(axes, qs))
  {
    hide NoDuplicates;
    if axes == [] {
      NoneTwice();
    } else {
      var n := |axes| - 1;
      FewerDistinct(qs, n);
      DistinctX(axes[..n], qs[..n]);
      AppendDistinct(XQubits(axes[..n], qs[..n]), qs[..n], qs[n]);
    }
  }

  lemma NoneTwice()
    ensures NoDuplicates([])
  {
  }

  lemma {:induction false} XQubitAt(axes: seq<Axis>, qs: seq<nat>, i: nat)
    requires |axes| == |qs| && NoDuplicates(qs) && i < |axes|
    ensures axes[i].PauliX? <==> qs[i] in XQubits(axes, qs)
  {
    hide NoDuplicates;
    var n := |axes| - 1;
    FewerDistinct(qs, n);
    if i < n {
      XQubitAt(axes[..n], qs[..n], i);
      assert qs[..n][i] == qs[i] && qs[i] in qs[..n];
    }
  }

  lemma AppendDistinct(xs: seq<nat>, qs: seq<nat>, q: nat)
    requires NoDuplicates(xs) && q !in qs && forall x :: x in xs ==> x in qs
    ensures NoDuplicates(xs + [q])
  {
    forall i | 0 <= i < |xs| ensures xs[i] != q {
      assert xs[i] in xs;
    }
  }

  /** H on each of some qubits, queued. */
  ghost function HEach(s: Sim, xs: seq<nat>): (s': Sim)
    requires Within(xs, |s.pend|)
    ensures SameShape(s, s')
  {
    if xs == [] then s else StepH(HEach(s, xs[..|xs| - 1]), xs[|xs| - 1])
  }

  /** What was measured is flushed, and the stored state is combined with its Pauli product, if that is not trivial. */
  ghost function Projected(s: Sim, axes: seq<Axis>, qs: seq<nat>, id: Complex, pauli: Complex): (s': Sim)
    requires |axes| == |qs| && Within(qs, |s.pend|)
    ensures SameShape(s, s')
  {
    var f := Flush(s, qs, LevelRy);
    f.(psi := Combination(axes, qs, id, pauli, f.psi))
  }

  /** The measurement with the given outcome; the qubits measured along X then keep an H in the queue. */
  ghost function StepMeasure(s: Sim, axes: seq<Axis>, qs: seq<nat>, one: bool, k: real): (s': Sim)
    requires |axes| == |qs| && Within(qs, |s.pend|)
    ensures SameShape(s, s')
  {
    var xs := XQubits(axes, qs);
    var m := HEach(Projected(s, axes, qs, Real(0.5 * k), Real(if one then -0.5 * k else 0.5 * k)), xs);
    HEach(Flush(m, xs, LevelH), xs)
  }

  // ---------------------------------------------------------------- combinations pass what is pending elsewhere

  lemma {:induction false} StringCommute(u: Mat, q: nat, axes: seq<Axis>, qs: seq<nat>, w: Wave)
    requires |axes| == |qs| && q !in qs
    ensures On(u, q, PauliString(axes, qs, w)) == PauliString(axes, qs, On(u, q, w))
  {
    hide On, PauliMat;
    if axes != [] {
      var n := |axes| - 1;
      StringCommute(u, q, axes[..n], qs[..n], w);
      OnCommute(u, q, PauliMat(axes[n]), qs[n], PauliString(axes[..n], qs[..n], w));
    }
  }

  lemma LinearAt(u0: Complex, u1: Complex, id: Complex, pauli: Complex, a: Complex, b: Complex, c: Complex, d: Complex)
    ensures Plus(Times(u0, Plus(Times(id, a), Times(pauli, b))), Times(u1, Plus(Times(id, c), Times(pauli, d))))
      == Plus(Times(id, Plus(Times(u0, a), Times(u1, c))), Times(pauli, Plus(Times(u0, b), Times(u1, d))))
  {
    hide Times, Plus;
    Exchange(u0, u1, id, pauli, a, b, c, d);
  }

  ghost function Mix(id: Complex, w: Wave, pauli: Complex, p: Wave): Wave {
    imap l: Label | true :: Plus(Times(id, w[l]), Times(pauli, p[l]))
  }

  lemma CombinedIsMix(axes: seq<Axis>, qs: seq<nat>, id: Complex, pauli: Complex, w: Wave)
    requires |axes| == |qs|
    ensures Combined(axes, qs, id, pauli, w) == Mix(id, w, pauli, PauliString(axes, qs, w))
  {
    hide Times, Plus, PauliString;
    SameWave(Combined(axes, qs, id, pauli, w), Mix(id, w, pauli, PauliString(axes, qs, w)));
  }

  lemma MixCommuteAt(u: Mat, q: nat, id: Complex, w: Wave, pauli: Complex, p: Wave, l: Label)
    ensures On(u, q, Mix(id, w, pauli, p))[l] == Mix(id, On(u, q, w), pauli, On(u, q, p))[l]
  {
    hide Times, Plus, Row0, Row1;
    LinearAt(Row0(u, q in l), Row1(u, q in l), id, pauli, w[l - {q}], p[l - {q}], w[l + {q}], p[l + {q}]);
  }

  lemma MixCommute(u: Mat, q: nat, id: Complex, w: Wave, pauli: Complex, p: Wave)
    ensures On(u, q, Mix(id, w, pauli, p)) == Mix(id, On(u, q, w), pauli, On(u, q, p))
  {
    hide *;
    forall l: Label ensures On(u, q, Mix(id, w, pauli, p))[l] == Mix(id, On(u, q, w), pauli, On(u, q, p))[l] {
      MixCommuteAt(u, q, id, w, pauli, p, l);
    }
    SameWave(On(u, q, Mix(id, w, pauli, p)), Mix(id, On(u, q, w), pauli, On(u, q, p)));
  }

  lemma CombinedCommute(u: Mat, q: nat, axes: seq<Axis>, qs: seq<nat>, id: Complex, pauli: Complex, w: Wave)
    requires |axes| == |qs| && q !in qs
    ensures On(u, q, Combined(axes, qs, id, pauli, w)) == Combined(axes, qs, id, pauli, On(u, q, w))
  {
    hide *;
    StringCommute(u, q, axes, qs, w);
    CombinedIsMix(axes, qs, id, pauli, w);
    CombinedIsMix(axes, qs, id, pauli, On(u, q, w));
    MixCommute(u, q, id, w, pauli, PauliString(axes, qs, w));
  }

  lemma {:induction false} StringScaled(axes: seq<Axis>, qs: seq<nat>, k: Complex, w: Wave)
    requires |axes| == |qs|
    ensures PauliString(axes, qs, Scaled(k, w)) == Scaled(k, PauliString(axes, qs, w))
  {
    hide On, PauliMat, Scaled, Apply;
    if axes != [] {
      var n := |axes| - 1;
      StringScaled(axes[..n], qs[..n], k, w);
      var v := PauliString(axes[..n], qs[..n], w);
      ApplyScaled(OnQubit({}, PauliMat(axes[n]), qs[n]), k, v);
      OnIsApply(PauliMat(axes[n]), qs[n], v);
      OnIsApply(PauliMat(axes[n]), qs[n], Scaled(k, v));
    }
  }

  lemma FactorOut(k: Complex, id: Complex, pauli: Complex, a: Complex, b: Complex)
    ensures Plus(Times(id, Times(k, a)), Times(pauli, Times(k, b))) == Times(k, Plus(Times(id, a), Times(pauli, b)))
  {
    hide Times, Plus;
    Rotate(id, k, a);
    Rotate(pauli, k, b);
    TimesPlus(k, Times(id, a), Times(pauli, b));
  }

  lemma CombinedScaled(axes: seq<Axis>, qs: seq<nat>, id: Complex, pauli: Complex, k: Complex, w: Wave)
    requires |axes| == |qs|
    ensures Combined(axes, qs, id, pauli, Scaled(k, w)) == Scaled(k, Combined(axes, qs, id, pauli, w))
  {
    hide Times, Plus, PauliString;
    StringScaled(axes, qs, k, w);
    forall l: Label
      ensures Combined(axes, qs, id, pauli, Scaled(k, w))[l] == Scaled(k, Combined(axes, qs, id, pauli, w))[l]
    {
      FactorOut(k, id, pauli, w[l], PauliString(axes, qs, w)[l]);
    }
    SameWave(Combined(axes, qs, id, pauli, Scaled(k, w)), Scaled(k, Combined(axes, qs, id, pauli, w)));
  }

  lemma SameCombined(axes: seq<Axis>, qs: seq<nat>, id: Complex, pauli: Complex, v: Wave, w: Wave)
    requires |axes| == |qs| && SameState(v, w)
    ensures SameState(Combined(axes, qs, id, pauli, v), Combined(axes, qs, id, pauli, w))
  {
    hide Combined, Scaled, Norm;
    var u: Complex :| Norm(u) == 1.0 && v == Scaled(u, w);
    CombinedScaled(axes, qs, id, pauli, u, w);
  }

  lemma {:induction false} LayerCombined(r: real, pend: seq<Pending>, k: nat, axes: seq<Axis>, qs: seq<nat>,
                                         id: Complex, pauli: Complex, w: Wave)
    requires k <= |pend| && |axes| == |qs| && forall q :: q in qs && q < |pend| ==> pend[q].Nothing()
    ensures Layer(r, pend, k, Combined(axes, qs, id, pauli, w)) == Combined(axes, qs, id, pauli, Layer(r, pend, k, w))
  {
    hide Layer, On, PendingMat, Combined, Pending.Nothing;
    var c := Combined(axes, qs, id, pauli, w);
    if k == 0 {
      LayerNone(r, pend, w);
      LayerNone(r, pend, c);
    } else {
      LayerCombined(r, pend, k - 1, axes, qs, id, pauli, w);
      LayerStep(r, pend, k, w);
      LayerStep(r, pend, k, c);
      var below := Layer(r, pend, k - 1, w);
      if k - 1 in qs {
        NothingIsIdentity(r, pend[k - 1]);
        OnIdentity(k - 1, below);
        OnIdentity(k - 1, Combined(axes, qs, id, pauli, below));
      } else {
        CombinedCommute(PendingMat(r, pend[k - 1]), k - 1, axes, qs, id, pauli, below);
      }
    }
  }

  lemma LayerCombination(s: Sim, axes: seq<Axis>, qs: seq<nat>, id: Complex, pauli: Complex, w: Wave)
    requires |axes| == |qs| && forall q :: q in qs && q < |s.pend| ==> s.pend[q].Nothing()
    ensures Layer(s.r, s.pend, |s.pend|, Combination(axes, qs, id, pauli, w))
      == Combination(axes, qs, id, pauli, Layer(s.r, s.pend, |s.pend|, w))
  {
    hide Layer, Combined, Pending.Nothing;
    LayerCombined(s.r, s.pend, |s.pend|, axes, qs, id, pauli, w);
  }

  lemma SameCombination(axes: seq<Axis>, qs: seq<nat>, id: Complex, pauli: Complex, v: Wave, w: Wave)
    requires |axes| == |qs| && SameState(v, w)
    ensures SameState(Combination(axes, qs, id, pauli, v), Combination(axes, qs, id, pauli, w))
  {
    hide Combined, SameState;
    SameCombined(axes, qs, id, pauli, v, w);
  }

  lemma ProjectedPerforms(s: Sim, axes: seq<Axis>, qs: seq<nat>, id: Complex, pauli: Complex)
    requires LazyQueue.Valid(s) && |axes| == |qs| && Within(qs, |s.pend|)
    ensures LazyQueue.Valid(Projected(s, axes, qs, id, pauli))
    ensures SameState(Denoted(Projected(s, axes, qs, id, pauli)), Combination(axes, qs, id, pauli, Denoted(s)))
    ensures var p := Projected(s, axes, qs, id, pauli);
      p.queue == [] && p.occ == s.occ && p.r == s.r && forall i :: 0 <= i < |qs| ==> p.pend[qs[i]].Nothing()
  {
    hide Flush, Denoted, Combination, SameState, RunQueue, Pending.Nothing, Flushed, Layer, On, PauliString,
         LazyQueue.Valid;
    var f, p := Flush(s, qs, LevelRy), Projected(s, axes, qs, id, pauli);
    FlushedFacts(s, qs, LevelRy);
    forall i | 0 <= i < |qs| ensures f.pend[qs[i]].Nothing() {
      RyClears(s.pend[qs[i]]);
    }
    DenotedIsLayer(f);
    DenotedIsLayer(p);
    ValidPsi(f, p.psi);
    LayerCombination(f, axes, qs, id, pauli, f.psi);
    SameCombination(axes, qs, id, pauli, Denoted(f), Denoted(s));
  }

  lemma ValidPsi(s: Sim, psi: Wave)
    requires LazyQueue.Valid(s)
    ensures LazyQueue.Valid(s.(psi := psi))
  {
  }

  lemma DenotedIsLayer(s: Sim)
    requires s.queue == []
    ensures Denoted(s) == Layer(s.r, s.pend, |s.pend|, s.psi)
  {
    hide Layer;
  }

  // ---------------------------------------------------------------- H twice

  ghost function HAll(r: real, xs: seq<nat>, w: Wave): Wave {
    if xs == [] then w else On(HMat(r), xs[|xs| - 1], HAll(r, xs[..|xs| - 1], w))
  }

  lemma {:induction false} HAllPass(r: real, xs: seq<nat>, q: nat, w: Wave)
    requires q !in xs
    ensures HAll(r, xs, On(HMat(r), q, w)) == On(HMat(r), q, HAll(r, xs, w))
  {
    hide On, HMat;
    if xs != [] {
      var n := |xs| - 1;
      HAllPass(r, xs[..n], q, w);
      OnCommute(HMat(r), q, HMat(r), xs[n], HAll(r, xs[..n], w));
    }
  }

  lemma {:induction false} HAllTwice(r: real, xs: seq<nat>, w: Wave)
    requires NoDuplicates(xs) && 2.0 * r * r == 1.0
    ensures HAll(r, xs, HAll(r, xs, w)) == w
  {
    hide On, HMat, MatTimes;
    if xs != [] {
      var n := |xs| - 1;
      FewerDistinct(xs, n);
      HAllTwice(r, xs[..n], w);
      HAllPass(r, xs[..n], xs[n], HAll(r, xs[..n], w));
      HSquared(r);
      OnOnto(HMat(r), HMat(r), xs[n], w);
    }
  }

  lemma {:induction false} SameHAll(r: real, xs: seq<nat>, v: Wave, w: Wave)
    requires SameState(v, w)
    ensures SameState(HAll(r, xs, v), HAll(r, xs, w))
  {
    hide On, HMat, SameState;
    if xs != [] {
      var n := |xs| - 1;
      SameHAll(r, xs[..n], v, w);
      SameOn(HMat(r), xs[n], HAll(r, xs[..n], v), HAll(r, xs[..n], w));
    }
  }

  lemma {:induction false} HEachPerforms(s: Sim, xs: seq<nat>)
    requires LazyQueue.Valid(s) && Within(xs, |s.pend|)
    ensures LazyQueue.Valid(HEach(s, xs)) && HEach(s, xs).r == s.r
    ensures SameState(Denoted(HEach(s, xs)), HAll(s.r, xs, Denoted(s)))
  {
    hide On, HMat, SameState, Denoted, StepH, LazyQueue.Valid, Apply;
    if xs == [] {
      SameRefl(Denoted(s));
    } else {
      var n := |xs| - 1;
      HEachPerforms(s, xs[..n]);
      var t := HEach(s, xs[..n]);
      HPerforms(t, xs[n]);
      OnIsApply(HMat(s.r), xs[n], Denoted(t));
      SameOn(HMat(s.r), xs[n], Denoted(t), HAll(s.r, xs[..n], Denoted(s)));
      SameTrans(Denoted(HEach(s, xs)), On(HMat(s.r), xs[n], Denoted(t)), HAll(s.r, xs, Denoted(s)));
    }
  }

  /**
   The measurement projects the denoted state, whatever is pending, and leaves an eigenstate of the outcome;
   a trivial product leaves the state as it was.
   */
  lemma MeasurePerforms(s: Sim, axes: seq<Axis>, qs: seq<nat>, one: bool, k: real)
    requires LazyQueue.Valid(s) && |axes| == |qs| && NoDuplicates(qs) && Within(qs, |s.pend|)
    ensures var t := StepMeasure(s, axes, qs, one, k);
      && LazyQueue.Valid(t)
      && SameState(Denoted(t),
                   Combination(axes, qs, Real(0.5 * k), Real(if one then -0.5 * k else 0.5 * k), Denoted(s)))
      && (!Trivial(axes) ==> Denoted(t) == Scaled(if one then MINUS_ONE else ONE, PauliString(axes, qs, Denoted(t))))
  {
    hide *;
    MeasureProjects(s, axes, qs, one, k);
    if !Trivial(axes) {
      SignOfOutcome(one, k);
      ProjectedIsEigen(axes, qs, Real(0.5 * k), one, Denoted(s));
      var c := Combined(axes, qs, Real(0.5 * k), Real(if one then -0.5 * k else 0.5 * k), Denoted(s));
      CombinationIs(axes, qs, Real(0.5 * k), Real(if one then -0.5 * k else 0.5 * k), Denoted(s));
      EigenUpToPhase(axes, qs, if one then MINUS_ONE else ONE, Denoted(StepMeasure(s, axes, qs, one, k)), c);
    }
  }

  lemma CombinationIs(axes: seq<Axis>, qs: seq<nat>, id: Complex, pauli: Complex, w: Wave)
    requires |axes| == |qs| && !Trivial(axes)
    ensures Combination(axes, qs, id, pauli, w) == Combined(axes, qs, id, pauli, w)
  {
    hide Combined;
  }

  lemma SignOfOutcome(one: bool, k: real)
    ensures Real(if one then -0.5 * k else 0.5 * k) == if one then Neg(Real(0.5 * k)) else Real(0.5 * k)
  {
  }

  lemma MeasureProjects(s: Sim, axes: seq<Axis>, qs: seq<nat>, one: bool, k: real)
    requires LazyQueue.Valid(s) && |axes| == |qs| && NoDuplicates(qs) && Within(qs, |s.pend|)
    ensures var t := StepMeasure(s, axes, qs, one, k);
      && LazyQueue.Valid(t)
      && SameState(Denoted(t),
                   Combination(axes, qs, Real(0.5 * k), Real(if one then -0.5 * k else 0.5 * k), Denoted(s)))
  {
    hide Projected, Denoted, SameState, Combination, LazyQueue.Valid, StepMeasure, XQubits, PauliString, HEach, Flush,
         On;
    var xs := XQubits(axes, qs);
    var id, pauli := Real(0.5 * k), Real(if one then -0.5 * k else 0.5 * k);
    XQubitsDistinct(axes, qs, |s.pend|);
    var p := Projected(s, axes, qs, id, pauli);
    ProjectedPerforms(s, axes, qs, id, pauli);
    TwiceH(p, xs);
    StepMeasureIs(s, axes, qs, one, k);
    SameTrans(Denoted(StepMeasure(s, axes, qs, one, k)), Denoted(p), Combination(axes, qs, id, pauli, Denoted(s)));
  }

  lemma StepMeasureIs(s: Sim, axes: seq<Axis>, qs: seq<nat>, one: bool, k: real)
    requires |axes| == |qs| && Within(qs, |s.pend|)
    ensures var p := Projected(s, axes, qs, Real(0.5 * k), Real(if one then -0.5 * k else 0.5 * k));
      StepMeasure(s, axes, qs, one, k)
        == HEach(Flush(HEach(p, XQubits(axes, qs)), XQubits(axes, qs), LevelH), XQubits(axes, qs))
  {
    hide Flush, HEach, XQubits, Projected, Within, Combination;
  }

  /** H on some qubits, run, and H queued again: the state denoted is the same. */
  lemma TwiceH(p: Sim, xs: seq<nat>)
    requires LazyQueue.Valid(p) && NoDuplicates(xs) && Within(xs, |p.pend|)
    ensures var t := HEach(Flush(HEach(p, xs), xs, LevelH), xs);
      LazyQueue.Valid(t) && SameState(Denoted(t), Denoted(p))
  {
    hide On, HMat, HAll, Denoted, SameState, Flush, HEach, LazyQueue.Valid, NoDuplicates, Flushed, Pending.Nothing;
    NormalizerOf(p);
    var m := HEach(p, xs);
    HEachPerforms(p, xs);
    var f := Flush(m, xs, LevelH);
    FlushedFacts(m, xs, LevelH);
    var t := HEach(f, xs);
    HEachPerforms(f, xs);
    var v := Denoted(p);
    SameTrans(Denoted(f), Denoted(m), HAll(p.r, xs, v));
    SameHAll(p.r, xs, Denoted(f), HAll(p.r, xs, v));
    HAllTwice(p.r, xs, v);
    SameTrans(Denoted(t), HAll(p.r, xs, Denoted(f)), v);
  }

  lemma NormalizerOf(s: Sim)
    requires LazyQueue.Valid(s)
    ensures 2.0 * s.r * s.r == 1.0
  {
  }

  lemma EigenUpToPhase(axes: seq<Axis>, qs: seq<nat>, sign: Complex, v: Wave, c: Wave)
    requires |axes| == |qs| && SameState(v, c) && c == Scaled(sign, PauliString(axes, qs, c))
    ensures v == Scaled(sign, PauliString(axes, qs, v))
  {
    hide PauliString, Scaled, Norm, Times;
    var u: Complex :| Norm(u) == 1.0 && v == Scaled(u, c);
    var p := PauliString(axes, qs, c);
    StringScaled(axes, qs, u, c);
    ScaledScaled(u, sign, p);
    ScaledScaled(sign, u, p);
    TimesComm(u, sign);
  }

  // ---------------------------------------------------------------- occupancy

  ghost function OccupyAll(s: Sim, xs: seq<nat>): (s': Sim)
    ensures SameShape(s, s')
    ensures s'.pend == s.pend && s'.psi == s.psi && s'.queue == s.queue
    ensures forall q :: 0 <= q < |s.occ| ==> s'.occ[q] == (s.occ[q] || q in xs)
  {
    if xs == [] then s else Occupy(OccupyAll(s, xs[..|xs| - 1]), xs[|xs| - 1])
  }

  /** Queueing an H on each qubit with nothing pending flags exactly these; flags set before make no difference. */
  lemma {:induction false} HEachFlags(s: Sim, t: Sim, xs: seq<nat>, n: nat)
    requires n <= |xs| && NoDuplicates(xs) && Within(xs, |s.pend|)
    requires |s.occ| == |t.occ| == |s.pend| && t == s.(occ := t.occ)
    requires forall q :: q in xs ==> !s.pend[q].x
    ensures Within(xs[..n], |s.pend|)
    ensures var a, b := HEach(s, xs[..n]), HEach(t, xs[..n]);
      && b == a.(occ := b.occ)
      && (forall q :: q in xs ==> !a.pend[q].x)
      && (forall q :: 0 <= q < |s.occ| ==>
           a.occ[q] == (s.occ[q] || q in xs[..n]) && b.occ[q] == (t.occ[q] || q in xs[..n]))
  {
    hide StepH;
    if n > 0 {
      HEachFlags(s, t, xs, n - 1);
      assert xs[..n][..n - 1] == xs[..n - 1] && xs[..n] == xs[..n - 1] + [xs[n - 1]];
      var a, b := HEach(s, xs[..n - 1]), HEach(t, xs[..n - 1]);
      HFlags(a, b, xs[n - 1]);
      HFlags(a, a, xs[n - 1]);
      StepHKeepsX(a, xs[n - 1]);
    }
  }

  lemma StepHKeepsX(s: Sim, q: nat)
    requires q < |s.pend| && !s.pend[q].x
    ensures forall j :: 0 <= j < |s.pend| ==> StepH(s, q).pend[j].x == s.pend[j].x
  {
  }

  lemma {:induction false} HEachSound(s: Sim, xs: seq<nat>)
    requires Sound(s) && Within(xs, |s.pend|)
    ensures Sound(HEach(s, xs))
  {
    hide Sound, StepH;
    if xs != [] {
      HEachSound(s, xs[..|xs| - 1]);
      HSound(HEach(s, xs[..|xs| - 1]), xs[|xs| - 1]);
    }
  }

  lemma {:induction false} FlippedQubits(axes: seq<Axis>, qs: seq<nat>, q: nat)
    requires |axes| == |qs|
    ensures q in XYMask(axes, qs) <==> exists i :: 0 <= i < |axes| && qs[i] == q && (axes[i].PauliX? || axes[i].PauliY?)
  {
    if axes != [] {
      var n := |axes| - 1;
      FlippedQubits(axes[..n], qs[..n], q);
      if q in XYMask(axes[..n], qs[..n]) {
        var i :| 0 <= i < n && qs[..n][i] == q && (axes[..n][i].PauliX? || axes[..n][i].PauliY?);
        assert qs[i] == q && (axes[i].PauliX? || axes[i].PauliY?);
      }
      forall i | 0 <= i < |axes| && qs[i] == q && (axes[i].PauliX? || axes[i].PauliY?) ensures q in XYMask(axes, qs) {
        if i < n {
          assert qs[..n][i] == q && (axes[..n][i].PauliX? || axes[..n][i].PauliY?);
        }
      }
    }
  }

  /** A combination keeps a qubit at 0 that its product does not flip. */
  lemma CombinedKeepsZero(axes: seq<Axis>, qs: seq<nat>, id: Complex, pauli: Complex, q: nat, w: Wave)
    requires |axes| == |qs| && NoDuplicates(qs) && q !in XYMask(axes, qs) && QubitZero(q, w)
    ensures QubitZero(q, Combined(axes, qs, id, pauli, w))
  {
    hide Times, Plus, PauliString, Factor, XYMask;
    forall l: Label | q in l ensures Combined(axes, qs, id, pauli, w)[l] == ZERO {
      StringAt(axes, qs, w, l);
      var m := Xor(l, XYMask(axes, qs));
      assert q in m;
      TimesNothing(Factor(axes, qs, m));
      TimesNothing(id);
      TimesNothing(pauli);
      TimesUnit(ZERO);
    }
  }

  lemma CombinationKeepsZero(axes: seq<Axis>, qs: seq<nat>, id: Complex, pauli: Complex, q: nat, w: Wave)
    requires |axes| == |qs| && NoDuplicates(qs) && q !in XYMask(axes, qs) && QubitZero(q, w)
    ensures QubitZero(q, Combination(axes, qs, id, pauli, w))
  {
    hide Combined, QubitZero, XYMask;
    CombinedKeepsZero(axes, qs, id, pauli, q, w);
  }

  /** A flip of a qubit at 0 is seen wherever the state was not zero. */
  lemma CombinedFlips(axes: seq<Axis>, qs: seq<nat>, id: Complex, pauli: Complex, q: nat, w: Wave, l: Label)
    requires |axes| == |qs| && NoDuplicates(qs) && q in XYMask(axes, qs)
    requires QubitZero(q, w) && w[l] != ZERO && pauli != ZERO
    ensures !QubitZero(q, Combined(axes, qs, id, pauli, w))
  {
    hide Times, Plus, PauliString, Factor, XYMask;
    var m := Xor(l, XYMask(axes, qs));
    XorTwice(l, XYMask(axes, qs));
    StringAt(axes, qs, w, m);
    FactorNonzero(axes, qs, l);
    TimesZero(Factor(axes, qs, l), w[l]);
    TimesZero(pauli, Times(Factor(axes, qs, l), w[l]));
    assert q !in l && q in m;
    TimesNothing(id);
    TimesUnit(Times(pauli, Times(Factor(axes, qs, l), w[l])));
    assert Combined(axes, qs, id, pauli, w)[m] != ZERO;
  }

  lemma FactorNonzero(axes: seq<Axis>, qs: seq<nat>, l: Label)
    requires |axes| == |qs| && NoDuplicates(qs)
    ensures Factor(axes, qs, l) != ZERO
  {
    hide Times, Factor, Xor;
    FactorBack(axes, qs, l);
    TimesUnit(Factor(axes, qs, Xor(l, XYMask(axes, qs))));
    TimesNothing(Factor(axes, qs, Xor(l, XYMask(axes, qs))));
  }

  /** The measurement keeps the flags sound when every qubit measured along Y is flagged. */
  lemma FlaggedMeasureSound(s: Sim, axes: seq<Axis>, qs: seq<nat>, one: bool, k: real)
    requires Sound(s) && |axes| == |qs| && NoDuplicates(qs) && Within(qs, |s.pend|)
    requires |s.occ| == |s.pend| && forall i :: 0 <= i < |axes| && axes[i].PauliY? ==> s.occ[qs[i]]
    ensures Sound(StepMeasure(s, axes, qs, one, k))
  {
    hide Flush, Combination, HEach, Sound, XQubits, Projected;
    var xs := XQubits(axes, qs);
    var id, pauli := Real(0.5 * k), Real(if one then -0.5 * k else 0.5 * k);
    XQubitsDistinct(axes, qs, |s.pend|);
    var p := Projected(s, axes, qs, id, pauli);
    ProjectedFlagged(s, axes, qs, id, pauli);
    var t := OccupyAll(p, xs);
    HEachFlags(p, t, xs, |xs|);
    assert xs[..|xs|] == xs;
    assert HEach(p, xs).occ == HEach(t, xs).occ;
    HEachSound(t, xs);
    var m := HEach(p, xs);
    FlushSound(m, xs, LevelH);
    HEachSound(Flush(m, xs, LevelH), xs);
  }

  lemma ProjectedFlagged(s: Sim, axes: seq<Axis>, qs: seq<nat>, id: Complex, pauli: Complex)
    requires Sound(s) && |axes| == |qs| && NoDuplicates(qs) && Within(qs, |s.pend|) && |s.occ| == |s.pend|
    requires forall i :: 0 <= i < |axes| && axes[i].PauliY? ==> s.occ[qs[i]]
    ensures var p := Projected(s, axes, qs, id, pauli);
      Sound(OccupyAll(p, XQubits(axes, qs))) && (forall i :: 0 <= i < |qs| ==> !p.pend[qs[i]].x)
      && forall q :: q in XQubits(axes, qs) ==> q < |p.pend| && !p.pend[q].x
  {
    hide Flush, Combination, QubitZero, XQubits, OccupyAll, XYMask, RunQueue;
    var f := Flush(s, qs, LevelRy);
    FlushSound(s, qs, LevelRy);
    XQubitsDistinct(axes, qs, |s.pend|);
    var p := Projected(s, axes, qs, id, pauli);
    var t := OccupyAll(p, XQubits(axes, qs));
    EmptyQueue(t.queue, t.psi);
    EmptyQueue(f.queue, f.psi);
    forall q | 0 <= q < |t.pend| && !t.occ[q] ensures t.pend[q].Nothing() && QubitZero(q, t.psi) {
      FlippedQubits(axes, qs, q);
      CombinationKeepsZero(axes, qs, id, pauli, q, f.psi);
    }
    forall q: nat | q >= |t.pend| ensures QubitZero(q, t.psi) {
      FlippedQubits(axes, qs, q);
      CombinationKeepsZero(axes, qs, id, pauli, q, f.psi);
    }
  }

  /**
   Joint measurement of a state that is not zero keeps the flags sound exactly when every qubit
   measured along Y is flagged: one that is not is left with amplitude at 1 and no flag.
   */
  lemma MeasureSoundIff(s: Sim, axes: seq<Axis>, qs: seq<nat>, one: bool, k: real, l: Label)
    requires Sound(s) && |axes| == |qs| && NoDuplicates(qs) && Within(qs, |s.pend|)
    requires k != 0.0 && Denoted(s)[l] != ZERO && |s.occ| == |s.pend|
    ensures Sound(StepMeasure(s, axes, qs, one, k)) <==> forall i :: 0 <= i < |axes| && axes[i].PauliY? ==> s.occ[qs[i]]
  {
    hide Denoted, Combination, QubitZero, StepMeasure, XQubits, XYMask, Sound;
    if forall i :: 0 <= i < |axes| && axes[i].PauliY? ==> s.occ[qs[i]] {
      FlaggedMeasureSound(s, axes, qs, one, k);
    } else {
      var i :| 0 <= i < |axes| && axes[i].PauliY? && !s.occ[qs[i]];
      UnflaggedMeasure(s, axes, qs, one, k, l, i);
    }
  }

  lemma UnflaggedMeasure(s: Sim, axes: seq<Axis>, qs: seq<nat>, one: bool, k: real, l: Label, i: nat)
    requires Sound(s) && |axes| == |qs| && NoDuplicates(qs) && Within(qs, |s.pend|)
    requires k != 0.0 && Denoted(s)[l] != ZERO && |s.occ| == |s.pend|
    requires i < |axes| && axes[i].PauliY? && !s.occ[qs[i]]
    ensures !Sound(StepMeasure(s, axes, qs, one, k))
  {
    hide Denoted, QubitZero, StepMeasure, Sound;
    var t := StepMeasure(s, axes, qs, one, k);
    UnflaggedFlips(s, axes, qs, one, k, l, i);
    if Sound(t) {
      UnoccupiedIsZero(t, qs[i]);
    }
  }

  /** What a measurement along Y leaves of a qubit that was not flagged: amplitude at 1, and still no flag. */
  lemma UnflaggedFlips(s: Sim, axes: seq<Axis>, qs: seq<nat>, one: bool, k: real, l: Label, i: nat)
    requires Sound(s) && |axes| == |qs| && NoDuplicates(qs) && Within(qs, |s.pend|)
    requires k != 0.0 && Denoted(s)[l] != ZERO && |s.occ| == |s.pend|
    requires i < |axes| && axes[i].PauliY? && !s.occ[qs[i]]
    ensures var t := StepMeasure(s, axes, qs, one, k);
      |t.occ| == |t.pend| == |s.pend| && !t.occ[qs[i]] && !QubitZero(qs[i], Denoted(t))
  {
    hide Denoted, Combined, QubitZero, StepMeasure, XQubits, XYMask, Sound, SameState, Combination;
    var q, t := qs[i], StepMeasure(s, axes, qs, one, k);
    var id, pauli := Real(0.5 * k), Real(if one then -0.5 * k else 0.5 * k);
    SoundValid(s);
    MeasureProjects(s, axes, qs, one, k);
    StaysUnflagged(s, axes, qs, one, k, i);
    UnoccupiedIsZero(s, q);
    FlippedQubits(axes, qs, q);
    CombinedFlips(axes, qs, id, pauli, q, Denoted(s), l);
    CombinationIs(axes, qs, id, pauli, Denoted(s));
    if QubitZero(q, Denoted(t)) {
      SameZero(q, Combined(axes, qs, id, pauli, Denoted(s)), Denoted(t));
    }
  }

  lemma SoundValid(s: Sim)
    requires Sound(s)
    ensures LazyQueue.Valid(s)
  {
    hide QubitZero, RunQueue;
  }

  lemma SameZero(q: nat, v: Wave, w: Wave)
    requires SameState(w, v) && QubitZero(q, w)
    ensures QubitZero(q, v)
  {
    hide Times, Norm;
    SameSym(w, v);
    var u: Complex :| Norm(u) == 1.0 && v == Scaled(u, w);
    forall l: Label | q in l ensures v[l] == ZERO {
      TimesNothing(u);
    }
  }

  lemma StaysUnflagged(s: Sim, axes: seq<Axis>, qs: seq<nat>, one: bool, k: real, i: nat)
    requires LazyQueue.Valid(s) && |axes| == |qs| && NoDuplicates(qs) && Within(qs, |s.pend|)
    requires i < |axes| && axes[i].PauliY? && !s.occ[qs[i]]
    ensures var t := StepMeasure(s, axes, qs, one, k); |t.occ| == |t.pend| == |s.pend| && !t.occ[qs[i]]
  {
    hide StepMeasure, XQubits, LazyQueue.Valid;
    XQubitsDistinct(axes, qs, |s.pend|);
    MeasureAddsFlags(s, axes, qs, one, k);
  }

  /** A joint measurement flags the qubits it measures along X, and no others. */
  lemma MeasureAddsFlags(s: Sim, axes: seq<Axis>, qs: seq<nat>, one: bool, k: real)
    requires LazyQueue.Valid(s) && |axes| == |qs| && NoDuplicates(qs) && Within(qs, |s.pend|)
    ensures var t := StepMeasure(s, axes, qs, one, k);
      && |t.occ| == |t.pend| == |s.pend| == |s.occ|
      && forall q :: 0 <= q < |s.occ| ==> (t.occ[q] <==> s.occ[q] || q in XQubits(axes, qs))
  {
    hide Flush, Denoted, SameState, Combination, HEach, XQubits, Projected, RunQueue, Flushed;
    var xs := XQubits(axes, qs);
    var id, pauli := Real(0.5 * k), Real(if one then -0.5 * k else 0.5 * k);
    XQubitsDistinct(axes, qs, |s.pend|);
    var p := Projected(s, axes, qs, id, pauli);
    ProjectedPerforms(s, axes, qs, id, pauli);
    XsPending(axes, qs, p);
    HEachFlags(p, p, xs, |xs|);
    assert xs[..|xs|] == xs;
    var m := HEach(p, xs);
    HEachPerforms(p, xs);
    FlushedFacts(m, xs, LevelH);
    var f := Flush(m, xs, LevelH);
    forall q | q in xs ensures !f.pend[q].x {
      assert Flushed(m.pend[q], LevelH).x == m.pend[q].x by { FlushedHKeepsX(m.pend[q]); }
    }
    HEachFlags(f, f, xs, |xs|);
  }

  lemma FlushedHKeepsX(p: Pending)
    ensures Flushed(p, LevelH).x == p.x
  {
  }

  lemma XsPending(axes: seq<Axis>, qs: seq<nat>, p: Sim)
    requires |axes| == |qs| && Within(qs, |p.pend|) && forall i :: 0 <= i < |qs| ==> p.pend[qs[i]].Nothing()
    ensures forall q :: q in XQubits(axes, qs) ==> q < |p.pend| && !p.pend[q].x
  {
  }

  /** Whatever the flags say, the measurement stays within the qubits. */
  lemma MeasureBounded(s: Sim, axes: seq<Axis>, qs: seq<nat>, one: bool, k: real)
    requires Bounded(s) && |axes| == |qs| && NoDuplicates(qs) && Within(qs, |s.pend|) && |s.occ| == |s.pend|
    ensures Bounded(StepMeasure(s, axes, qs, one, k))
  {
    hide Bounded, Sound, StepMeasure, SameButFlags;
    var t := AllFlagged(s);
    FlaggedSound(s);
    FlaggedMeasureSound(t, axes, qs, one, k);
    MeasureFlags(t, s, axes, qs, one, k);
    BoundedFrom(StepMeasure(t, axes, qs, one, k), StepMeasure(s, axes, qs, one, k));
  }

  /** What was measured is flushed, and stays within the qubits whatever it is combined with. */
  lemma ProjectedBounded(s: Sim, axes: seq<Axis>, qs: seq<nat>)
    requires Bounded(s) && |axes| == |qs| && NoDuplicates(qs) && Within(qs, |s.pend|)
    ensures Flush(s, qs, LevelRy).queue == []
    ensures forall id, pauli :: Bounded(Projected(s, axes, qs, id, pauli))
  {
    hide Flush, Confined, Combination, RunQueue;
    FlushBounded(s, qs, LevelRy);
    var f := Flush(s, qs, LevelRy);
    forall id, pauli ensures Bounded(Projected(s, axes, qs, id, pauli)) {
      EmptyQueue(f.queue, Combination(axes, qs, id, pauli, f.psi));
      CombinationConfined(|s.pend|, axes, qs, id, pauli, f.psi);
    }
  }

  lemma CombinationConfined(n: nat, axes: seq<Axis>, qs: seq<nat>, id: Complex, pauli: Complex, w: Wave)
    requires |axes| == |qs| && NoDuplicates(qs) && Within(qs, n) && Confined(n, w)
    ensures Confined(n, Combination(axes, qs, id, pauli, w))
  {
    hide QubitZero, Combination, XYMask;
    MasksWithin(axes, qs);
    forall q: nat | q >= n ensures QubitZero(q, Combination(axes, qs, id, pauli, w)) {
      CombinationKeepsZero(axes, qs, id, pauli, q, w);
    }
  }

  lemma {:induction false} HEachSame(s: Sim, t: Sim, xs: seq<nat>)
    requires Within(xs, |s.pend|) && SameButFlags(s, t)
    ensures SameButFlags(HEach(s, xs), HEach(t, xs))
  {
    hide StepH;
    if xs != [] {
      var n := |xs| - 1;
      HEachSame(s, t, xs[..n]);
      HFlags(HEach(s, xs[..n]), HEach(t, xs[..n]), xs[n]);
    }
  }

  lemma MeasureFlags(s: Sim, t: Sim, axes: seq<Axis>, qs: seq<nat>, one: bool, k: real)
    requires |axes| == |qs| && Within(qs, |s.pend|) && SameButFlags(s, t)
    ensures SameButFlags(StepMeasure(s, axes, qs, one, k), StepMeasure(t, axes, qs, one, k))
  {
    hide Flush, HEach, XQubits, Combination;
    FlushFlags(s, t, qs, LevelRy);
    var xs := XQubits(axes, qs);
    var id, pauli := Real(0.5 * k), Real(if one then -0.5 * k else 0.5 * k);
    var p, p2 := Projected(s, axes, qs, id, pauli), Projected(t, axes, qs, id, pauli);
    HEachSame(p, p2, xs);
    FlushFlags(HEach(p, xs), HEach(p2, xs), xs, LevelH);
    HEachSame(Flush(HEach(p, xs), xs, LevelH), Flush(HEach(p2, xs), xs, LevelH), xs);
  }

  // ---------------------------------------------------------------- a measurement that loses a flag

  lemma InitialSound(s: Sim)
    requires McxTrapRun.Initial(s) && forall q :: 0 <= q < |s.occ| ==> !s.occ[q]
    ensures Sound(s)
  {
    hide RunQueue;
    EmptyQueue(s.queue, s.psi);
    VacuumZero();
    NothingHasNothing();
  }

  lemma VacuumZero()
    ensures forall q: nat :: QubitZero(q, Vacuum())
  {
  }

  /** Y measured on a qubit of the initial simulator: whatever the outcome, the flags are sound before and not after. */
  lemma InitialYUnsound(s: Sim, q: nat, one: bool, k: real)
    requires McxTrapRun.Initial(s) && q < |s.pend| && k != 0.0 && forall j :: 0 <= j < |s.occ| ==> !s.occ[j]
    ensures Sound(s) && !Sound(StepMeasure(s, [PauliY], [q], one, k))
  {
    hide Denoted, StepMeasure, Sound, QubitZero;
    InitialSound(s);
    McxTrapRun.InitialDenotes(s);
    assert Vacuum()[{}] == ONE;
    MeasureSoundIff(s, [PauliY], [q], one, k, {});
    assert [PauliY][0].PauliY? && !s.occ[[q][0]];
  }
}
