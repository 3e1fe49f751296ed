/**
 Assertions on the lazy simulator: the axes are rewritten through the pending H gates instead of running
 them, and the entry test of the stored state then decides what the denoted state is.
 */
module JointAssert {
  import opened Amplitudes
  import opened Operators
  import opened Gates
  import opened LazyQueue
  import opened LazyMeaning
  import opened LazySteps
  import opened McxTrapExact
  import opened Occupancy
  import opened PauliStrings
  import opened JointMeasure

  // ---------------------------------------------------------------- the rewriting

  /** What an axis becomes on the other side of an H. */
  function Through(axis: Axis, h: bool): Axis {
    match axis
    case PauliX => if h then PauliZ else PauliX
    case PauliZ => if h then PauliX else PauliZ
    case _ => axis
  }

  function Rewritten(axes: seq<Axis>, qs: seq<nat>, pend: seq<Pending>): (r: seq<Axis>)
    requires |axes| == |qs| && Within(qs, |pend|)
    ensures |r| == |axes|
  {
    seq(|axes|, i requires 0 <= i < |axes| => Through(axes[i], pend[qs[i]].h))
  }

  /** The sign of the eigenvalue, changed once for each Y that passes an H. */
  function Turn(axes: seq<Axis>, qs: seq<nat>, pend: seq<Pending>, result: bool): bool
    requires |axes| == |qs| && Within(qs, |pend|)
  {
    if axes == [] then result
    else
      var n := |axes| - 1;
      var before := Turn(axes[..n], qs[..n], pend, result);
      if axes[n].PauliY? && pend[qs[n]].h then !before else before
  }

  function SignOf(result: bool): Complex { if result then MINUS_ONE else ONE }

  predicate AnyRotation(pend: seq<Pending>, qs: seq<nat>)
    requires Within(qs, |pend|)
  {
    exists i :: 0 <= i < |qs| && (pend[qs[i]].x || pend[qs[i]].y)
  }

  /** The state in which an assertion looks at the axes: rotations pending on the qubits have run. */
  ghost function Unrotated(s: Sim, qs: seq<nat>): (s': Sim)
    requires Within(qs, |s.pend|)
    ensures SameShape(s, s')
  {
    if AnyRotation(s.pend, qs) then Flush(s, qs, LevelRy) else s
  }

  /** The state an assertion leaves; a trivial one does not run the queue. */
  ghost function StepAssert(s: Sim, axes: seq<Axis>, qs: seq<nat>): (s': Sim)
    requires |axes| == |qs| && Within(qs, |s.pend|)
    ensures SameShape(s, s')
  {
    if Trivial(axes) then Unrotated(s, qs) else Flush(Unrotated(s, qs), qs, LevelQueue)
  }

  ghost predicate Eigen(axes: seq<Axis>, qs: seq<nat>, result: bool, w: Wave)
    requires |axes| == |qs|
  {
    w == Scaled(SignOf(result), PauliString(axes, qs, w))
  }

  // ---------------------------------------------------------------- what is pending can be taken back

  lemma NegatedTwice(a: Angle)
    ensures Negated(Negated(a)) == a
  {
  }

  lemma PartsInverse(r: real, p: Pending)
    requires 2.0 * r * r == 1.0
    ensures MatTimes(HPart(r, p), HPart(r, p)) == ID
    ensures MatTimes(if p.x then RxMat(Negated(p.ax)) else ID, XPart(p)) == ID
    ensures MatTimes(if p.y then RyMat(Negated(p.ay)) else ID, YPart(p)) == ID
  {
    hide MatTimes, RxMat, RyMat, HMat, Negated;
    NegatedTwice(p.ax);
    NegatedTwice(p.ay);
    RotationInverse(Negated(p.ax));
    RotationInverse(Negated(p.ay));
    HSquared(r);
    MatTimesIdentity(ID);
  }

  lemma PendingInjective(r: real, p: Pending, q: nat, v: Wave, w: Wave)
    requires 2.0 * r * r == 1.0 && On(PendingMat(r, p), q, v) == On(PendingMat(r, p), q, w)
    ensures v == w
  {
    hide MatTimes, On, RxMat, RyMat, HMat, Negated, HPart, XPart, YPart;
    PartsInverse(r, p);
    var h, x, y := HPart(r, p), XPart(p), YPart(p);
    var ix, iy := if p.x then RxMat(Negated(p.ax)) else ID, if p.y then RyMat(Negated(p.ay)) else ID;
    OnOn(x, h, q, v);
    OnOn(x, h, q, w);
    OnOn(y, MatTimes(x, h), q, v);
    OnOn(y, MatTimes(x, h), q, w);
    OnOnto(iy, y, q, On(x, q, On(h, q, v)));
    OnOnto(iy, y, q, On(x, q, On(h, q, w)));
    OnOnto(ix, x, q, On(h, q, v));
    OnOnto(ix, x, q, On(h, q, w));
    OnOnto(h, h, q, v);
    OnOnto(h, h, q, w);
  }

  lemma {:induction false} LayerInjective(r: real, pend: seq<Pending>, k: nat, v: Wave, w: Wave)
    requires 2.0 * r * r == 1.0 && k <= |pend| && Layer(r, pend, k, v) == Layer(r, pend, k, w)
    ensures v == w
  {
    hide On, PendingMat, Layer;
    if k == 0 {
      LayerNone(r, pend, v);
      LayerNone(r, pend, w);
    } else {
      LayerStep(r, pend, k, v);
      LayerStep(r, pend, k, w);
      PendingInjective(r, pend[k - 1], k - 1, Layer(r, pend, k - 1, v), Layer(r, pend, k - 1, w));
      LayerInjective(r, pend, k - 1, v, w);
    }
  }

  lemma OnOfScaled(u: Mat, q: nat, k: Complex, w: Wave)
    ensures On(u, q, Scaled(k, w)) == Scaled(k, On(u, q, w))
  {
    hide On, Scaled, Apply;
    ApplyScaled(OnQubit({}, u, q), k, w);
    OnIsApply(u, q, w);
    OnIsApply(u, q, Scaled(k, w));
  }

  lemma {:induction false} LayerScaled(r: real, pend: seq<Pending>, k: nat, c: Complex, w: Wave)
    requires k <= |pend|
    ensures Layer(r, pend, k, Scaled(c, w)) == Scaled(c, Layer(r, pend, k, w))
  {
    hide On, PendingMat, Layer, Scaled;
    if k == 0 {
      LayerNone(r, pend, w);
      LayerNone(r, pend, Scaled(c, w));
    } else {
      LayerStep(r, pend, k, w);
      LayerStep(r, pend, k, Scaled(c, w));
      LayerScaled(r, pend, k - 1, c, w);
      OnOfScaled(PendingMat(r, pend[k - 1]), k - 1, c, Layer(r, pend, k - 1, w));
    }
  }

  // ---------------------------------------------------------------- Pauli products pass the pending H gates

  lemma PauliPassesH(axis: Axis, r: real, p: Pending)
    requires !p.x && !p.y
    ensures MatTimes(PauliMat(axis), PendingMat(r, p)) ==
      MatTimes(PendingMat(r, p), MatScaled(SignOf(axis.PauliY? && p.h), PauliMat(Through(axis, p.h))))
  {
    hide MatTimes, HMat, MatScaled;
    OnlyHPending(r, p);
    ScaledByOne(PauliMat(Through(axis, p.h)));
    MatTimesIdentity(PauliMat(axis));
    MatTimesIdentity(HMat(r));
    XPassH(r);
    YPassH(r);
    ZPassH(r);
  }

  lemma OnlyHPending(r: real, p: Pending)
    requires !p.x && !p.y
    ensures PendingMat(r, p) == if p.h then HMat(r) else ID
  {
    hide MatTimes, HMat;
    MatTimesIdentity(HPart(r, p));
  }

  lemma ScaledByOne(u: Mat)
    ensures MatScaled(ONE, u) == u
  {
  }

  /** One Pauli operator enters the layer of pending gates as its rewritten form. */
  lemma PauliEnters(axis: Axis, s: Sim, q: nat, w: Wave)
    requires q < |s.pend| && !s.pend[q].x && !s.pend[q].y
    ensures On(PauliMat(axis), q, All(s.r, s.pend, w))
      == All(s.r, s.pend, Scaled(SignOf(axis.PauliY? && s.pend[q].h), On(PauliMat(Through(axis, s.pend[q].h)), q, w)))
  {
    hide On, MatTimes, MatScaled, PendingMat, All, Scaled;
    var u := PauliMat(Through(axis, s.pend[q].h));
    var k := SignOf(axis.PauliY? && s.pend[q].h);
    PauliPassesH(axis, s.r, s.pend[q]);
    Absorb(s.r, s.pend, q, PauliMat(axis), s.pend[q], MatScaled(k, u), w);
    assert s.pend[q := s.pend[q]] == s.pend;
    OnScaled(k, u, q, w);
  }

  /** The whole product enters as its rewritten form, with the sign changed for each Y that passes an H. */
  lemma {:induction false} StringEnters(axes: seq<Axis>, qs: seq<nat>, s: Sim, w: Wave)
    requires |axes| == |qs| && Within(qs, |s.pend|) && !AnyRotation(s.pend, qs)
    ensures PauliString(axes, qs, All(s.r, s.pend, w))
      == All(s.r, s.pend, Scaled(SignOf(Turn(axes, qs, s.pend, false)),
                                 PauliString(Rewritten(axes, qs, s.pend), qs, w)))
  {
    hide On, All, Scaled, PauliMat, Through;
    if axes == [] {
      ScaledOne(w);
    } else {
      var n := |axes| - 1;
      var pre, rest := axes[..n], qs[..n];
      assert !AnyRotation(s.pend, rest) by {
        assert forall i :: 0 <= i < n ==> rest[i] == qs[i];
      }
      StringEnters(pre, rest, s, w);
      RewrittenLast(axes, qs, s.pend);
      var k := SignOf(Turn(pre, rest, s.pend, false));
      var v := PauliString(Rewritten(pre, rest, s.pend), rest, w);
      PauliEnters(axes[n], s, qs[n], Scaled(k, v));
      LastEnters(axes[n], s.pend[qs[n]].h, qs[n], Turn(pre, rest, s.pend, false), v);
    }
  }

  lemma RewrittenLast(axes: seq<Axis>, qs: seq<nat>, pend: seq<Pending>)
    requires |axes| == |qs| && Within(qs, |pend|) && axes != []
    ensures var n := |axes| - 1;
      Rewritten(axes, qs, pend)[..n] == Rewritten(axes[..n], qs[..n], pend)
      && Rewritten(axes, qs, pend)[n] == Through(axes[n], pend[qs[n]].h)
  {
  }

  lemma LastEnters(axis: Axis, h: bool, q: nat, turned: bool, v: Wave)
    ensures var u := PauliMat(Through(axis, h));
      Scaled(SignOf(axis.PauliY? && h), On(u, q, Scaled(SignOf(turned), v)))
      == Scaled(SignOf(if axis.PauliY? && h then !turned else turned), On(u, q, v))
  {
    hide On, Scaled, PauliMat, Through, Times;
    var u := PauliMat(Through(axis, h));
    OnOfScaled(u, q, SignOf(turned), v);
    ScaledScaled(SignOf(axis.PauliY? && h), SignOf(turned), On(u, q, v));
    SignProduct(axis.PauliY? && h, turned);
  }

  lemma SignProduct(a: bool, b: bool)
    ensures Times(SignOf(a), SignOf(b)) == SignOf(a != b)
  {
  }

  lemma {:induction false} TurnFrom(axes: seq<Axis>, qs: seq<nat>, pend: seq<Pending>, result: bool)
    requires |axes| == |qs| && Within(qs, |pend|)
    ensures Turn(axes, qs, pend, result) == (result != Turn(axes, qs, pend, false))
  {
    if axes != [] {
      TurnFrom(axes[..|axes| - 1], qs[..|axes| - 1], pend, result);
    }
  }

  // ---------------------------------------------------------------- the assertion decides

  /** With the queue run and no rotation pending on the qubits, the rewritten product decides what the state is. */
  lemma RewrittenDecides(f: Sim, axes: seq<Axis>, qs: seq<nat>, result: bool)
    requires 2.0 * f.r * f.r == 1.0 && f.queue == []
    requires |axes| == |qs| && Within(qs, |f.pend|) && !AnyRotation(f.pend, qs)
    ensures Eigen(Rewritten(axes, qs, f.pend), qs, Turn(axes, qs, f.pend, result), f.psi)
      <==> Eigen(axes, qs, result, Denoted(f))
  {
    hide Scaled, PauliString, Denoted, Layer, Rewritten, Turn, AnyRotation, Times, SignOf;
    var w, n := f.psi, |f.pend|;
    var p := PauliString(Rewritten(axes, qs, f.pend), qs, w);
    var turned := Turn(axes, qs, f.pend, false);
    StringEnters(axes, qs, f, w);
    DenotedIsLayer(f);
    TurnFrom(axes, qs, f.pend, result);
    SignProduct(result, turned);
    ScaledScaled(SignOf(result), SignOf(turned), p);
    LayerScaled(f.r, f.pend, n, SignOf(result), Scaled(SignOf(turned), p));
    var q := Scaled(SignOf(Turn(axes, qs, f.pend, result)), p);
    assert Scaled(SignOf(result), PauliString(axes, qs, Denoted(f))) == Layer(f.r, f.pend, n, q);
    if Layer(f.r, f.pend, n, w) == Layer(f.r, f.pend, n, q) {
      LayerInjective(f.r, f.pend, n, w, q);
    }
  }

  /**
   The entry test on the state an assertion has prepared, with the rewritten axes and sign, holds exactly when
   the denoted state is an eigenstate of the product with the sign asserted.
   */
  lemma AssertDecides(s: Sim, axes: seq<Axis>, qs: seq<nat>, result: bool)
    requires LazyQueue.Valid(s) && |axes| == |qs| && Within(qs, |s.pend|) && !Trivial(axes)
    ensures var u := Unrotated(s, qs);
      Eigen(Rewritten(axes, qs, u.pend), qs, Turn(axes, qs, u.pend, result), StepAssert(s, axes, qs).psi)
      <==> Eigen(axes, qs, result, Denoted(s))
    ensures LazyQueue.Valid(StepAssert(s, axes, qs)) && SameState(Denoted(StepAssert(s, axes, qs)), Denoted(s))
  {
    hide Denoted, SameState, Flush, Eigen, LazyQueue.Valid, Rewritten, Turn, AnyRotation, Flushed;
    var u, f := Unrotated(s, qs), StepAssert(s, axes, qs);
    UnrotatedFacts(s, qs);
    FlushedFacts(u, qs, LevelQueue);
    SamePending(u, qs);
    SameTrans(Denoted(f), Denoted(u), Denoted(s));
    NormalizerOf(f);
    RewrittenDecides(f, axes, qs, result);
    SameEigen(axes, qs, result, Denoted(f), Denoted(s));
  }

  lemma UnrotatedFacts(s: Sim, qs: seq<nat>)
    requires LazyQueue.Valid(s) && Within(qs, |s.pend|)
    ensures LazyQueue.Valid(Unrotated(s, qs)) && SameState(Denoted(Unrotated(s, qs)), Denoted(s))
    ensures !AnyRotation(Unrotated(s, qs).pend, qs)
  {
    hide Denoted, SameState, Flush, LazyQueue.Valid, Flushed;
    if AnyRotation(s.pend, qs) {
      FlushedFacts(s, qs, LevelRy);
      forall i | 0 <= i < |qs| ensures Flush(s, qs, LevelRy).pend[qs[i]].Nothing() {
        RyClears(s.pend[qs[i]]);
      }
    } else {
      SameRefl(Denoted(s));
    }
  }

  lemma SamePending(u: Sim, qs: seq<nat>)
    requires LazyQueue.Valid(u) && Within(qs, |u.pend|)
    ensures Flush(u, qs, LevelQueue).pend == u.pend
  {
    hide Denoted, SameState, Flush, LazyQueue.Valid;
    FlushedFacts(u, qs, LevelQueue);
  }

  lemma SameEigen(axes: seq<Axis>, qs: seq<nat>, result: bool, v: Wave, w: Wave)
    requires |axes| == |qs| && SameState(v, w)
    ensures Eigen(axes, qs, result, v) <==> Eigen(axes, qs, result, w)
  {
    hide SameState, Scaled, PauliString;
    if Eigen(axes, qs, result, w) {
      EigenUpToPhase(axes, qs, SignOf(result), v, w);
    }
    if Eigen(axes, qs, result, v) {
      SameSym(v, w);
      EigenUpToPhase(axes, qs, SignOf(result), w, v);
    }
  }
}
