/**
 The occupancy flags are sound: a qubit not flagged is 0 in every basis state of the denoted state
 and has nothing pending, through every queued gate, measurement, reset and release.
 */
module Occupancy {
  import opened Amplitudes
  import opened Operators
  import opened Gates
  import opened LazyQueue
  import opened LazyMeaning
  import opened LazySteps

  /** Qubit `q` is 0 in every basis state of `w`. */
  ghost predicate QubitZero(q: nat, w: Wave) { forall l: Label :: q in l ==> w[l] == ZERO }

  ghost predicate Sound(s: Sim) {
    && Valid(s)
    && (forall q :: 0 <= q < |s.pend| && !s.occ[q] ==>
          s.pend[q].Nothing() && QubitZero(q, RunQueue(s.queue, s.psi)))
    && Confined(|s.pend|, RunQueue(s.queue, s.psi))
  }

  /** No basis state reaches beyond the first `n` qubits. */
  ghost predicate Confined(n: nat, w: Wave) { forall q: nat :: q >= n ==> QubitZero(q, w) }

  /** The qubits an operator may set. */
  function Targets(g: Operator): set<nat> {
    match g
    case OnQubit(cs, u, q) => {q}
    case PhaseOn(mask, p) => {}
    case Swapping(cs, a, b) => {a, b}
  }

  lemma MixedZero(u: Mat, one: bool)
    ensures Plus(Times(Row0(u, one), ZERO), Times(Row1(u, one), ZERO)) == ZERO
  {
  }

  lemma TimesNothing(z: Complex)
    ensures Times(z, ZERO) == ZERO
  {
  }

  lemma ApplyKeepsZero(g: Operator, q: nat, w: Wave)
    requires q !in Targets(g) && QubitZero(q, w)
    ensures QubitZero(q, Apply(g, w))
  {
    hide Times, Plus;
    forall l: Label | q in l ensures Apply(g, w)[l] == ZERO {
      ZeroAt(g, q, w, l);
    }
  }

  lemma ZeroAt(g: Operator, q: nat, w: Wave, l: Label)
    requires q !in Targets(g) && QubitZero(q, w) && q in l
    ensures Apply(g, w)[l] == ZERO
  {
    hide Times, Plus;
    match g
    case OnQubit(cs, u, t) =>
      assert q in l - {t} && q in l + {t};
      MixedZero(u, t in l);
    case PhaseOn(mask, p) => TimesNothing(p);
    case Swapping(cs, a, b) => assert q in Exchanged(cs, a, b, l);
  }

  lemma ApplyKeepsConfined(g: Operator, n: nat, w: Wave)
    requires Confined(n, w) && forall t :: t in Targets(g) ==> t < n
    ensures Confined(n, Apply(g, w))
  {
    hide QubitZero, Apply;
    forall q: nat | q >= n ensures QubitZero(q, Apply(g, w)) {
      ApplyKeepsZero(g, q, w);
    }
  }

  lemma OnKeepsConfined(u: Mat, t: nat, n: nat, w: Wave)
    requires Confined(n, w) && t < n
    ensures Confined(n, On(u, t, w))
  {
    hide On, Confined;
    ApplyKeepsConfined(OnQubit({}, u, t), n, w);
    OnIsApply(u, t, w);
  }

  lemma OnKeepsZero(u: Mat, t: nat, q: nat, w: Wave)
    requires q != t && QubitZero(q, w)
    ensures QubitZero(q, On(u, t, w))
  {
    hide On, QubitZero;
    ApplyKeepsZero(OnQubit({}, u, t), q, w);
    OnIsApply(u, t, w);
  }

  lemma LayerKeepsZero(r: real, pend: seq<Pending>, k: nat, q: nat, w: Wave)
    requires k <= |pend| && QubitZero(q, w) && (q < |pend| ==> pend[q].Nothing())
    ensures QubitZero(q, Layer(r, pend, k, w))
  {
    hide On, PendingMat, Layer, QubitZero, Pending.Nothing;
    if k == 0 {
      LayerNone(r, pend, w);
    } else {
      LayerKeepsZero(r, pend, k - 1, q, w);
      LayerStep(r, pend, k, w);
      if k - 1 == q {
        NothingIsIdentity(r, pend[q]);
        OnIdentity(q, Layer(r, pend, k - 1, w));
      } else {
        OnKeepsZero(PendingMat(r, pend[k - 1]), k - 1, q, Layer(r, pend, k - 1, w));
      }
    }
  }

  /** What the flags promise about the state the user sees. */
  lemma UnoccupiedIsZero(s: Sim, q: nat)
    requires Sound(s) && q < |s.pend| && !s.occ[q]
    ensures QubitZero(q, Denoted(s))
  {
    hide QubitZero, Layer, RunQueue;
    LayerKeepsZero(s.r, s.pend, |s.pend|, q, RunQueue(s.queue, s.psi));
  }

  // ---------------------------------------------------------------- flushes and pushes

  lemma EmptyQueue(ops: seq<Operation>, w: Wave)
    requires ops == []
    ensures RunQueue(ops, w) == w
  {
    hide Apply, AsOperator;
  }

  lemma RotatedKeepsZero(axisY: bool, a: Angle, t: nat, q: nat, w: Wave)
    requires q != t && QubitZero(q, w)
    ensures QubitZero(q, Rotated(axisY, a, t, w))
  {
    hide On, QubitZero, RxMat, RyMat;
    OnKeepsZero(if axisY then Y_MAT else X_MAT, t, q, w);
    OnKeepsZero(if axisY then RyMat(a) else RxMat(a), t, q, w);
  }

  lemma FlushQubitKeepsZero(s: Sim, t: nat, level: Level, q: nat)
    requires t < |s.pend| && q < |s.pend| && s.pend[q].Nothing() && QubitZero(q, s.psi)
    ensures QubitZero(q, FlushQubit(s, t, level).psi) && FlushQubit(s, t, level).pend[q].Nothing()
  {
    hide On, QubitZero, Rotated, HMat;
    if t != q {
      OnKeepsZero(HMat(s.r), t, q, s.psi);
      var s1 := FlushH(s, t);
      RotatedKeepsZero(false, s1.pend[t].ax, t, q, s1.psi);
      var s2 := FlushRx(s1, t);
      RotatedKeepsZero(true, s2.pend[t].ay, t, q, s2.psi);
    }
  }

  lemma RotatedKeepsConfined(axisY: bool, a: Angle, t: nat, n: nat, w: Wave)
    requires Confined(n, w) && t < n
    ensures Confined(n, Rotated(axisY, a, t, w))
  {
    hide On, Confined, RxMat, RyMat;
    OnKeepsConfined(if axisY then Y_MAT else X_MAT, t, n, w);
    OnKeepsConfined(if axisY then RyMat(a) else RxMat(a), t, n, w);
  }

  lemma FlushQubitKeepsConfined(s: Sim, t: nat, level: Level, n: nat)
    requires t < |s.pend| <= n && Confined(n, s.psi)
    ensures Confined(n, FlushQubit(s, t, level).psi)
  {
    hide On, Confined, Rotated, HMat;
    OnKeepsConfined(HMat(s.r), t, n, s.psi);
    var s1 := FlushH(s, t);
    RotatedKeepsConfined(false, s1.pend[t].ax, t, n, s1.psi);
    var s2 := FlushRx(s1, t);
    RotatedKeepsConfined(true, s2.pend[t].ay, t, n, s2.psi);
  }

  lemma FlushQubitsKeepsConfined(s: Sim, qs: seq<nat>, level: Level, n: nat)
    requires Within(qs, |s.pend|) && |s.pend| <= n && Confined(n, s.psi)
    ensures Confined(n, FlushQubits(s, qs, level).psi)
  {
    hide Confined, FlushQubit;
    if qs != [] {
      FlushQubitsKeepsConfined(s, qs[..|qs| - 1], level, n);
      FlushQubitKeepsConfined(FlushQubits(s, qs[..|qs| - 1], level), qs[|qs| - 1], level, n);
    }
  }

  lemma FlushQubitsKeepsZero(s: Sim, qs: seq<nat>, level: Level, q: nat)
    requires Within(qs, |s.pend|) && q < |s.pend| && s.pend[q].Nothing() && QubitZero(q, s.psi)
    ensures QubitZero(q, FlushQubits(s, qs, level).psi) && FlushQubits(s, qs, level).pend[q].Nothing()
  {
    hide QubitZero, FlushQubit, Pending.Nothing;
    if qs != [] {
      FlushQubitsKeepsZero(s, qs[..|qs| - 1], level, q);
      FlushQubitKeepsZero(FlushQubits(s, qs[..|qs| - 1], level), qs[|qs| - 1], level, q);
    }
  }

  lemma FlushSound(s: Sim, qs: seq<nat>, level: Level)
    requires Sound(s) && Within(qs, |s.pend|)
    ensures Sound(Flush(s, qs, level)) && Flush(s, qs, level).occ == s.occ && Flush(s, qs, level).queue == []
    ensures level.LevelRy? ==> forall i :: 0 <= i < |qs| ==> Flush(s, qs, level).pend[qs[i]].Nothing()
  {
    hide QubitZero, FlushQubits, RunQueue, Denoted, SameState, Pending.Nothing, Flushed, Pending.Tidy, Confined;
    FlushedFacts(s, qs, level);
    var f := Flush(s, qs, level);
    FlushQubitsKeepsConfined(FlushQueue(s), qs, level, |s.pend|);
    EmptyQueue(f.queue, f.psi);
    forall q | 0 <= q < |s.pend| && !f.occ[q]
      ensures f.pend[q].Nothing() && QubitZero(q, f.psi)
    {
      FlushQubitsKeepsZero(FlushQueue(s), qs, level, q);
    }
    if level.LevelRy? {
      forall i | 0 <= i < |qs| ensures f.pend[qs[i]].Nothing() {
        RyClears(s.pend[qs[i]]);
      }
    }
  }

  lemma FlushOneQubit(s: Sim, t: nat)
    requires t < |s.pend| && s.queue == []
    ensures Flush(s, [t], LevelRy) == FlushQubit(s, t, LevelRy) && FlushQubit(s, t, LevelRy).queue == []
  {
    hide On, Rotated, HMat, RunQueue;
    EmptyQueue(s.queue, s.psi);
    assert FlushQueue(s) == s;
    assert [t][..0] == [] && FlushQubits(s, [], LevelRy) == s;
    assert FlushQubits(s, [t], LevelRy) == FlushQubit(FlushQubits(s, [t][..0], LevelRy), t, LevelRy);
  }

  lemma {:induction false} FlushBelowSound(s: Sim, k: nat)
    requires Sound(s) && s.queue == [] && k <= |s.pend|
    ensures Sound(FlushBelow(s, k)) && FlushBelow(s, k).queue == []
  {
    hide Sound, Flush, FlushQubit;
    if k > 0 {
      FlushBelowSound(s, k - 1);
      var t := FlushBelow(s, k - 1);
      FlushOneQubit(t, k - 1);
      FlushSound(t, [k - 1], LevelRy);
    }
  }

  lemma FlushAllSound(s: Sim)
    requires Sound(s)
    ensures Sound(FlushAll(s)) && FlushAll(s).queue == []
  {
    hide Sound, RunQueue, FlushBelow;
    FlushQueueSound(s);
    FlushBelowSound(FlushQueue(s), |s.pend|);
  }

  lemma RyClears(p: Pending)
    ensures Flushed(p, LevelRy).Nothing()
  {
  }

  lemma MaybeFlushSound(c: bool, s: Sim, qs: seq<nat>, level: Level)
    requires Sound(s) && Within(qs, |s.pend|)
    ensures Sound(if c then Flush(s, qs, level) else s)
  {
    hide Sound, Flush;
    if c {
      FlushSound(s, qs, level);
    }
  }

  lemma ExecuteIfSound(s: Sim, qs: seq<nat>)
    requires Sound(s) && Within(qs, |s.pend|)
    ensures Sound(ExecuteIf(s, qs)) && ExecuteIf(s, qs).occ == s.occ
  {
    hide Sound, Flush;
    if AnyPending(s.pend, qs) {
      FlushSound(s, qs, LevelRy);
    }
  }

  /** Changing what is pending on an occupied qubit. */
  lemma RependSound(s: Sim, q: nat, p: Pending)
    requires Sound(s) && q < |s.pend| && p.Tidy() && (s.occ[q] || p.Nothing())
    ensures Sound(s.(pend := s.pend[q := p]))
  {
    hide QubitZero, RunQueue;
  }

  lemma OccupySound(s: Sim, q: nat)
    requires Sound(s)
    ensures Sound(Occupy(s, q))
  {
    hide QubitZero, RunQueue;
  }

  lemma PushSound(s: Sim, op: Operation)
    requires Sound(s)
    requires forall t :: t in Targets(AsOperator(op)) ==> t < |s.pend| && (t < |s.occ| ==> s.occ[t])
    ensures Sound(Push(s, op))
  {
    hide QubitZero, RunQueue, Apply, AsOperator, Targets, Confined;
    var w := RunQueue(s.queue, s.psi);
    RunPush(s.queue, op, s.psi);
    ApplyKeepsConfined(AsOperator(op), |s.pend|, w);
    forall q | 0 <= q < |s.pend| && !s.occ[q] ensures QubitZero(q, Apply(AsOperator(op), w)) {
      ApplyKeepsZero(AsOperator(op), q, w);
    }
  }

  /** An operation on a qubit that becomes occupied. */
  lemma PushOccupySound(s: Sim, op: Operation, q: nat)
    requires Sound(s) && Targets(AsOperator(op)) <= {q} && q < |s.pend|
    ensures Sound(Occupy(Push(s, op), q))
  {
    hide Sound, AsOperator, Targets;
    OccupySound(s, q);
    PushSound(Occupy(s, q), op);
    assert Occupy(Push(s, op), q) == Push(Occupy(s, q), op);
  }

  // ---------------------------------------------------------------- the gates

  lemma PauliSound(s: Sim, q: nat)
    requires Sound(s) && q < |s.pend|
    ensures Sound(StepX(s, q)) && Sound(StepY(s, q)) && Sound(StepZ(s, q))
  {
    hide QubitZero, RunQueue, Negated;
    var p := s.pend[q];
    RependSound(s, q, if p.y then p.(ay := Negated(p.ay)) else p);
    RependSound(s, q, if p.x then p.(ax := Negated(p.ax)) else p);
    RependSound(s, q, NegatedBoth(p));
    assert s.pend[q := p] == s.pend;
    var a := s.(pend := s.pend[q := if p.y then p.(ay := Negated(p.ay)) else p]);
    var b := s.(pend := s.pend[q := if p.x then p.(ax := Negated(p.ax)) else p]);
    var c := s.(pend := s.pend[q := NegatedBoth(p)]);
    PushOccupySound(a, OpX(q), q);
    PushSound(a, OpZ(q));
    PushOccupySound(b, OpY(q), q);
    PushOccupySound(c, OpX(q), q);
    PushSound(c, OpZ(q));
  }

  lemma HSound(s: Sim, q: nat)
    requires Sound(s) && q < |s.pend|
    ensures Sound(StepH(s, q))
  {
    hide QubitZero, RunQueue, Negated, Flush, FlushedOn;
    var p := s.pend[q];
    var s1 := if p.y then s.(pend := s.pend[q := p.(ay := Negated(p.ay))]) else s;
    assert Sound(s1);
    FlushSound(s1, [q], LevelRx);
    var s2 := if p.x then Flush(s1, [q], LevelRx) else s1;
    var o := Occupy(s2, q);
    OccupySound(s2, q);
    RependSound(o, q, o.pend[q].(h := !o.pend[q].h));
  }

  lemma MCXSound(s: Sim, cs: seq<nat>, t: nat)
    requires Sound(s) && t < |s.pend| && Within(cs, |s.pend|)
    ensures Sound(StepMCX(s, cs, t))
  {
    hide Sound, RunQueue, Flush, ExecuteIf, StepX;
    if cs == [] {
      PauliSound(s, t);
    } else {
      ExecuteIfSound(s, cs);
      FlushSound(s, cs, LevelRy);
      var s1 := ClearControlsOfMCX(s, cs, t);
      FlushSound(s1, [t], LevelRy);
      var s2 := if s1.pend[t].y then Flush(s1, [t], LevelRy) else s1;
      PushOccupySound(s2, OpMCX({t}, cs[0]), cs[0]);
      PushSound(s2, OpMCZ(SetOf(cs), t));
      PushOccupySound(s2, OpMCX(SetOf(cs), t), t);
    }
  }

  lemma MCYSound(s: Sim, cs: seq<nat>, t: nat)
    requires Sound(s) && t < |s.pend| && Within(cs, |s.pend|)
    ensures Sound(StepMCY(s, cs, t))
  {
    hide Sound, RunQueue, Flush, ExecuteIf, StepY;
    if cs == [] {
      PauliSound(s, t);
    } else {
      var s1 := ExecuteIf(s, cs);
      ExecuteIfSound(s, cs);
      FlushSound(s1, [t], LevelRx);
      var s2 := if s1.pend[t].x then Flush(s1, [t], LevelRx) else s1;
      PushSound(s2, OpZ(cs[0]));
      PushSound(s2, OpMCZ(SetOf(cs), cs[0]));
      var s3 := if !s2.pend[t].h then s2
                else if |cs| == 1 then Push(s2, OpZ(cs[0]))
                else Push(s2, OpMCZ(SetOf(cs), cs[0]));
      PushOccupySound(s3, OpMCY(SetOf(cs), t), t);
    }
  }

  lemma MCZSound(s: Sim, cs: seq<nat>, t: nat)
    requires Sound(s) && t < |s.pend| && Within(cs, |s.pend|)
    ensures Sound(StepMCZ(s, cs, t))
  {
    hide Sound, RunQueue, Flush, StepZ, CountObstacles, FirstH;
    if cs == [] {
      PauliSound(s, t);
    } else {
      var i := FirstH(s.pend, cs);
      if i < |cs| {
        PushOccupySound(s, OpMCX(SetOf(cs[i := t]), cs[i]), cs[i]);
      }
      PushOccupySound(s, OpMCX(SetOf(cs), t), t);
      FlushSound(s, cs, LevelRy);
      FlushSound(Flush(s, cs, LevelRy), [t], LevelRy);
      PushSound(Flush(Flush(s, cs, LevelRy), [t], LevelRy), OpMCZ(SetOf(cs), t));
      PushSound(s, OpMCZ(SetOf(cs), t));
    }
  }

  lemma PhaseSound(s: Sim, p: Complex, q: nat)
    requires Sound(s) && q < |s.pend|
    ensures Sound(StepPhase(s, p, q))
  {
    hide Sound, ExecuteIf;
    ExecuteIfSound(s, [q]);
    PushSound(ExecuteIf(s, [q]), OpPhase(q, p));
  }

  lemma MCPhaseSound(s: Sim, cs: seq<nat>, p: Complex, t: nat)
    requires Sound(s) && t < |s.pend| && Within(cs, |s.pend|)
    ensures Sound(StepMCPhase(s, cs, p, t))
  {
    hide Sound, ExecuteIf, StepPhase;
    PhaseSound(s, p, t);
    ExecuteIfSound(s, cs);
    ExecuteIfSound(ExecuteIf(s, cs), [t]);
    PushSound(ExecuteIf(ExecuteIf(s, cs), [t]), OpMCPhase(SetOf(cs), t, p));
  }

  /** Exchanging two qubits exchanges which of them is 0; doing so under controls needs both 0. */
  lemma ExchangeZero(cs: set<nat>, a: nat, b: nat, q: nat, w: Wave)
    requires q == a || q == b
    requires if cs == {} then QubitZero(if q == a then b else a, w) else QubitZero(a, w) && QubitZero(b, w)
    ensures QubitZero(q, Exchange2(cs, a, b, w))
  {
    hide Exchanged;
    forall l: Label | q in l ensures Exchange2(cs, a, b, w)[l] == ZERO {
      ExchangedHolds(cs, a, b, q, l);
      assert w[Exchanged(cs, a, b, l)] == ZERO;
    }
  }

  lemma ExchangedHolds(cs: set<nat>, a: nat, b: nat, q: nat, l: Label)
    requires (q == a || q == b) && q in l
    ensures var m := Exchanged(cs, a, b, l);
      if cs == {} then (if q == a then b else a) in m else a in m || b in m
  {
  }

  lemma SWAPSound(s: Sim, a: nat, b: nat)
    requires Sound(s) && a < |s.pend| && b < |s.pend|
    ensures Sound(StepSWAP(s, a, b))
  {
    hide QubitZero, RunQueue, Exchange2, Controlled, Diagonal, Confined;
    var lo, hi := if a > b then b else a, if a > b then a else b;
    var t := StepSWAP(s, a, b);
    var w := RunQueue(s.queue, s.psi);
    RunPush(s.queue, OpSwap(lo, hi), s.psi);
    ApplyKeepsConfined(Swapping({}, lo, hi), |s.pend|, w);
    forall q | 0 <= q < |s.pend| && !t.occ[q] ensures t.pend[q].Nothing() && QubitZero(q, RunQueue(t.queue, t.psi)) {
      if q == a || q == b {
        ExchangeZero({}, lo, hi, q, w);
      } else {
        ApplyKeepsZero(Swapping({}, lo, hi), q, w);
      }
    }
  }

  lemma CSWAPSound(s: Sim, cs: seq<nat>, a: nat, b: nat)
    requires Sound(s) && a < |s.pend| && b < |s.pend| && Within(cs, |s.pend|) && |s.occ| == |s.pend|
    ensures Sound(StepCSWAP(s, cs, a, b))
  {
    hide Sound, ExecuteIf, StepSWAP;
    if cs == [] {
      SWAPSound(s, a, b);
    } else {
      var lo, hi := if a > b then b else a, if a > b then a else b;
      var s3 := ExecuteIf(ExecuteIf(ExecuteIf(s, cs), [lo]), [hi]);
      ExecuteIfSound(s, cs);
      ExecuteIfSound(ExecuteIf(s, cs), [lo]);
      ExecuteIfSound(ExecuteIf(ExecuteIf(s, cs), [lo]), [hi]);
      var op := OpMCSwap(SetOf(cs), lo, hi);
      if s.occ[lo] || s.occ[hi] {
        var o := Occupy(Occupy(s3, lo), hi);
        OccupySound(s3, lo);
        OccupySound(Occupy(s3, lo), hi);
        PushSound(o, op);
        assert Occupy(Occupy(Push(s3, op), lo), hi) == Push(o, op);
      } else {
        assert cs[0] in SetOf(cs);
        BothZeroSound(s3, SetOf(cs), lo, hi);
      }
    }
  }

  lemma BothZeroSound(s: Sim, cs: set<nat>, a: nat, b: nat)
    requires Sound(s) && a < |s.pend| && b < |s.pend| && !s.occ[a] && !s.occ[b] && cs != {}
    ensures Sound(Push(s, OpMCSwap(cs, a, b)))
  {
    hide QubitZero, RunQueue, Exchange2, Controlled, Diagonal, Confined;
    var w := RunQueue(s.queue, s.psi);
    RunPush(s.queue, OpMCSwap(cs, a, b), s.psi);
    ApplyKeepsConfined(Swapping(cs, a, b), |s.pend|, w);
    forall q | 0 <= q < |s.pend| && !s.occ[q] ensures QubitZero(q, Exchange2(cs, a, b, w)) {
      if q == a || q == b {
        ExchangeZero(cs, a, b, q, w);
      } else {
        ApplyKeepsZero(Swapping(cs, a, b), q, w);
      }
    }
  }

  /** Storing `w` in place of the flushed state. */
  lemma RestoreSound(s: Sim, w: Wave)
    requires Sound(s) && s.queue == []
    requires forall q :: 0 <= q < |s.pend| && !s.occ[q] && QubitZero(q, s.psi) ==> QubitZero(q, w)
    requires Confined(|s.pend|, s.psi) ==> Confined(|s.pend|, w)
    ensures Sound(s.(psi := w))
  {
    hide QubitZero, RunQueue, Confined;
    EmptyQueue([], s.psi);
    EmptyQueue([], w);
  }

  lemma MCHSound(s: Sim, cs: seq<nat>, t: nat)
    requires Sound(s) && t < |s.pend| && Within(cs, |s.pend|)
    ensures Sound(StepMCH(s, cs, t))
  {
    hide Sound, RunQueue, Flush, ExecuteIf, StepH, Controlled, HMat;
    if cs == [] {
      HSound(s, t);
    } else {
      var s1 := ExecuteIf(s, cs);
      ExecuteIfSound(s, cs);
      var c := s1.pend[t].y || s1.pend[t].x;
      MaybeFlushSound(c, s1, [t], LevelRy);
      var s2 := FlushQueue(if c then Flush(s1, [t], LevelRy) else s1);
      FlushQueueSound(if c then Flush(s1, [t], LevelRy) else s1);
      SoundSizes(s2);
      OccupySound(s2, t);
      MatrixSound(Occupy(s2, t), SetOf(cs), HMat(s.r), t);
      assert StepMCH(s, cs, t) == Occupy(s2, t).(psi := Controlled(SetOf(cs), HMat(s.r), t, Occupy(s2, t).psi));
    }
  }

  lemma SoundSizes(s: Sim)
    requires Sound(s)
    ensures |s.occ| == |s.pend|
  {
  }

  /** A kernel on a qubit that is flagged, with nothing queued. */
  lemma MatrixSound(s: Sim, cs: set<nat>, u: Mat, t: nat)
    requires Sound(s) && t < |s.pend| && |s.occ| == |s.pend| && s.occ[t] && s.queue == []
    ensures Sound(s.(psi := Controlled(cs, u, t, s.psi)))
  {
    hide RunQueue, Controlled, QubitZero, Confined;
    var g := OnQubit(cs, u, t);
    EmptyQueue(s.queue, s.psi);
    EmptyQueue(s.queue, Controlled(cs, u, t, s.psi));
    ApplyKeepsConfined(g, |s.pend|, s.psi);
    forall q | 0 <= q < |s.pend| && !s.occ[q] ensures QubitZero(q, Controlled(cs, u, t, s.psi)) {
      ApplyKeepsZero(g, q, s.psi);
    }
  }

  lemma FlushQueueSound(s: Sim)
    requires Sound(s)
    ensures Sound(FlushQueue(s))
  {
    hide QubitZero, RunQueue;
    EmptyQueue([], FlushQueue(s).psi);
  }

  lemma RSound(s: Sim, axis: Axis, a: Angle, q: nat)
    requires Sound(s) && q < |s.pend|
    ensures Sound(StepR(s, axis, a, q))
  {
    hide QubitZero, RunQueue, Flush, Sum, StepPhase;
    var p := s.pend[q];
    match axis
    case PauliI =>
    case PauliY =>
      OccupySound(s, q);
      RependSound(Occupy(s, q), q, p.(y := true, ay := Sum(p.ay, a)));
    case PauliX =>
      MaybeFlushSound(p.y, s, [q], LevelRy);
      var f := if p.y then Flush(s, [q], LevelRy) else s;
      var p1 := f.pend[q];
      OccupySound(f, q);
      RependSound(Occupy(f, q), q, p1.(x := true, ax := Sum(p1.ax, a)));
    case PauliZ =>
      MaybeFlushSound(p.y, s, [q], LevelRy);
      var f1 := if p.y then Flush(s, [q], LevelRy) else s;
      MaybeFlushSound(f1.pend[q].x, f1, [q], LevelQueue);
      var f2 := if f1.pend[q].x then Flush(f1, [q], LevelQueue) else f1;
      MaybeFlushSound(f2.pend[q].h, f2, [q], LevelH);
      var f3 := if f2.pend[q].h then Flush(f2, [q], LevelH) else f2;
      PhaseSound(f3, Times(Complex(a.c, a.s), Complex(a.c, a.s)), q);
  }

  /** Every gate keeps the flags sound, the trap of MCX included. */
  lemma StepSound(s: Sim, g: Gate)
    requires Sound(s) && Legal(g, |s.pend|)
    ensures Sound(Step(s, g))
  {
    hide Sound, StepX, StepY, StepZ, StepH, StepMCX, StepMCY, StepMCZ, StepMCH, StepPhase, StepMCPhase, StepSWAP,
         StepCSWAP, StepR;
    SoundSizes(s);
    match g
    case X(q) => PauliSound(s, q);
    case Y(q) => PauliSound(s, q);
    case Z(q) => PauliSound(s, q);
    case H(q) => HSound(s, q);
    case MCX(cs, q) => MCXSound(s, cs, q);
    case MCY(cs, q) => MCYSound(s, cs, q);
    case MCZ(cs, q) => MCZSound(s, cs, q);
    case MCH(cs, q) => MCHSound(s, cs, q);
    case Phase(p, q) => PhaseSound(s, p, q);
    case MCPhase(cs, p, q) => MCPhaseSound(s, cs, p, q);
    case SWAP(a, b) => SWAPSound(s, a, b);
    case CSWAP(cs, a, b) => CSWAPSound(s, cs, a, b);
    case R(axis, a, q) => RSound(s, axis, a, q);
  }

  /** Every run of gates keeps the flags sound. */
  lemma RunSound(s: Sim, gates: seq<Gate>)
    requires Sound(s) && forall i :: 0 <= i < |gates| ==> Legal(gates[i], |s.pend|)
    ensures Sound(Run(s, gates))
  {
    hide QubitZero, RunQueue, Step, Legal;
    if gates != [] {
      RunSound(s, gates[..|gates| - 1]);
      StepSound(Run(s, gates[..|gates| - 1]), gates[|gates| - 1]);
    }
  }

  // ---------------------------------------------------------------- measurement, reset, release

  /** Keeping outcome `one` of a qubit, rescaled by `k`. */
  function ProjectMat(one: bool, k: Complex): Mat {
    Mat(if one then ZERO else k, ZERO, ZERO, if one then k else ZERO)
  }

  /** Keeping outcome `one` of a qubit and setting it to 0. */
  function ResetMat(one: bool, k: Complex): Mat {
    Mat(if one then ZERO else k, if one then k else ZERO, ZERO, ZERO)
  }

  ghost function Vacate(s: Sim, q: nat): Sim {
    if q < |s.occ| then s.(occ := s.occ[q := false]) else s
  }

  /** The measurement of one qubit when the random draw says `one`; the first part is the result. */
  ghost function StepM(s: Sim, t: nat, one: bool, k: Complex): (result: (bool, Sim))
    requires t < |s.pend| && |s.occ| == |s.pend|
    ensures SameShape(s, result.1)
  {
    if !s.occ[t] then (false, s)
    else
      var f := Flush(s, [t], LevelRy);
      var m := f.(psi := On(ProjectMat(one, k), t, f.psi));
      (one, if one then m else Vacate(m, t))
  }

  ghost function StepReset(s: Sim, t: nat, one: bool, k: Complex): (s': Sim)
    requires t < |s.pend| && |s.occ| == |s.pend|
    ensures SameShape(s, s')
  {
    if !s.occ[t] then s
    else
      var f := Flush(s, [t], LevelRy);
      Vacate(f.(psi := On(ResetMat(one, k), t, f.psi)), t)
  }

  ghost predicate Has(w: Wave, t: nat, one: bool) { exists l: Label :: w[l] != ZERO && ((t in l) <==> one) }

  /** Releasing a qubit; the first part says whether it was found in a basis state. */
  ghost function StepRelease(s: Sim, t: nat, one: bool, k: Complex): (result: (bool, Sim))
    requires t < |s.pend| && |s.occ| == |s.pend|
    ensures SameShape(s, result.1)
  {
    if !s.occ[t] then (true, Vacate(s, t))
    else
      var f := Flush(s, [t], LevelRy);
      if Has(f.psi, t, true) && Has(f.psi, t, false) then
        (false, Vacate(f.(psi := On(ResetMat(one, k), t, f.psi)), t))
      else if Has(f.psi, t, true) then (true, Vacate(Flush(StepX(f, t), [t], LevelRy), t))
      else (true, Vacate(f, t))
  }

  lemma ClearsQubit(u: Mat, t: nat, w: Wave)
    requires u.m10 == ZERO && u.m11 == ZERO
    ensures QubitZero(t, On(u, t, w))
  {
    hide Times, Plus, Mixed;
    forall l: Label | t in l ensures On(u, t, w)[l] == ZERO {
      ClearsAt(u, t, w, l);
    }
  }

  lemma ClearsAt(u: Mat, t: nat, w: Wave, l: Label)
    requires u.m10 == ZERO && u.m11 == ZERO && t in l
    ensures Mixed(u, t, w, l) == ZERO
  {
    hide Times, Plus;
    ZeroTimes(w[l - {t}]);
    ZeroTimes(w[l + {t}]);
  }

  lemma ZeroTimes(z: Complex)
    ensures Times(ZERO, z) == ZERO && Plus(ZERO, ZERO) == ZERO
  {
  }

  /** A flushed qubit on which `u` leaves 0 may be flagged unoccupied. */
  lemma VacateSound(f: Sim, t: nat, u: Mat)
    requires Sound(f) && f.queue == [] && t < |f.pend| && f.pend[t].Nothing()
    requires f.occ[t] && u.m10 == ZERO && u.m11 == ZERO
    ensures Sound(Vacate(f.(psi := On(u, t, f.psi)), t))
  {
    hide QubitZero, RunQueue, On, Confined;
    var w := On(u, t, f.psi);
    OnKeepsConfined(u, t, |f.pend|, RunQueue(f.queue, f.psi));
    EmptyQueue([], f.psi);
    EmptyQueue([], w);
    ClearsQubit(u, t, f.psi);
    forall q | 0 <= q < |f.pend| && !f.occ[q] ensures QubitZero(q, w) {
      OnKeepsZero(u, t, q, f.psi);
    }
  }

  lemma MSound(s: Sim, t: nat, one: bool, k: Complex)
    requires Sound(s) && t < |s.pend|
    ensures Sound(StepM(s, t, one, k).1)
  {
    hide QubitZero, RunQueue, On, Flush, Confined;
    if s.occ[t] {
      var f := Flush(s, [t], LevelRy);
      FlushSound(s, [t], LevelRy);
      EmptyQueue(f.queue, f.psi);
      OnKeepsConfined(ProjectMat(one, k), t, |f.pend|, f.psi);
      assert f.pend[[t][0]].Nothing();
      if one {
        forall q | 0 <= q < |f.pend| && !f.occ[q] && QubitZero(q, f.psi)
          ensures QubitZero(q, On(ProjectMat(one, k), t, f.psi))
        {
          OnKeepsZero(ProjectMat(one, k), t, q, f.psi);
        }
        RestoreSound(f, On(ProjectMat(one, k), t, f.psi));
      } else {
        VacateSound(f, t, ProjectMat(one, k));
      }
    }
  }

  lemma ResetSound(s: Sim, t: nat, one: bool, k: Complex)
    requires Sound(s) && t < |s.pend|
    ensures Sound(StepReset(s, t, one, k)) && !StepReset(s, t, one, k).occ[t]
  {
    hide QubitZero, RunQueue, On, Flush;
    if s.occ[t] {
      var f := Flush(s, [t], LevelRy);
      FlushSound(s, [t], LevelRy);
      assert f.pend[[t][0]].Nothing();
      VacateSound(f, t, ResetMat(one, k));
    }
  }

  lemma NotHasIsZero(w: Wave, t: nat)
    requires !Has(w, t, true)
    ensures QubitZero(t, w)
  {
  }

  lemma XClears(w: Wave, t: nat)
    requires !Has(w, t, false)
    ensures QubitZero(t, On(X_MAT, t, w))
  {
    hide On, Has;
    forall l: Label | t in l ensures On(X_MAT, t, w)[l] == ZERO {
      NotHas(w, t, l - {t});
      XAt(w, t, l);
    }
  }

  lemma NotHas(w: Wave, t: nat, l: Label)
    requires !Has(w, t, false) && t !in l
    ensures w[l] == ZERO
  {
  }

  lemma XAt(w: Wave, t: nat, l: Label)
    requires t in l
    ensures On(X_MAT, t, w)[l] == w[l - {t}]
  {
    hide Times, Plus;
    FirstOfTwo(w[l - {t}], w[l + {t}]);
  }

  lemma FirstOfTwo(a: Complex, b: Complex)
    ensures Plus(Times(ONE, a), Times(ZERO, b)) == a
  {
  }

  lemma ZeroMayVacate(f: Sim, t: nat)
    requires Sound(f) && f.queue == [] && t < |f.pend| && f.pend[t].Nothing() && QubitZero(t, f.psi)
    ensures Sound(Vacate(f, t))
  {
    hide QubitZero, RunQueue;
    EmptyQueue([], f.psi);
  }

  /** Release leaves the qubit unoccupied and the flags sound, whatever state it was found in. */
  lemma ReleaseSound(s: Sim, t: nat, one: bool, k: Complex)
    requires Sound(s) && t < |s.pend|
    ensures Sound(StepRelease(s, t, one, k).1) && !StepRelease(s, t, one, k).1.occ[t]
  {
    hide QubitZero, RunQueue, On, Flush, StepX, Has;
    if s.occ[t] {
      var f := Flush(s, [t], LevelRy);
      FlushSound(s, [t], LevelRy);
      assert f.pend[[t][0]].Nothing();
      if Has(f.psi, t, true) && Has(f.psi, t, false) {
        VacateSound(f, t, ResetMat(one, k));
      } else if Has(f.psi, t, true) {
        var x := StepX(f, t);
        var g := Flush(x, [t], LevelRy);
        PauliSound(f, t);
        FlushSound(x, [t], LevelRy);
        assert g.pend[[t][0]].Nothing();
        FlippedStored(f, t);
        XClears(f.psi, t);
        ZeroMayVacate(g, t);
      } else {
        NotHasIsZero(f.psi, t);
        ZeroMayVacate(f, t);
      }
    } else {
      assert s.occ[t := false] == s.occ;
    }
  }

  lemma FlippedStored(f: Sim, t: nat)
    requires t < |f.pend| && f.queue == [] && f.pend[t].Nothing()
    ensures Flush(StepX(f, t), [t], LevelRy).psi == On(X_MAT, t, f.psi)
  {
    hide On, RunQueue, Apply, AsOperator;
    var x := StepX(f, t);
    RunPush([], OpX(t), f.psi);
    EmptyQueue([], f.psi);
    OpXIs(t, f.psi);
    assert [t][..0] == [];
    assert Flush(x, [t], LevelRy) == FlushQubit(FlushQubits(FlushQueue(x), [], LevelRy), t, LevelRy);
  }

  /** A measured state is the projection of the denoted state; the shortcut for unoccupied qubits is right. */
  lemma MPerforms(s: Sim, t: nat, one: bool, k: Complex)
    requires Valid(s) && t < |s.pend| && (s.occ[t] || Sound(s))
    ensures var (result, s') := StepM(s, t, one, k);
      Performs(s, s', OnQubit({}, ProjectMat(result, if s.occ[t] then k else ONE), t))
  {
    hide On, Flush, Performs, ProjectMat, QubitZero, RunQueue;
    if s.occ[t] {
      var u := ProjectMat(one, k);
      MatrixAfterFlush(s, t, u);
      var f := Flush(s, [t], LevelRy);
      Vacated(s, f.(psi := On(u, t, f.psi)), t, OnQubit({}, u, t));
    } else {
      IdlePerforms(s, t);
    }
  }

  lemma ResetPerforms(s: Sim, t: nat, one: bool, k: Complex)
    requires Valid(s) && t < |s.pend| && (s.occ[t] || Sound(s))
    ensures Performs(s, StepReset(s, t, one, k),
                     OnQubit({}, if s.occ[t] then ResetMat(one, k) else ResetMat(false, ONE), t))
  {
    hide On, Flush, Performs, QubitZero, RunQueue;
    if s.occ[t] {
      var u := ResetMat(one, k);
      MatrixAfterFlush(s, t, u);
      var f := Flush(s, [t], LevelRy);
      Vacated(s, f.(psi := On(u, t, f.psi)), t, OnQubit({}, u, t));
    } else {
      IdlePerforms(s, t);
      assert ProjectMat(false, ONE) == ResetMat(false, ONE);
    }
  }

  /** On an unoccupied qubit, doing nothing is measuring 0. */
  lemma IdlePerforms(s: Sim, t: nat)
    requires Sound(s) && t < |s.pend| && !s.occ[t]
    ensures Performs(s, s, OnQubit({}, ProjectMat(false, ONE), t))
  {
    hide QubitZero, RunQueue, Denoted, SameState, On, ProjectMat;
    UnoccupiedIsZero(s, t);
    ProjectZero(t, Denoted(s));
    OnIsApply(ProjectMat(false, ONE), t, Denoted(s));
    SameRefl(Denoted(s));
  }

  lemma Vacated(s: Sim, m: Sim, t: nat, g: Operator)
    requires Performs(s, m, g)
    ensures Performs(s, Vacate(m, t), g)
  {
    hide Layer, RunQueue, SameState, Apply;
  }

  lemma ProjectZero(t: nat, w: Wave)
    requires QubitZero(t, w)
    ensures On(ProjectMat(false, ONE), t, w) == w
  {
    forall l: Label ensures On(ProjectMat(false, ONE), t, w)[l] == w[l] {
      ProjectZeroAt(t, w, l);
    }
    hide *;
    SameWave(On(ProjectMat(false, ONE), t, w), w);
  }

  lemma ProjectZeroAt(t: nat, w: Wave, l: Label)
    requires QubitZero(t, w)
    ensures On(ProjectMat(false, ONE), t, w)[l] == w[l]
  {
    hide Times, Plus;
    assert t in l + {t};
    TimesUnit(w[l - {t}]);
    TimesUnit(ZERO);
    ZeroTimes(w[l - {t}]);
    ZeroTimes(w[l + {t}]);
    if t !in l {
      assert l - {t} == l;
    }
  }

  /** After a flush of the qubit, a matrix stored directly acts on the denoted state. */
  lemma MatrixAfterFlush(s: Sim, t: nat, u: Mat)
    requires Valid(s) && t < |s.pend|
    ensures var f := Flush(s, [t], LevelRy); Performs(s, f.(psi := On(u, t, f.psi)), OnQubit({}, u, t))
  {
    hide Denoted, SameState, Flush, On, Flushed, Performs;
    var f := Flush(s, [t], LevelRy);
    FlushedFacts(s, [t], LevelRy);
    RyClears(s.pend[t]);
    StoredMatrix(f, t, u);
    AfterFlush(s, f, f.(psi := On(u, t, f.psi)), OnQubit({}, u, t));
  }

  lemma StoredMatrix(f: Sim, t: nat, u: Mat)
    requires Valid(f) && f.queue == [] && t < |f.pend| && f.pend[t].Nothing()
    ensures Performs(f, f.(psi := On(u, t, f.psi)), OnQubit({}, u, t))
  {
    hide Denoted, SameState, On, All, RunQueue, Layer, Apply;
    var m := f.(psi := On(u, t, f.psi));
    DenotedIsAll(f);
    DenotedIsAll(m);
    EmptyQueue(f.queue, f.psi);
    OnIsApply(u, t, f.psi);
    OnIsApply(u, t, Denoted(f));
    PassAll(f.r, f.pend, OnQubit({}, u, t), f.psi);
    SameRefl(Denoted(m));
  }

  // ---------------------------------------------------------------- programs

  datatype Action =
    | Performing(g: Gate)
    | Measuring(t: nat, one: bool, k: Complex)
    | Resetting(t: nat, one: bool, k: Complex)
    | Releasing(t: nat, one: bool, k: Complex)

  predicate LegalAction(a: Action, n: nat) { if a.Performing? then Legal(a.g, n) else a.t < n }

  ghost function Act(s: Sim, a: Action): (s': Sim)
    requires |s.occ| == |s.pend| && LegalAction(a, |s.pend|)
    ensures SameShape(s, s')
  {
    match a
    case Performing(g) => Step(s, g)
    case Measuring(t, one, k) => StepM(s, t, one, k).1
    case Resetting(t, one, k) => StepReset(s, t, one, k)
    case Releasing(t, one, k) => StepRelease(s, t, one, k).1
  }

  ghost function ActAll(s: Sim, actions: seq<Action>): (s': Sim)
    requires |s.occ| == |s.pend| && forall i :: 0 <= i < |actions| ==> LegalAction(actions[i], |s.pend|)
    ensures SameShape(s, s')
  {
    if actions == [] then s else Act(ActAll(s, actions[..|actions| - 1]), actions[|actions| - 1])
  }

  lemma ActSound(s: Sim, a: Action)
    requires Sound(s) && |s.occ| == |s.pend| && LegalAction(a, |s.pend|)
    ensures Sound(Act(s, a))
  {
    hide Sound, Step, StepM, StepReset, StepRelease, Legal;
    match a
    case Performing(g) => StepSound(s, g);
    case Measuring(t, one, k) => MSound(s, t, one, k);
    case Resetting(t, one, k) => ResetSound(s, t, one, k);
    case Releasing(t, one, k) => ReleaseSound(s, t, one, k);
  }

  /**
   After any program of gates, measurements, resets and releases, a qubit that is not flagged has
   nothing pending and is 0 in every basis state of the denoted state.
   */
  lemma {:induction false} ActionsSound(s: Sim, actions: seq<Action>, q: nat)
    requires Sound(s) && |s.occ| == |s.pend| && forall i :: 0 <= i < |actions| ==> LegalAction(actions[i], |s.pend|)
    ensures Sound(ActAll(s, actions))
    ensures q < |s.pend| && !ActAll(s, actions).occ[q] ==>
      ActAll(s, actions).pend[q].Nothing() && QubitZero(q, Denoted(ActAll(s, actions)))
  {
    hide Act, QubitZero, RunQueue, Denoted, LegalAction, Pending.Nothing;
    if actions != [] {
      var n := |actions| - 1;
      ActionsSound(s, actions[..n], q);
      ActSound(ActAll(s, actions[..n]), actions[n]);
    }
    if q < |s.pend| && !ActAll(s, actions).occ[q] {
      UnoccupiedIsZero(ActAll(s, actions), q);
    }
  }
}
