/**
 What needs no flags: a simulator whose occupancy flags say too little still holds labels of its own qubits
 only, and no gate branches on the flags.
 */
module Bounds {
  import opened Amplitudes
  import opened Operators
  import opened Gates
  import opened LazyQueue
  import opened LazyMeaning
  import opened LazySteps
  import opened Occupancy

  /** The simulator's state but for what the flags promise. */
  ghost predicate Bounded(s: Sim) { Valid(s) && Confined(|s.pend|, RunQueue(s.queue, s.psi)) }

  /** The state with every qubit flagged. */
  ghost function AllFlagged(s: Sim): Sim { s.(occ := seq(|s.occ|, _ => true)) }

  /** Two states that differ in their flags only. */
  ghost predicate SameButFlags(s: Sim, t: Sim) { t == s.(occ := t.occ) && |t.occ| == |s.occ| }

  lemma FlaggedSound(s: Sim)
    requires Bounded(s)
    ensures Sound(AllFlagged(s)) && SameButFlags(AllFlagged(s), s)
  {
    hide Confined, RunQueue;
  }

  lemma SoundBounded(s: Sim)
    requires Sound(s)
    ensures Bounded(s) && |s.occ| == |s.pend|
  {
    hide Confined, RunQueue, QubitZero;
  }

  lemma BoundedFrom(s: Sim, t: Sim)
    requires Sound(s) && SameButFlags(s, t)
    ensures Bounded(t)
  {
    hide Confined, RunQueue, QubitZero;
  }

  // ---------------------------------------------------------------- flushes do not look at the flags

  lemma FlushQubitFlags(s: Sim, t: Sim, q: nat, level: Level)
    requires q < |s.pend| && SameButFlags(s, t)
    ensures SameButFlags(FlushQubit(s, q, level), FlushQubit(t, q, level)) && FlushQubit(t, q, level).occ == t.occ
  {
    hide On, HMat, Rotated;
  }

  lemma {:induction false} FlushQubitsFlags(s: Sim, t: Sim, qs: seq<nat>, level: Level)
    requires Within(qs, |s.pend|) && SameButFlags(s, t)
    ensures SameButFlags(FlushQubits(s, qs, level), FlushQubits(t, qs, level))
    ensures FlushQubits(t, qs, level).occ == t.occ
  {
    hide FlushQubit;
    if qs != [] {
      var n := |qs| - 1;
      FlushQubitsFlags(s, t, qs[..n], level);
      FlushQubitFlags(FlushQubits(s, qs[..n], level), FlushQubits(t, qs[..n], level), qs[n], level);
    }
  }

  lemma FlushFlags(s: Sim, t: Sim, qs: seq<nat>, level: Level)
    requires Within(qs, |s.pend|) && SameButFlags(s, t)
    ensures SameButFlags(Flush(s, qs, level), Flush(t, qs, level)) && Flush(t, qs, level).occ == t.occ
  {
    hide FlushQubits, RunQueue;
    FlushQubitsFlags(FlushQueue(s), FlushQueue(t), qs, level);
  }

  lemma MaybeFlushFlags(c: bool, s: Sim, t: Sim, qs: seq<nat>, level: Level)
    requires Within(qs, |s.pend|) && SameButFlags(s, t)
    ensures SameButFlags(if c then Flush(s, qs, level) else s, if c then Flush(t, qs, level) else t)
    ensures (if c then Flush(t, qs, level) else t).occ == t.occ
  {
    hide Flush, SameButFlags;
    if c {
      FlushFlags(s, t, qs, level);
    }
  }

  lemma ExecuteIfFlags(s: Sim, t: Sim, qs: seq<nat>)
    requires Within(qs, |s.pend|) && SameButFlags(s, t)
    ensures SameButFlags(ExecuteIf(s, qs), ExecuteIf(t, qs))
  {
    hide Flush;
    FlushFlags(s, t, qs, LevelRy);
  }

  lemma {:induction false} FlushBelowFlags(s: Sim, t: Sim, k: nat)
    requires k <= |s.pend| && SameButFlags(s, t)
    ensures SameButFlags(FlushBelow(s, k), FlushBelow(t, k))
  {
    hide FlushQubit;
    if k > 0 {
      FlushBelowFlags(s, t, k - 1);
      FlushQubitFlags(FlushBelow(s, k - 1), FlushBelow(t, k - 1), k - 1, LevelRy);
    }
  }

  // ---------------------------------------------------------------- nor do the gates

  lemma PauliFlags(s: Sim, t: Sim, q: nat)
    requires q < |s.pend| && SameButFlags(s, t)
    ensures SameButFlags(StepX(s, q), StepX(t, q))
    ensures SameButFlags(StepY(s, q), StepY(t, q))
    ensures SameButFlags(StepZ(s, q), StepZ(t, q))
  {
    hide Negated;
  }

  lemma HFlags(s: Sim, t: Sim, q: nat)
    requires q < |s.pend| && SameButFlags(s, t)
    ensures SameButFlags(StepH(s, q), StepH(t, q))
    ensures q < |t.occ| ==> StepH(t, q).occ == t.occ[q := true]
  {
    hide Flush, Negated;
    var p := s.pend[q];
    var s1 := if p.y then s.(pend := s.pend[q := p.(ay := Negated(p.ay))]) else s;
    var t1 := if p.y then t.(pend := t.pend[q := p.(ay := Negated(p.ay))]) else t;
    MaybeFlushFlags(p.x, s1, t1, [q], LevelRx);
  }

  lemma MCXFlags(s: Sim, t: Sim, cs: seq<nat>, q: nat)
    requires q < |s.pend| && Within(cs, |s.pend|) && SameButFlags(s, t)
    ensures SameButFlags(StepMCX(s, cs, q), StepMCX(t, cs, q))
  {
    hide Flush, ExecuteIf, StepX;
    if cs == [] {
      PauliFlags(s, t, q);
    } else {
      ExecuteIfFlags(s, t, cs);
      MaybeFlushFlags(true, s, t, cs, LevelRy);
      var s1, t1 := ClearControlsOfMCX(s, cs, q), ClearControlsOfMCX(t, cs, q);
      MaybeFlushFlags(s1.pend[q].y, s1, t1, [q], LevelRy);
    }
  }

  lemma MCYFlags(s: Sim, t: Sim, cs: seq<nat>, q: nat)
    requires q < |s.pend| && Within(cs, |s.pend|) && SameButFlags(s, t)
    ensures SameButFlags(StepMCY(s, cs, q), StepMCY(t, cs, q))
  {
    hide Flush, ExecuteIf, StepY;
    if cs == [] {
      PauliFlags(s, t, q);
    } else {
      ExecuteIfFlags(s, t, cs);
      var s1, t1 := ExecuteIf(s, cs), ExecuteIf(t, cs);
      MaybeFlushFlags(s1.pend[q].x, s1, t1, [q], LevelRx);
    }
  }

  lemma MCZFlags(s: Sim, t: Sim, cs: seq<nat>, q: nat)
    requires q < |s.pend| && Within(cs, |s.pend|) && SameButFlags(s, t)
    ensures SameButFlags(StepMCZ(s, cs, q), StepMCZ(t, cs, q))
  {
    hide Flush, CountObstacles, FirstH, StepZ;
    if cs == [] {
      PauliFlags(s, t, q);
    } else {
      FlushFlags(s, t, cs, LevelRy);
      FlushFlags(Flush(s, cs, LevelRy), Flush(t, cs, LevelRy), [q], LevelRy);
    }
  }

  lemma PhaseFlags(s: Sim, t: Sim, p: Complex, q: nat)
    requires q < |s.pend| && SameButFlags(s, t)
    ensures SameButFlags(StepPhase(s, p, q), StepPhase(t, p, q))
  {
    hide ExecuteIf;
    ExecuteIfFlags(s, t, [q]);
  }

  lemma MCPhaseFlags(s: Sim, t: Sim, cs: seq<nat>, p: Complex, q: nat)
    requires q < |s.pend| && Within(cs, |s.pend|) && SameButFlags(s, t)
    ensures SameButFlags(StepMCPhase(s, cs, p, q), StepMCPhase(t, cs, p, q))
  {
    hide ExecuteIf, StepPhase;
    if cs == [] {
      PhaseFlags(s, t, p, q);
    } else {
      ExecuteIfFlags(s, t, cs);
      ExecuteIfFlags(ExecuteIf(s, cs), ExecuteIf(t, cs), [q]);
    }
  }

  lemma SWAPFlags(s: Sim, t: Sim, a: nat, b: nat)
    requires a < |s.pend| && b < |s.pend| && |s.occ| == |s.pend| && SameButFlags(s, t)
    ensures SameButFlags(StepSWAP(s, a, b), StepSWAP(t, a, b))
  {
  }

  lemma CSWAPFlags(s: Sim, t: Sim, cs: seq<nat>, a: nat, b: nat)
    requires a < |s.pend| && b < |s.pend| && Within(cs, |s.pend|) && |s.occ| == |s.pend| && SameButFlags(s, t)
    ensures SameButFlags(StepCSWAP(s, cs, a, b), StepCSWAP(t, cs, a, b))
  {
    hide ExecuteIf, StepSWAP;
    if cs == [] {
      SWAPFlags(s, t, a, b);
    } else {
      var lo, hi := if a > b then b else a, if a > b then a else b;
      ExecuteIfFlags(s, t, cs);
      var s1, t1 := ExecuteIf(s, cs), ExecuteIf(t, cs);
      ExecuteIfFlags(s1, t1, [lo]);
      ExecuteIfFlags(ExecuteIf(s1, [lo]), ExecuteIf(t1, [lo]), [hi]);
    }
  }

  lemma MCHFlags(s: Sim, t: Sim, cs: seq<nat>, q: nat)
    requires q < |s.pend| && Within(cs, |s.pend|) && SameButFlags(s, t)
    ensures SameButFlags(StepMCH(s, cs, q), StepMCH(t, cs, q))
  {
    hide ExecuteIf, Flush, StepH, RunQueue, Controlled, HMat;
    if cs == [] {
      HFlags(s, t, q);
    } else {
      ExecuteIfFlags(s, t, cs);
      var s1, t1 := ExecuteIf(s, cs), ExecuteIf(t, cs);
      MaybeFlushFlags(s1.pend[q].y || s1.pend[q].x, s1, t1, [q], LevelRy);
    }
  }

  lemma RFlags(s: Sim, t: Sim, axis: Axis, a: Angle, q: nat)
    requires q < |s.pend| && SameButFlags(s, t)
    ensures SameButFlags(StepR(s, axis, a, q), StepR(t, axis, a, q))
  {
    hide Flush, StepPhase, Sum, Times;
    MaybeFlushFlags(s.pend[q].y, s, t, [q], LevelRy);
    var s1 := if s.pend[q].y then Flush(s, [q], LevelRy) else s;
    var t1 := if s.pend[q].y then Flush(t, [q], LevelRy) else t;
    MaybeFlushFlags(s1.pend[q].x, s1, t1, [q], LevelQueue);
    var s2 := if s1.pend[q].x then Flush(s1, [q], LevelQueue) else s1;
    var t2 := if s1.pend[q].x then Flush(t1, [q], LevelQueue) else t1;
    MaybeFlushFlags(s2.pend[q].h, s2, t2, [q], LevelH);
    var s3 := if s2.pend[q].h then Flush(s2, [q], LevelH) else s2;
    var t3 := if s2.pend[q].h then Flush(t2, [q], LevelH) else t2;
    PhaseFlags(s3, t3, Times(Complex(a.c, a.s), Complex(a.c, a.s)), q);
  }

  lemma SameSizes(s: Sim, t: Sim)
    requires SameButFlags(s, t)
    ensures t.pend == s.pend && |t.occ| == |s.occ|
  {
  }

  /** What a gate does but for the flags does not depend on them. */
  lemma StepFlags(s: Sim, t: Sim, g: Gate)
    requires SameButFlags(s, t) && |s.occ| == |s.pend| && Legal(g, |s.pend|)
    ensures SameButFlags(Step(s, g), Step(t, g))
  {
    hide SameButFlags, StepX, StepY, StepZ, StepH, StepMCX, StepMCY, StepMCZ, StepMCH, StepPhase, StepMCPhase, StepSWAP,
         StepCSWAP, StepR;
    SameSizes(s, t);
    match g
    case X(q) => PauliFlags(s, t, q);
    case Y(q) => PauliFlags(s, t, q);
    case Z(q) => PauliFlags(s, t, q);
    case H(q) => HFlags(s, t, q);
    case MCX(cs, q) => MCXFlags(s, t, cs, q);
    case MCY(cs, q) => MCYFlags(s, t, cs, q);
    case MCZ(cs, q) => MCZFlags(s, t, cs, q);
    case MCH(cs, q) => MCHFlags(s, t, cs, q);
    case Phase(p, q) => PhaseFlags(s, t, p, q);
    case MCPhase(cs, p, q) => MCPhaseFlags(s, t, cs, p, q);
    case SWAP(a, b) => SWAPFlags(s, t, a, b);
    case CSWAP(cs, a, b) => CSWAPFlags(s, t, cs, a, b);
    case R(axis, a, q) => RFlags(s, t, axis, a, q);
  }

  // ---------------------------------------------------------------- every step stays within the qubits

  /** A gate stays within the qubits, and keeps the flags sound if they were. */
  lemma StepBounded(s: Sim, g: Gate)
    requires Bounded(s) && |s.occ| == |s.pend| && Legal(g, |s.pend|)
    ensures Bounded(Step(s, g)) && (Sound(s) ==> Sound(Step(s, g)))
  {
    hide Bounded, Sound, Step, Legal, SameButFlags;
    FlaggedSound(s);
    FlaggedSizes(s);
    StepFlags(AllFlagged(s), s, g);
    StepSound(AllFlagged(s), g);
    BoundedFrom(Step(AllFlagged(s), g), Step(s, g));
    if Sound(s) {
      StepSound(s, g);
    }
  }

  lemma FlaggedSizes(s: Sim)
    ensures |AllFlagged(s).occ| == |s.occ| && AllFlagged(s).pend == s.pend
  {
  }

  lemma FlushBounded(s: Sim, qs: seq<nat>, level: Level)
    requires Bounded(s) && Within(qs, |s.pend|)
    ensures Bounded(Flush(s, qs, level)) && (Sound(s) ==> Sound(Flush(s, qs, level)))
    ensures Flush(s, qs, level).queue == [] && Confined(|s.pend|, Flush(s, qs, level).psi)
    ensures level.LevelRy? ==> forall i :: 0 <= i < |qs| ==> Flush(s, qs, level).pend[qs[i]].Nothing()
  {
    hide Bounded, Sound, Flush, SameButFlags, Confined, Pending.Nothing;
    FlaggedSound(s);
    FlaggedSizes(s);
    FlushFlags(AllFlagged(s), s, qs, level);
    FlushSound(AllFlagged(s), qs, level);
    BoundedFrom(Flush(AllFlagged(s), qs, level), Flush(s, qs, level));
    SameQueue(Flush(AllFlagged(s), qs, level), Flush(s, qs, level));
    StoredBounded(Flush(s, qs, level));
    if Sound(s) {
      FlushSound(s, qs, level);
    }
  }

  lemma SameQueue(s: Sim, t: Sim)
    requires SameButFlags(s, t)
    ensures t.queue == s.queue && t.pend == s.pend && t.psi == s.psi
  {
  }

  lemma StoredBounded(s: Sim)
    requires Bounded(s) && s.queue == []
    ensures Confined(|s.pend|, s.psi) && Valid(s)
  {
    hide Confined;
    EmptyQueue(s.queue, s.psi);
  }

  lemma FlushAllBounded(s: Sim)
    requires Bounded(s)
    ensures Bounded(FlushAll(s)) && FlushAll(s).queue == [] && (Sound(s) ==> Sound(FlushAll(s)))
  {
    hide Bounded, Sound, RunQueue, FlushBelow;
    FlaggedSound(s);
    FlushAllSound(AllFlagged(s));
    FlushBelowFlags(FlushQueue(AllFlagged(s)), FlushQueue(s), |s.pend|);
    BoundedFrom(FlushAll(AllFlagged(s)), FlushAll(s));
    if Sound(s) {
      FlushAllSound(s);
    }
  }

  // ---------------------------------------------------------------- measurement, reset and release

  lemma MBounded(s: Sim, t: nat, one: bool, k: Complex)
    requires Bounded(s) && t < |s.pend| && |s.occ| == |s.pend|
    ensures Bounded(StepM(s, t, one, k).1) && (Sound(s) ==> Sound(StepM(s, t, one, k).1))
  {
    hide Bounded, Sound, Flush, On, Vacate, SameButFlags;
    if s.occ[t] {
      MatrixBounded(s, t, ProjectMat(one, k));
    }
    if Sound(s) {
      MSound(s, t, one, k);
    }
  }

  /** A kernel on a flushed qubit, with the flag cleared or not. */
  lemma MatrixBounded(s: Sim, t: nat, u: Mat)
    requires Bounded(s) && t < |s.pend|
    ensures var m := Flush(s, [t], LevelRy).(psi := On(u, t, Flush(s, [t], LevelRy).psi));
      Bounded(m) && Bounded(Vacate(m, t))
  {
    hide Bounded, Flush, On, Confined, Vacate;
    var f := Flush(s, [t], LevelRy);
    FlushBounded(s, [t], LevelRy);
    KernelBounded(f, t, u);
    VacateBounded(f.(psi := On(u, t, f.psi)), t);
  }

  lemma KernelBounded(s: Sim, t: nat, u: Mat)
    requires Bounded(s) && s.queue == [] && t < |s.pend|
    ensures Bounded(s.(psi := On(u, t, s.psi)))
  {
    hide On, Confined, RunQueue;
    EmptyQueue(s.queue, s.psi);
    EmptyQueue(s.queue, On(u, t, s.psi));
    OnKeepsConfined(u, t, |s.pend|, s.psi);
  }

  lemma ResetBounded(s: Sim, t: nat, one: bool, k: Complex)
    requires Bounded(s) && t < |s.pend| && |s.occ| == |s.pend|
    ensures Bounded(StepReset(s, t, one, k)) && (Sound(s) ==> Sound(StepReset(s, t, one, k)))
  {
    hide Bounded, Sound, Flush, On, Vacate;
    if s.occ[t] {
      MatrixBounded(s, t, ResetMat(one, k));
    }
    if Sound(s) {
      ResetSound(s, t, one, k);
    }
  }

  lemma VacateBounded(s: Sim, t: nat)
    requires Bounded(s)
    ensures Bounded(Vacate(s, t))
  {
    hide Confined, RunQueue;
  }

  lemma XBounded(s: Sim, t: nat)
    requires Bounded(s) && t < |s.pend| && |s.occ| == |s.pend|
    ensures Bounded(StepX(s, t)) && |StepX(s, t).occ| == |s.pend|
  {
    hide Bounded, StepX;
    StepBounded(s, X(t));
  }

  lemma ReleaseBounded(s: Sim, t: nat, one: bool, k: Complex)
    requires Bounded(s) && t < |s.pend| && |s.occ| == |s.pend|
    ensures Bounded(StepRelease(s, t, one, k).1) && (Sound(s) ==> Sound(StepRelease(s, t, one, k).1))
  {
    hide Bounded, Sound, Flush, On, Vacate, StepX, Has;
    VacateBounded(s, t);
    if s.occ[t] {
      var f := Flush(s, [t], LevelRy);
      FlushBounded(s, [t], LevelRy);
      MatrixBounded(s, t, ResetMat(one, k));
      VacateBounded(f, t);
      XBounded(f, t);
      FlushBounded(StepX(f, t), [t], LevelRy);
      VacateBounded(Flush(StepX(f, t), [t], LevelRy), t);
    }
    if Sound(s) {
      ReleaseSound(s, t, one, k);
    }
  }
}
