/** Which qubits are flagged: exactly what gates and measurements add to the flags, and what they take away. */
module Flags {
  import opened Sequences
  import opened Amplitudes
  import opened Operators
  import opened Gates
  import opened LazyQueue
  import opened LazyMeaning
  import opened LazySteps
  import opened Occupancy
  import opened PauliStrings
  import opened JointMeasure

  predicate OnlyH(p: Pending) { p.h && !p.x && !p.y }

  /**
   The qubits a gate flags, from what is pending before it: its target when the gate that is queued for it flips bits,
   and never for a phase.
   */
  function NewFlags(g: Gate, pend: seq<Pending>, occ: seq<bool>): set<nat>
    requires Legal(g, |pend|) && |occ| == |pend|
  {
    match g
    case X(q) => if pend[q].h then {} else {q}
    case Y(q) => {q}
    case Z(q) => if pend[q].h then {q} else {}
    case H(q) => {q}
    case MCX(cs, q) => MCXFlags(cs, q, pend)
    case MCY(cs, q) => {q}
    case MCZ(cs, q) =>
      if cs == [] then (if pend[q].h then {q} else {})
      else if CountObstacles(pend, cs) + Obstacles(pend[q]) != 1 then {}
      else if FirstH(pend, cs) < |cs| then {cs[FirstH(pend, cs)]}
      else {q}
    case MCH(cs, q) => {q}
    case Phase(_, q) => {}
    case MCPhase(cs, _, q) => {}
    case SWAP(a, b) => {}
    case CSWAP(cs, a, b) => if cs != [] && (occ[a] || occ[b]) then {a, b} else {}
    case R(axis, a, q) => if axis.PauliX? || axis.PauliY? then {q} else {}
  }

  function MCXFlags(cs: seq<nat>, q: nat, pend: seq<Pending>): set<nat>
    requires Within(cs, |pend|) && q < |pend|
  {
    if cs == [] then (if pend[q].h then {} else {q})
    else if !pend[q].h || pend[q].y then {q}
    else if |cs| == 1 && OnlyH(pend[cs[0]]) then {cs[0]}
    else {}
  }

  /** The flags with some more set. */
  predicate FlagsAdded(occ: seq<bool>, more: set<nat>, occ2: seq<bool>) {
    |occ2| == |occ| && forall q :: 0 <= q < |occ| ==> (occ2[q] <==> occ[q] || q in more)
  }

  /** An exchange carries the flags of its qubits over; every other gate adds just these. */
  lemma StepFlagsAre(s: Sim, g: Gate)
    requires LazyQueue.Valid(s) && Legal(g, |s.pend|) && |s.occ| == |s.pend|
    ensures if g.SWAP? || (g.CSWAP? && g.controls == [])
            then Step(s, g).occ == s.occ[g.q := s.occ[g.q2]][g.q2 := s.occ[g.q]]
            else FlagsAdded(s.occ, NewFlags(g, s.pend, s.occ), Step(s, g).occ)
  {
    hide LazyQueue.Valid, StepMCX, StepMCY, StepMCZ, StepMCH, StepCSWAP, StepR, StepPhase, StepMCPhase, StepH, Flush,
         CountObstacles, FirstH, Obstacles;
    match g
    case MCX(cs, q) => MCXFlagsAre(s, cs, q);
    case MCY(cs, q) => MCYFlagsAre(s, cs, q);
    case MCZ(cs, q) => MCZFlagsAre(s, cs, q);
    case MCH(cs, q) => MCHFlagsAre(s, cs, q);
    case H(q) => HFlagsAre(s, q);
    case Phase(p, q) => PhaseFlagsAre(s, p, q);
    case MCPhase(cs, p, q) => MCPhaseFlagsAre(s, cs, p, q);
    case CSWAP(cs, a, b) => CSWAPFlagsAre(s, cs, a, b);
    case R(axis, a, q) => RFlagsAre(s, axis, a, q);
    case _ =>
  }

  lemma FlushKeepsFlags(s: Sim, qs: seq<nat>, level: Level)
    requires LazyQueue.Valid(s) && Within(qs, |s.pend|)
    ensures LazyQueue.Valid(Flush(s, qs, level)) && Flush(s, qs, level).occ == s.occ
    ensures forall j :: 0 <= j < |s.pend| ==>
      Flush(s, qs, level).pend[j] == if j in qs then Flushed(s.pend[j], level) else s.pend[j]
  {
    hide *;
    FlushedFacts(s, qs, level);
  }

  lemma ExecuteIfKeepsFlags(s: Sim, qs: seq<nat>)
    requires LazyQueue.Valid(s) && Within(qs, |s.pend|)
    ensures LazyQueue.Valid(ExecuteIf(s, qs)) && ExecuteIf(s, qs).occ == s.occ
    ensures forall j :: 0 <= j < |s.pend| && j !in qs ==> ExecuteIf(s, qs).pend[j] == s.pend[j]
  {
    hide Flush, LazyQueue.Valid, AnyPending, Flushed;
    FlushKeepsFlags(s, qs, LevelRy);
  }

  lemma HFlagsAre(s: Sim, q: nat)
    requires LazyQueue.Valid(s) && q < |s.pend| && |s.occ| == |s.pend|
    ensures FlagsAdded(s.occ, {q}, StepH(s, q).occ)
  {
    hide Flush, Flushed, RunQueue;
    var s1 := if s.pend[q].y then s.(pend := s.pend[q := s.pend[q].(ay := Negated(s.pend[q].ay))]) else s;
    FlushKeepsFlags(s1, [q], LevelRx);
  }

  lemma MCXFlagsAre(s: Sim, cs: seq<nat>, q: nat)
    requires LazyQueue.Valid(s) && Within(cs, |s.pend|) && q < |s.pend| && q !in cs && |s.occ| == |s.pend|
    ensures FlagsAdded(s.occ, MCXFlags(cs, q, s.pend), StepMCX(s, cs, q).occ)
  {
    hide Flush, LazyQueue.Valid, SetOf, ClearControlsOfMCX, Flushed;
    if cs != [] {
      ControlsCleared(s, cs, q);
      FlushKeepsFlags(ClearControlsOfMCX(s, cs, q), [q], LevelRy);
      FlushedPending(s.pend[q]);
      assert cs[0] !in [q];
    }
  }

  lemma FlushedPending(p: Pending)
    ensures !Flushed(p, LevelRy).h && !Flushed(p, LevelRy).x && !Flushed(p, LevelRy).y
  {
  }

  /** What the first part of MCX leaves pending: on a single control an H alone, when the target has one too. */
  lemma ControlsCleared(s: Sim, cs: seq<nat>, q: nat)
    requires LazyQueue.Valid(s) && Within(cs, |s.pend|) && q < |s.pend| && q !in cs && cs != []
    ensures var t := ClearControlsOfMCX(s, cs, q);
      && LazyQueue.Valid(t) && t.occ == s.occ && t.pend[q] == s.pend[q]
      && (|cs| == 1 ==> (t.pend[cs[0]].h <==> OnlyH(s.pend[cs[0]]) && s.pend[q].h))
  {
    hide Flush, LazyQueue.Valid, ExecuteIf, Flushed;
    FlushKeepsFlags(s, cs, LevelRy);
    FlushedPending(s.pend[cs[0]]);
    ExecuteIfKeepsFlags(s, cs);
    assert cs[0] in cs;
  }

  lemma MCYFlagsAre(s: Sim, cs: seq<nat>, q: nat)
    requires LazyQueue.Valid(s) && Legal(MCY(cs, q), |s.pend|) && |s.occ| == |s.pend|
    ensures FlagsAdded(s.occ, {q}, StepMCY(s, cs, q).occ)
  {
    hide Flush, LazyQueue.Valid, ExecuteIf, SetOf, Flushed;
    if cs != [] {
      ExecuteIfKeepsFlags(s, cs);
      FlushKeepsFlags(ExecuteIf(s, cs), [q], LevelRx);
    }
  }

  lemma MCZFlagsAre(s: Sim, cs: seq<nat>, q: nat)
    requires LazyQueue.Valid(s) && Legal(MCZ(cs, q), |s.pend|) && |s.occ| == |s.pend|
    ensures FlagsAdded(s.occ, NewFlags(MCZ(cs, q), s.pend, s.occ), StepMCZ(s, cs, q).occ)
  {
    hide Flush, LazyQueue.Valid, ExecuteIf, SetOf, Flushed, CountObstacles, FirstH, Obstacles;
    if cs != [] {
      FlushKeepsFlags(s, cs, LevelRy);
      FlushKeepsFlags(Flush(s, cs, LevelRy), [q], LevelRy);
    }
  }

  lemma MCHFlagsAre(s: Sim, cs: seq<nat>, q: nat)
    requires LazyQueue.Valid(s) && Legal(MCH(cs, q), |s.pend|) && |s.occ| == |s.pend|
    ensures FlagsAdded(s.occ, {q}, StepMCH(s, cs, q).occ)
  {
    hide Flush, LazyQueue.Valid, ExecuteIf, SetOf, Flushed, Controlled, StepH;
    if cs == [] {
      HFlagsAre(s, q);
    } else {
      ExecuteIfKeepsFlags(s, cs);
      FlushKeepsFlags(ExecuteIf(s, cs), [q], LevelRy);
    }
  }

  lemma PhaseFlagsAre(s: Sim, p: Complex, q: nat)
    requires LazyQueue.Valid(s) && q < |s.pend|
    ensures StepPhase(s, p, q).occ == s.occ
  {
    hide Flush, LazyQueue.Valid, ExecuteIf;
    ExecuteIfKeepsFlags(s, [q]);
  }

  lemma MCPhaseFlagsAre(s: Sim, cs: seq<nat>, p: Complex, q: nat)
    requires LazyQueue.Valid(s) && Legal(MCPhase(cs, p, q), |s.pend|)
    ensures StepMCPhase(s, cs, p, q).occ == s.occ
  {
    hide Flush, LazyQueue.Valid, ExecuteIf, StepPhase;
    PhaseFlagsAre(s, p, q);
    ExecuteIfKeepsFlags(s, cs);
    ExecuteIfKeepsFlags(ExecuteIf(s, cs), [q]);
  }

  lemma CSWAPFlagsAre(s: Sim, cs: seq<nat>, a: nat, b: nat)
    requires LazyQueue.Valid(s) && Within(cs, |s.pend|) && a < |s.pend| && b < |s.pend| && |s.occ| == |s.pend|
    ensures cs == [] ==> StepCSWAP(s, cs, a, b) == StepSWAP(s, a, b)
    ensures cs != [] ==> FlagsAdded(s.occ, if s.occ[a] || s.occ[b] then {a, b} else {}, StepCSWAP(s, cs, a, b).occ)
  {
    hide LazyQueue.Valid, ExecuteIf, SetOf, StepSWAP;
    if cs != [] {
      var lo, hi := if a > b then b else a, if a > b then a else b;
      ThriceKeepsFlags(s, cs, lo, hi);
    }
  }

  lemma ThriceKeepsFlags(s: Sim, cs: seq<nat>, lo: nat, hi: nat)
    requires LazyQueue.Valid(s) && Within(cs, |s.pend|) && lo < |s.pend| && hi < |s.pend|
    ensures ExecuteIf(ExecuteIf(ExecuteIf(s, cs), [lo]), [hi]).occ == s.occ
  {
    hide LazyQueue.Valid, ExecuteIf;
    ExecuteIfKeepsFlags(s, cs);
    ExecuteIfKeepsFlags(ExecuteIf(s, cs), [lo]);
    ExecuteIfKeepsFlags(ExecuteIf(ExecuteIf(s, cs), [lo]), [hi]);
  }

  lemma RFlagsAre(s: Sim, axis: Axis, a: Angle, q: nat)
    requires LazyQueue.Valid(s) && q < |s.pend| && |s.occ| == |s.pend|
    ensures FlagsAdded(s.occ, NewFlags(R(axis, a, q), s.pend, s.occ), StepR(s, axis, a, q).occ)
  {
    hide Flush, LazyQueue.Valid, Flushed, StepPhase, Sum;
    FlushKeepsFlags(s, [q], LevelRy);
    if axis.PauliZ? {
      var s1 := if s.pend[q].y then Flush(s, [q], LevelRy) else s;
      FlushKeepsFlags(s1, [q], LevelQueue);
      var s2 := if s1.pend[q].x then Flush(s1, [q], LevelQueue) else s1;
      FlushKeepsFlags(s2, [q], LevelH);
      var s3 := if s2.pend[q].h then Flush(s2, [q], LevelH) else s2;
      PhaseFlagsAre(s3, Times(Complex(a.c, a.s), Complex(a.c, a.s)), q);
    }
  }

  /** A measurement takes the flag away from a qubit found 0, a reset from any it acts on, a release from all. */
  lemma MeasuredFlags(s: Sim, t: nat, one: bool, k: Complex)
    requires LazyQueue.Valid(s) && t < |s.pend| == |s.occ|
    ensures StepM(s, t, one, k).1.occ == (if s.occ[t] then s.occ[t := one] else s.occ)
    ensures StepReset(s, t, one, k).occ == s.occ[t := false] == StepRelease(s, t, one, k).1.occ
  {
    hide Flush, On, LazyQueue.Valid, Has, Flushed, StepX;
    FlushKeepsFlags(s, [t], LevelRy);
    if s.occ[t] {
      FlippedFlags(Flush(s, [t], LevelRy), t);
    }
  }

  lemma FlippedFlags(f: Sim, t: nat)
    requires LazyQueue.Valid(f) && t < |f.pend| == |f.occ| && f.occ[t]
    ensures Flush(StepX(f, t), [t], LevelRy).occ == f.occ
  {
    hide Flush, Flushed, RunQueue;
    FlushKeepsFlags(StepX(f, t), [t], LevelRy);
  }
}
