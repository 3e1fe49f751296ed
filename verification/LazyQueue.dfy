/**
 The lazy gate queue of the sparse simulator, as a function of its state: every gate either joins
 the list of phase and permutation operations, or the H, Rx and Ry pending on its qubit, or forces
 some of them to run first. The state denoted is the one reached by running everything.
 */
module LazyQueue {
  import opened Amplitudes
  import opened Operators
  import opened Gates

  /** A queued phase or permutation operation. */
  datatype Operation =
    | OpX(target: nat)
    | OpY(target: nat)
    | OpZ(target: nat)
    | OpMCX(controls: set<nat>, target: nat)
    | OpMCY(controls: set<nat>, target: nat)
    | OpMCZ(controls: set<nat>, target: nat)
    | OpPhase(target: nat, phase: Complex)
    | OpMCPhase(controls: set<nat>, target: nat, phase: Complex)
    | OpSwap(target: nat, target2: nat)
    | OpMCSwap(controls: set<nat>, target: nat, target2: nat)

  function AsOperator(op: Operation): Operator {
    match op
    case OpX(t) => OnQubit({}, X_MAT, t)
    case OpY(t) => OnQubit({}, Y_MAT, t)
    case OpZ(t) => PhaseOn({t}, MINUS_ONE)
    case OpMCX(cs, t) => OnQubit(cs, X_MAT, t)
    case OpMCY(cs, t) => OnQubit(cs, Y_MAT, t)
    case OpMCZ(cs, t) => PhaseOn(cs + {t}, MINUS_ONE)
    case OpPhase(t, p) => PhaseOn({t}, p)
    case OpMCPhase(cs, t, p) => PhaseOn(cs + {t}, p)
    case OpSwap(a, b) => Swapping({}, a, b)
    case OpMCSwap(cs, a, b) => Swapping(cs, a, b)
  }

  /** The queue, oldest operation first. */
  ghost function RunQueue(ops: seq<Operation>, w: Wave): Wave {
    if ops == [] then w
    else Apply(AsOperator(ops[|ops| - 1]), RunQueue(ops[..|ops| - 1], w))
  }

  /** What still has to act on one qubit, in the order H, Rx, Ry; an angle counts only if flagged. */
  datatype Pending = Pending(h: bool, x: bool, ax: Angle, y: bool, ay: Angle) {
    predicate Nothing() { !h && !x && !y }
    predicate Tidy() { (!x ==> ax == NO_ANGLE) && (!y ==> ay == NO_ANGLE) }
  }

  const NOTHING := Pending(false, false, NO_ANGLE, false, NO_ANGLE)

  function HPart(r: real, p: Pending): Mat { if p.h then HMat(r) else ID }
  function XPart(p: Pending): Mat { if p.x then RxMat(p.ax) else ID }
  function YPart(p: Pending): Mat { if p.y then RyMat(p.ay) else ID }

  function PendingMat(r: real, p: Pending): Mat {
    MatTimes(YPart(p), MatTimes(XPart(p), HPart(r, p)))
  }

  /** Everything pending on the qubits below `k`. */
  ghost function Layer(r: real, pend: seq<Pending>, k: nat, w: Wave): Wave
    requires k <= |pend|
  {
    if k == 0 then w else On(PendingMat(r, pend[k - 1]), k - 1, Layer(r, pend, k - 1, w))
  }

  /** `r` is the Hadamard normaliser, `psi` the stored state, `occ` the qubits that may be nonzero. */
  datatype Sim = Sim(r: real, psi: Wave, queue: seq<Operation>, pend: seq<Pending>, occ: seq<bool>)

  ghost predicate Valid(s: Sim) {
    && 2.0 * s.r * s.r == 1.0
    && |s.occ| == |s.pend|
    && forall q :: 0 <= q < |s.pend| ==> s.pend[q].Tidy()
  }

  /** The state that running everything queued would leave. */
  ghost function Denoted(s: Sim): Wave {
    Layer(s.r, s.pend, |s.pend|, RunQueue(s.queue, s.psi))
  }

  /** Physical equality: the same state up to a global phase. */
  ghost predicate SameState(v: Wave, w: Wave) {
    exists u: Complex :: Norm(u) == 1.0 && v == Scaled(u, w)
  }

  // ---------------------------------------------------------------- the gates and their meaning

  datatype Axis = PauliI | PauliX | PauliY | PauliZ

  datatype Gate =
    | X(q: nat)
    | Y(q: nat)
    | Z(q: nat)
    | H(q: nat)
    | MCX(controls: seq<nat>, q: nat)
    | MCY(controls: seq<nat>, q: nat)
    | MCZ(controls: seq<nat>, q: nat)
    | MCH(controls: seq<nat>, q: nat)
    | Phase(phase: Complex, q: nat)
    | MCPhase(controls: seq<nat>, phase: Complex, q: nat)
    | SWAP(q: nat, q2: nat)
    | CSWAP(controls: seq<nat>, q: nat, q2: nat)
    | R(axis: Axis, angle: Angle, q: nat)

  function SetOf(qs: seq<nat>): set<nat> { set q | q in qs }

  /** The textbook operator of a gate. */
  function Ideal(g: Gate, r: real): Operator {
    match g
    case X(q) => OnQubit({}, X_MAT, q)
    case Y(q) => OnQubit({}, Y_MAT, q)
    case Z(q) => OnQubit({}, Z_MAT, q)
    case H(q) => OnQubit({}, HMat(r), q)
    case MCX(cs, q) => OnQubit(SetOf(cs), X_MAT, q)
    case MCY(cs, q) => OnQubit(SetOf(cs), Y_MAT, q)
    case MCZ(cs, q) => OnQubit(SetOf(cs) - {q}, Z_MAT, q)
    case MCH(cs, q) => OnQubit(SetOf(cs), HMat(r), q)
    case Phase(p, q) => OnQubit({}, PhaseMat(p), q)
    case MCPhase(cs, p, q) => OnQubit(SetOf(cs) - {q}, PhaseMat(p), q)
    case SWAP(a, b) => Swapping({}, a, b)
    case CSWAP(cs, a, b) => Swapping(SetOf(cs), a, b)
    case R(PauliI, a, q) => PhaseOn({}, Complex(a.c, -a.s))
    case R(PauliX, a, q) => OnQubit({}, RxMat(a), q)
    case R(PauliY, a, q) => OnQubit({}, RyMat(a), q)
    case R(PauliZ, a, q) => OnQubit({}, RzMat(a), q)
  }

  /** The qubits exist, and no qubit is both flipped or mixed by the gate and one of its controls. */
  predicate Legal(g: Gate, n: nat) {
    && g.q < n
    && (g.MCX? || g.MCY? || g.MCZ? || g.MCH? || g.MCPhase? || g.CSWAP? ==> Within(g.controls, n))
    && (g.MCX? || g.MCY? || g.MCH? ==> g.q !in g.controls)
    && (g.SWAP? || g.CSWAP? ==> g.q2 < n)
    && (g.CSWAP? ==> g.q !in g.controls && g.q2 !in g.controls)
  }

  predicate Within(qs: seq<nat>, n: nat) { forall i :: 0 <= i < |qs| ==> qs[i] < n }

  // ---------------------------------------------------------------- running what is pending

  /** How far a flush goes: H only, then Rx as well, then Ry as well. */
  datatype Level = LevelQueue | LevelH | LevelRx | LevelRy

  /** The stored rotation kernel: a half turn is done as X or Y, a full turn not at all. */
  ghost function Rotated(axisY: bool, a: Angle, q: nat, w: Wave): Wave {
    if a.c == 0.0 then On(if axisY then Y_MAT else X_MAT, q, w)
    else if a.s == 0.0 then w
    else On(if axisY then RyMat(a) else RxMat(a), q, w)
  }

  /** Same qubits, same normaliser. */
  predicate SameShape(s: Sim, t: Sim) {
    t.r == s.r && |t.pend| == |s.pend| && |t.occ| == |s.occ|
  }

  ghost function FlushQueue(s: Sim): Sim {
    s.(psi := RunQueue(s.queue, s.psi), queue := [])
  }

  ghost function FlushH(s: Sim, q: nat): Sim
    requires q < |s.pend|
  {
    if s.pend[q].h then s.(psi := On(HMat(s.r), q, s.psi), pend := s.pend[q := s.pend[q].(h := false)]) else s
  }

  ghost function FlushRx(s: Sim, q: nat): Sim
    requires q < |s.pend|
  {
    if s.pend[q].x
    then s.(psi := Rotated(false, s.pend[q].ax, q, s.psi), pend := s.pend[q := s.pend[q].(x := false, ax := NO_ANGLE)])
    else s
  }

  ghost function FlushRy(s: Sim, q: nat): Sim
    requires q < |s.pend|
  {
    if s.pend[q].y
    then s.(psi := Rotated(true, s.pend[q].ay, q, s.psi), pend := s.pend[q := s.pend[q].(y := false, ay := NO_ANGLE)])
    else s
  }

  ghost function FlushQubit(s: Sim, q: nat, level: Level): (s': Sim)
    requires q < |s.pend|
    ensures SameShape(s, s')
  {
    match level
    case LevelQueue => s
    case LevelH => FlushH(s, q)
    case LevelRx => FlushRx(FlushH(s, q), q)
    case LevelRy => FlushRy(FlushRx(FlushH(s, q), q), q)
  }

  ghost function FlushQubits(s: Sim, qs: seq<nat>, level: Level): (s': Sim)
    requires Within(qs, |s.pend|)
    ensures SameShape(s, s')
  {
    if qs == [] then s
    else FlushQubit(FlushQubits(s, qs[..|qs| - 1], level), qs[|qs| - 1], level)
  }

  ghost function Flush(s: Sim, qs: seq<nat>, level: Level): (s': Sim)
    requires Within(qs, |s.pend|)
    ensures SameShape(s, s')
  {
    FlushQubits(FlushQueue(s), qs, level)
  }

  /** Everything on the qubits below `k`, after the queue. */
  ghost function FlushBelow(s: Sim, k: nat): (s': Sim)
    requires k <= |s.pend|
    ensures SameShape(s, s')
  {
    if k == 0 then s else FlushQubit(FlushBelow(s, k - 1), k - 1, LevelRy)
  }

  ghost function FlushAll(s: Sim): Sim {
    FlushBelow(FlushQueue(s), |s.pend|)
  }

  predicate AnyPending(pend: seq<Pending>, qs: seq<nat>)
    requires Within(qs, |pend|)
  {
    exists i :: 0 <= i < |qs| && !pend[qs[i]].Nothing()
  }

  ghost function ExecuteIf(s: Sim, qs: seq<nat>): (s': Sim)
    requires Within(qs, |s.pend|)
    ensures SameShape(s, s')
  {
    if AnyPending(s.pend, qs) then Flush(s, qs, LevelRy) else s
  }

  // ---------------------------------------------------------------- queueing one gate

  ghost function Push(s: Sim, op: Operation): Sim { s.(queue := s.queue + [op]) }

  ghost function Occupy(s: Sim, q: nat): Sim {
    if q < |s.occ| then s.(occ := s.occ[q := true]) else s
  }

  ghost function StepX(s: Sim, q: nat): (s': Sim)
    requires q < |s.pend|
    ensures SameShape(s, s')
  {
    var p := s.pend[q];
    var s1 := if p.y then s.(pend := s.pend[q := p.(ay := Negated(p.ay))]) else s;
    if p.h then Push(s1, OpZ(q)) else Occupy(Push(s1, OpX(q)), q)
  }

  ghost function StepY(s: Sim, q: nat): (s': Sim)
    requires q < |s.pend|
    ensures SameShape(s, s')
  {
    var p := s.pend[q];
    var s1 := if p.x then s.(pend := s.pend[q := p.(ax := Negated(p.ax))]) else s;
    Occupy(Push(s1, OpY(q)), q)
  }

  ghost function StepZ(s: Sim, q: nat): (s': Sim)
    requires q < |s.pend|
    ensures SameShape(s, s')
  {
    var p := s.pend[q];
    var p1 := if p.y then p.(ay := Negated(p.ay)) else p;
    var p2 := if p.x then p1.(ax := Negated(p.ax)) else p1;
    var s1 := s.(pend := s.pend[q := p2]);
    if p.h then Occupy(Push(s1, OpX(q)), q) else Push(s1, OpZ(q))
  }

  ghost function StepH(s: Sim, q: nat): (s': Sim)
    requires q < |s.pend|
    ensures SameShape(s, s')
  {
    var p := s.pend[q];
    var s1 := if p.y then s.(pend := s.pend[q := p.(ay := Negated(p.ay))]) else s;
    var s2 := if p.x then Flush(s1, [q], LevelRx) else s1;
    Occupy(s2.(pend := s2.pend[q := s2.pend[q].(h := !s2.pend[q].h)]), q)
  }

  /** The part of MCX that runs what stands in the way on the controls. */
  ghost function ClearControlsOfMCX(s: Sim, cs: seq<nat>, t: nat): (s1: Sim)
    requires cs != [] && t < |s.pend| && Within(cs, |s.pend|)
    ensures SameShape(s, s1)
  {
    if |cs| > 1 then ExecuteIf(s, cs)
    else
      var p := s.pend[cs[0]];
      if p.y || p.x || (p.h && !s.pend[t].h) then Flush(s, cs, LevelRy) else s
  }

  ghost function StepMCX(s: Sim, cs: seq<nat>, t: nat): (s': Sim)
    requires t < |s.pend| && Within(cs, |s.pend|)
    ensures SameShape(s, s')
  {
    if cs == [] then StepX(s, t)
    else
      var s1 := ClearControlsOfMCX(s, cs, t);
      var s2 := if s1.pend[t].y then Flush(s1, [t], LevelRy) else s1;
      if s2.pend[t].h then
        if |cs| == 1 && s2.pend[cs[0]].h then Occupy(Push(s2, OpMCX({t}, cs[0])), cs[0])
        else Push(s2, OpMCZ(SetOf(cs), t))
      else Occupy(Push(s2, OpMCX(SetOf(cs), t)), t)
  }

  ghost function StepMCY(s: Sim, cs: seq<nat>, t: nat): (s': Sim)
    requires t < |s.pend| && Within(cs, |s.pend|)
    ensures SameShape(s, s')
  {
    if cs == [] then StepY(s, t)
    else
      var s1 := ExecuteIf(s, cs);
      var s2 := if s1.pend[t].x then Flush(s1, [t], LevelRx) else s1;
      var s3 := if !s2.pend[t].h then s2
                else if |cs| == 1 then Push(s2, OpZ(cs[0]))
                else Push(s2, OpMCZ(SetOf(cs), cs[0]));
      Occupy(Push(s3, OpMCY(SetOf(cs), t)), t)
  }

  function Obstacles(p: Pending): nat {
    (if p.x || p.y then 2 else 0) + (if p.h then 1 else 0)
  }

  /** How much is pending on the qubits, weighing rotations double. */
  function CountObstacles(pend: seq<Pending>, qs: seq<nat>): nat
    requires Within(qs, |pend|)
  {
    if qs == [] then 0
    else CountObstacles(pend, qs[..|qs| - 1]) + Obstacles(pend[qs[|qs| - 1]])
  }

  /** The first of the qubits with a pending H, or the number of qubits. */
  function FirstH(pend: seq<Pending>, qs: seq<nat>): (i: nat)
    requires Within(qs, |pend|)
    ensures i <= |qs|
    ensures i < |qs| ==> pend[qs[i]].h
    ensures forall j :: 0 <= j < i ==> !pend[qs[j]].h
  {
    if qs == [] then 0
    else if pend[qs[0]].h then 0
    else
      var i := FirstH(pend, qs[1..]);
      assert forall j :: 0 < j < i + 1 ==> qs[j] == qs[1..][j - 1];
      i + 1
  }

  ghost function StepMCZ(s: Sim, cs: seq<nat>, t: nat): (s': Sim)
    requires t < |s.pend| && Within(cs, |s.pend|)
    ensures SameShape(s, s')
  {
    if cs == [] then StepZ(s, t)
    else
      var count := CountObstacles(s.pend, cs) + Obstacles(s.pend[t]);
      if count == 1 then
        var i := FirstH(s.pend, cs);
        if i < |cs| then Occupy(Push(s, OpMCX(SetOf(cs[i := t]), cs[i])), cs[i])
        else Occupy(Push(s, OpMCX(SetOf(cs), t)), t)
      else
        var s1 := if count > 1 then Flush(Flush(s, cs, LevelRy), [t], LevelRy) else s;
        Push(s1, OpMCZ(SetOf(cs), t))
  }

  ghost function StepPhase(s: Sim, p: Complex, q: nat): (s': Sim)
    requires q < |s.pend|
    ensures SameShape(s, s')
  {
    Push(ExecuteIf(s, [q]), OpPhase(q, p))
  }

  ghost function StepMCPhase(s: Sim, cs: seq<nat>, p: Complex, t: nat): (s': Sim)
    requires t < |s.pend| && Within(cs, |s.pend|)
    ensures SameShape(s, s')
  {
    if cs == [] then StepPhase(s, p, t)
    else Push(ExecuteIf(ExecuteIf(s, cs), [t]), OpMCPhase(SetOf(cs), t, p))
  }

  ghost function StepSWAP(s: Sim, a: nat, b: nat): (s': Sim)
    requires a < |s.pend| && b < |s.pend| && |s.occ| == |s.pend|
    ensures SameShape(s, s')
  {
    Push(s.(pend := s.pend[a := s.pend[b]][b := s.pend[a]], occ := s.occ[a := s.occ[b]][b := s.occ[a]]),
         OpSwap(if a > b then b else a, if a > b then a else b))
  }

  ghost function StepCSWAP(s: Sim, cs: seq<nat>, a: nat, b: nat): (s': Sim)
    requires a < |s.pend| && b < |s.pend| && |s.occ| == |s.pend| && Within(cs, |s.pend|)
    ensures SameShape(s, s')
  {
    if cs == [] then StepSWAP(s, a, b)
    else
      var lo, hi := if a > b then b else a, if a > b then a else b;
      var s1 := Push(ExecuteIf(ExecuteIf(ExecuteIf(s, cs), [lo]), [hi]), OpMCSwap(SetOf(cs), lo, hi));
      if s.occ[lo] || s.occ[hi] then Occupy(Occupy(s1, lo), hi) else s1
  }

  ghost function StepMCH(s: Sim, cs: seq<nat>, t: nat): (s': Sim)
    requires t < |s.pend| && Within(cs, |s.pend|)
    ensures SameShape(s, s')
  {
    if cs == [] then StepH(s, t)
    else
      var s1 := ExecuteIf(s, cs);
      var s2 := FlushQueue(if s1.pend[t].y || s1.pend[t].x then Flush(s1, [t], LevelRy) else s1);
      Occupy(s2.(psi := Controlled(SetOf(cs), HMat(s.r), t, s2.psi)), t)
  }

  ghost function StepR(s: Sim, axis: Axis, a: Angle, q: nat): (s': Sim)
    requires q < |s.pend|
    ensures SameShape(s, s')
  {
    var p := s.pend[q];
    match axis
    case PauliI => s
    case PauliY => Occupy(s.(pend := s.pend[q := p.(y := true, ay := Sum(p.ay, a))]), q)
    case PauliX =>
      var s1 := if p.y then Flush(s, [q], LevelRy) else s;
      var p1 := s1.pend[q];
      Occupy(s1.(pend := s1.pend[q := p1.(x := true, ax := Sum(p1.ax, a))]), q)
    case PauliZ =>
      var s1 := if p.y then Flush(s, [q], LevelRy) else s;
      // The level asked for here runs the queue only; Phase runs the rotation later.
      var s2 := if s1.pend[q].x then Flush(s1, [q], LevelQueue) else s1;
      var s3 := if s2.pend[q].h then Flush(s2, [q], LevelH) else s2;
      StepPhase(s3, Times(Complex(a.c, a.s), Complex(a.c, a.s)), q)
  }

  /** The simulator's state after one gate. */
  ghost function Step(s: Sim, g: Gate): (s': Sim)
    requires |s.occ| == |s.pend| && Legal(g, |s.pend|)
    ensures SameShape(s, s')
  {
    match g
    case X(q) => StepX(s, q)
    case Y(q) => StepY(s, q)
    case Z(q) => StepZ(s, q)
    case H(q) => StepH(s, q)
    case MCX(cs, q) => StepMCX(s, cs, q)
    case MCY(cs, q) => StepMCY(s, cs, q)
    case MCZ(cs, q) => StepMCZ(s, cs, q)
    case MCH(cs, q) => StepMCH(s, cs, q)
    case Phase(p, q) => StepPhase(s, p, q)
    case MCPhase(cs, p, q) => StepMCPhase(s, cs, p, q)
    case SWAP(a, b) => StepSWAP(s, a, b)
    case CSWAP(cs, a, b) => StepCSWAP(s, cs, a, b)
    case R(axis, a, q) => StepR(s, axis, a, q)
  }
}
