/** The sparse simulator itself: the gate queue as an object, updated in place. */
module Simulator {
  import opened Sequences
  import opened Amplitudes
  import opened Operators
  import opened Gates
  import opened LazyQueue
  import opened LazyMeaning
  import opened LazySteps
  import opened Kernels
  import opened Occupancy
  import opened Bounds
  import opened SparseState
  import opened BitsetOrder
  import opened PauliStrings
  import opened PauliKernels
  import opened JointMeasure
  import opened JointAssert
  import opened Weights
  import opened BornRule
  import opened Programs
  import opened Separability
  import McxTrapRun

  class SparseSimulator {
    const state: QuantumState
    /** Queued phase and permutation operations. */
    var queue: seq<Operation>
    /** The H, Rx and Ry flags and angles of every qubit. */
    var pending: seq<Pending>
    /** Which qubits may be nonzero. */
    var occupied: seq<bool>

    /** The queue is legal, and the state has a bit for every qubit and no others. */
    ghost predicate WellFormed()
      reads this, state
    {
      LegalQueue(queue) && Bounded(Snapshot()) && state.width == |pending|
    }

    /** The flags are sound as well. */
    ghost predicate Valid()
      reads this, state
    {
      LegalQueue(queue) && Sound(Snapshot()) && state.width == |pending|
    }

    /** No zero is stored, and no queued phase is zero. */
    ghost predicate Clean()
      reads this, state
    {
      NoZeros(state.data) && NonzeroQueue(queue)
    }

    /** The simulator's state as a value. */
    ghost function Snapshot(): Sim
      reads this, state
    {
      Sim(state.normalizer, state.Stored(), queue, pending, occupied)
    }

    constructor (numQubits: nat, normalizer: real)
      requires 2.0 * normalizer * normalizer == 1.0
      ensures Valid() && Clean() && fresh(state) && |pending| == numQubits && state.normalizer == normalizer
      ensures McxTrapRun.Initial(Snapshot()) && forall q :: 0 <= q < |occupied| ==> !occupied[q]
      ensures Weight(numQubits, Denoted(Snapshot())) == 1.0
    {
      hide *;
      state := new QuantumState(normalizer, numQubits);
      queue := [];
      pending := seq(numQubits, _ => NOTHING);
      occupied := seq(numQubits, _ => false);
      new;
      Starts(numQubits);
    }

    lemma Starts(n: nat)
      requires 2.0 * state.normalizer * state.normalizer == 1.0 && state.data == map[{} := ONE] && state.width == n
      requires queue == [] && |pending| == |occupied| == n
      requires forall q :: 0 <= q < n ==> pending[q] == NOTHING && !occupied[q]
      ensures Valid() && Clean() && McxTrapRun.Initial(Snapshot()) && Weight(n, Denoted(Snapshot())) == 1.0
    {
      hide WaveOf, Sound, Denoted, Weight;
      InitialSound(Snapshot());
      McxTrapRun.InitialDenotes(Snapshot());
      VacuumWeight(n);
    }

    // -------------------------------------------------------------- running what is pending

    method ExecutePhaseAndPermute()
      requires LegalQueue(queue)
      modifies this`queue, state
      ensures Snapshot() == FlushQueue(old(Snapshot())) && LegalQueue(queue)
      ensures old(Clean()) ==> Clean()
    {
      hide RunQueue, WaveOf;
      EmptyQueue([], state.Stored());
      if |queue| != 0 {
        state.PhaseAndPermute(queue);
        queue := [];
      }
    }

    method ExecuteH(index: nat)
      requires index < |pending| && state.normalizer != 0.0
      modifies this`pending, state
      ensures |pending| == |old(pending)| && Snapshot() == FlushH(old(Snapshot()), index)
      ensures old(Clean()) ==> Clean()
    {
      hide WaveOf, NoZeros, NonzeroQueue, On, HMat;
      if pending[index].h {
        state.H(index);
        pending := pending[index := pending[index].(h := false)];
      }
    }

    method ExecuteRx(index: nat)
      requires index < |pending|
      modifies this`pending, state
      ensures |pending| == |old(pending)| && Snapshot() == FlushRx(old(Snapshot()), index)
      ensures old(Clean()) ==> Clean()
    {
      hide WaveOf, NoZeros, NonzeroQueue, Rotated;
      if pending[index].x {
        state.R(false, pending[index].ax, index);
        pending := pending[index := pending[index].(ax := NO_ANGLE)];
        pending := pending[index := pending[index].(x := false)];
      }
    }

    method ExecuteRy(index: nat)
      requires index < |pending|
      modifies this`pending, state
      ensures Snapshot() == FlushRy(old(Snapshot()), index)
      ensures old(Clean()) ==> Clean()
    {
      hide WaveOf, NoZeros, NonzeroQueue, Rotated;
      if pending[index].y {
        state.R(true, pending[index].ay, index);
        pending := pending[index := pending[index].(ay := NO_ANGLE)];
        pending := pending[index := pending[index].(y := false)];
      }
    }

    /** Runs what is pending on one qubit, up to `level`. */
    method ExecuteQubit(index: nat, level: Level)
      requires index < |pending| && state.normalizer != 0.0
      modifies this`pending, state
      ensures Snapshot() == FlushQubit(old(Snapshot()), index, level)
      ensures old(Clean()) ==> Clean()
    {
      hide WaveOf, NoZeros, NonzeroQueue, FlushH, FlushRx, FlushRy;
      if level.LevelQueue? {
        return;
      }
      ExecuteH(index);
      if level.LevelH? {
        return;
      }
      ExecuteRx(index);
      if level.LevelRx? {
        return;
      }
      ExecuteRy(index);
    }

    method ExecuteQueuedOps(indices: seq<nat>, level: Level)
      requires LegalQueue(queue) && Within(indices, |pending|) && state.normalizer != 0.0
      modifies this`pending, this`queue, state
      ensures Snapshot() == Flush(old(Snapshot()), indices, level) && LegalQueue(queue)
      ensures old(Clean()) ==> Clean()
    {
      hide WaveOf, NoZeros, NonzeroQueue, FlushQubit, LegalQueue, FlushQueue;
      ExecutePhaseAndPermute();
      ghost var start := Snapshot();
      for i := 0 to |indices|
        invariant LegalQueue(queue) && |pending| == |old(pending)| && (old(Clean()) ==> Clean())
        invariant Snapshot() == FlushQubits(start, indices[..i], level)
      {
        assert indices[..i + 1][..i] == indices[..i];
        ExecuteQubit(indices[i], level);
      }
      assert indices[..|indices|] == indices;
    }

    method ExecuteAll()
      requires WellFormed()
      modifies this`pending, this`queue, state
      ensures Snapshot() == FlushAll(old(Snapshot())) && LegalQueue(queue)
      ensures old(Clean()) ==> Clean()
    {
      hide WaveOf, NoZeros, NonzeroQueue, FlushQubit, LegalQueue, FlushQueue, Bounded;
      WellFormedFacts();
      ExecutePhaseAndPermute();
      ghost var start := Snapshot();
      for index := 0 to |pending|
        invariant LegalQueue(queue) && |pending| == |old(pending)| && (old(Clean()) ==> Clean())
        invariant Snapshot() == FlushBelow(start, index)
      {
        ExecuteQubit(index, LevelRy);
      }
    }

    /** Runs what is pending on the controls if anything is. */
    method ExecuteIfPending(controls: seq<nat>)
      requires LegalQueue(queue) && Within(controls, |pending|) && state.normalizer != 0.0
      modifies this`pending, this`queue, state
      ensures Snapshot() == ExecuteIf(old(Snapshot()), controls) && LegalQueue(queue)
      ensures old(Clean()) ==> Clean()
    {
      hide WaveOf, NoZeros, NonzeroQueue, Flush, LegalQueue;
      for i := 0 to |controls|
        invariant Snapshot() == old(Snapshot()) && LegalQueue(queue)
        invariant forall j :: 0 <= j < i ==> pending[controls[j]].Nothing()
      {
        var p := pending[controls[i]];
        if p.y || p.x || p.h {
          ExecuteQueuedOps(controls, LevelRy);
          return;
        }
      }
    }

    method SetQubitToNonzero(index: nat)
      requires index < |occupied|
      modifies this`occupied
      ensures occupied == old(occupied)[index := true]
    {
      occupied := occupied[index := true];
    }

    // -------------------------------------------------------------- the gates

    method X(index: nat)
      requires WellFormed() && index < |pending|
      modifies this
      ensures WellFormed() && Snapshot() == StepX(old(Snapshot()), index)
      ensures old(Valid()) ==> Valid()
      ensures old(Clean()) ==> Clean()
    {
      hide WaveOf, NoZeros, NonzeroQueue, LegalQueue, Sound, Bounded, Negated;
      WellFormedFacts();
      StepBounded(Snapshot(), Gate.X(index));
      var p := pending[index];
      if p.y {
        pending := pending[index := p.(ay := Negated(p.ay))];
      }
      if p.h {
        Push(OpZ(index));
        return;
      }
      Push(OpX(index));
      SetQubitToNonzero(index);
    }

    method Y(index: nat)
      requires WellFormed() && index < |pending|
      modifies this
      ensures WellFormed() && Snapshot() == StepY(old(Snapshot()), index)
      ensures old(Valid()) ==> Valid()
      ensures old(Clean()) ==> Clean()
    {
      hide WaveOf, NoZeros, NonzeroQueue, LegalQueue, Sound, Bounded, Negated;
      WellFormedFacts();
      StepBounded(Snapshot(), Gate.Y(index));
      var p := pending[index];
      if p.x {
        pending := pending[index := p.(ax := Negated(p.ax))];
      }
      Push(OpY(index));
      SetQubitToNonzero(index);
    }

    method Z(index: nat)
      requires WellFormed() && index < |pending|
      modifies this
      ensures WellFormed() && Snapshot() == StepZ(old(Snapshot()), index)
      ensures old(Valid()) ==> Valid()
      ensures old(Clean()) ==> Clean()
    {
      hide WaveOf, NoZeros, NonzeroQueue, LegalQueue, Sound, Bounded, Negated;
      WellFormedFacts();
      StepBounded(Snapshot(), Gate.Z(index));
      var p := pending[index];
      if p.y {
        pending := pending[index := pending[index].(ay := Negated(p.ay))];
      }
      if p.x {
        pending := pending[index := pending[index].(ax := Negated(p.ax))];
      }
      assert pending == old(pending)[index := NegatedBoth(p)];
      if p.h {
        Push(OpX(index));
        SetQubitToNonzero(index);
        return;
      }
      Push(OpZ(index));
    }

    method H(index: nat)
      requires WellFormed() && index < |pending|
      modifies this, state
      ensures WellFormed() && Snapshot() == StepH(old(Snapshot()), index)
      ensures old(Valid()) ==> Valid()
      ensures old(Clean()) ==> Clean()
    {
      hide WaveOf, NoZeros, NonzeroQueue, Flush, LegalQueue, Sound, Bounded, Negated;
      WellFormedFacts();
      StepBounded(Snapshot(), Gate.H(index));
      if pending[index].y {
        pending := pending[index := pending[index].(ay := Negated(pending[index].ay))];
      }
      if pending[index].x {
        ExecuteQueuedOps([index], LevelRx);
      }
      pending := pending[index := pending[index].(h := !pending[index].h)];
      SetQubitToNonzero(index);
    }

    lemma WellFormedFacts()
      requires WellFormed()
      ensures state.normalizer != 0.0 && |occupied| == |pending| && LazyQueue.Valid(Snapshot())
    {
      hide Confined, RunQueue;
    }

    lemma ValidIsWellFormed()
      requires Valid()
      ensures WellFormed()
    {
      hide Bounded, Sound;
      SoundBounded(Snapshot());
    }

    method Push(op: Operation)
      requires LegalQueue(queue) && LegalOperation(op)
      modifies this`queue
      ensures queue == old(queue) + [op] && LegalQueue(queue)
      ensures NonzeroQueue(old(queue)) && NonzeroOperation(op) ==> NonzeroQueue(queue)
    {
      queue := queue + [op];
    }

    /** Runs what is pending on the controls of MCX: for one control, an H may stay if the target has one too. */
    method ClearControls(controls: seq<nat>, target: nat)
      requires LegalQueue(queue) && controls != [] && Within(controls, |pending|) && target < |pending|
      requires state.normalizer != 0.0
      modifies this`pending, this`queue, state
      ensures Snapshot() == ClearControlsOfMCX(old(Snapshot()), controls, target) && LegalQueue(queue)
      ensures old(Clean()) ==> Clean()
    {
      hide WaveOf, NoZeros, NonzeroQueue, Flush, LegalQueue, ExecuteIf;
      if |controls| > 1 {
        ExecuteIfPending(controls);
      } else {
        var p := pending[controls[0]];
        if p.y || p.x || (p.h && !pending[target].h) {
          ExecuteQueuedOps(controls, LevelRy);
        }
      }
    }

    method MCX(controls: seq<nat>, target: nat)
      requires WellFormed() && Legal(Gate.MCX(controls, target), |pending|)
      modifies this, state
      ensures WellFormed() && Snapshot() == StepMCX(old(Snapshot()), controls, target)
      ensures old(Valid()) ==> Valid()
      ensures old(Clean()) ==> Clean()
    {
      hide WaveOf, NoZeros, NonzeroQueue, Flush, LegalQueue, Sound, Bounded, StepX, ClearControlsOfMCX;
      WellFormedFacts();
      StepBounded(Snapshot(), Gate.MCX(controls, target));
      if |controls| == 0 {
        X(target);
        return;
      }
      ClearControls(controls, target);
      if pending[target].y {
        ExecuteQueuedOps([target], LevelRy);
      }
      if pending[target].h {
        if |controls| == 1 && pending[controls[0]].h {
          Push(OpMCX({target}, controls[0]));
          SetQubitToNonzero(controls[0]);
        } else {
          Push(OpMCZ(SetOf(controls), target));
        }
        return;
      }
      Push(OpMCX(SetOf(controls), target));
      SetQubitToNonzero(target);
    }

    method MCY(controls: seq<nat>, target: nat)
      requires WellFormed() && Legal(Gate.MCY(controls, target), |pending|)
      modifies this, state
      ensures WellFormed() && Snapshot() == StepMCY(old(Snapshot()), controls, target)
      ensures old(Valid()) ==> Valid()
      ensures old(Clean()) ==> Clean()
    {
      hide WaveOf, NoZeros, NonzeroQueue, Flush, LegalQueue, Sound, Bounded, ExecuteIf, StepY;
      WellFormedFacts();
      StepBounded(Snapshot(), Gate.MCY(controls, target));
      if |controls| == 0 {
        Y(target);
        return;
      }
      ExecuteIfPending(controls);
      if pending[target].x {
        ExecuteQueuedOps([target], LevelRx);
      }
      if pending[target].h {
        if |controls| == 1 {
          Push(OpZ(controls[0]));
        } else if |controls| > 1 {
          Push(OpMCZ(SetOf(controls), controls[0]));
        }
      }
      Push(OpMCY(SetOf(controls), target));
      SetQubitToNonzero(target);
    }

    method MCZ(controls: seq<nat>, target: nat)
      requires WellFormed() && Legal(Gate.MCZ(controls, target), |pending|)
      modifies this, state
      ensures WellFormed() && Snapshot() == StepMCZ(old(Snapshot()), controls, target)
      ensures old(Valid()) ==> Valid()
      ensures old(Clean()) ==> Clean()
    {
      hide WaveOf, NoZeros, NonzeroQueue, Flush, LegalQueue, Sound, Bounded, FirstH, CountObstacles, StepZ;
      WellFormedFacts();
      StepBounded(Snapshot(), Gate.MCZ(controls, target));
      if |controls| == 0 {
        Z(target);
        return;
      }
      var count := Count(pending, controls);
      if pending[target].y || pending[target].x {
        count := count + 2;
      }
      if pending[target].h {
        count := count + 1;
      }
      if count > 1 {
        ExecuteQueuedOps(controls, LevelRy);
        ExecuteQueuedOps([target], LevelRy);
      } else if count == 1 {
        SingleHIsLegal(pending, controls, target);
        var newControls, newTarget := SwapHIntoTarget(pending, controls, target);
        Push(OpMCX(SetOf(newControls), newTarget));
        SetQubitToNonzero(newTarget);
        return;
      }
      Push(OpMCZ(SetOf(controls), target));
    }

    /** How much is pending on the controls, weighing rotations double. */
    static method Count(pending: seq<Pending>, controls: seq<nat>) returns (count: nat)
      requires Within(controls, |pending|)
      ensures count == CountObstacles(pending, controls)
    {
      count := 0;
      for i := 0 to |controls|
        invariant count == CountObstacles(pending, controls[..i])
      {
        assert controls[..i + 1][..i] == controls[..i];
        if pending[controls[i]].y || pending[controls[i]].x {
          count := count + 2;
        }
        if pending[controls[i]].h {
          count := count + 1;
        }
      }
      assert controls[..|controls|] == controls;
    }

    /** Makes the first control with a pending H the target. */
    static method SwapHIntoTarget(pending: seq<Pending>, controls: seq<nat>, target: nat)
      returns (newControls: seq<nat>, newTarget: nat)
      requires Within(controls, |pending|)
      ensures var i := FirstH(pending, controls);
        if i < |controls| then newControls == controls[i := target] && newTarget == controls[i]
        else newControls == controls && newTarget == target
    {
      newControls, newTarget := controls, target;
      for i := 0 to |newControls|
        invariant newControls == controls && newTarget == target
        invariant forall j :: 0 <= j < i ==> !pending[controls[j]].h
      {
        if pending[newControls[i]].h {
          newControls, newTarget := newControls[i := newTarget], newControls[i];
          FirstHIs(pending, controls, i);
          return;
        }
      }
    }

    method Phase(phase: Complex, index: nat)
      requires WellFormed() && index < |pending|
      modifies this, state
      ensures WellFormed() && Snapshot() == StepPhase(old(Snapshot()), phase, index)
      ensures old(Valid()) ==> Valid()
      ensures old(Clean()) && phase != ZERO ==> Clean()
    {
      hide WaveOf, NoZeros, NonzeroQueue, Flush, LegalQueue, Sound, Bounded, ExecuteIf;
      WellFormedFacts();
      StepBounded(Snapshot(), Gate.Phase(phase, index));
      ExecuteIfPending([index]);
      Push(OpPhase(index, phase));
    }

    method MCPhase(controls: seq<nat>, phase: Complex, target: nat)
      requires WellFormed() && Legal(Gate.MCPhase(controls, phase, target), |pending|)
      modifies this, state
      ensures WellFormed() && Snapshot() == StepMCPhase(old(Snapshot()), controls, phase, target)
      ensures old(Valid()) ==> Valid()
      ensures old(Clean()) && phase != ZERO ==> Clean()
    {
      hide WaveOf, NoZeros, NonzeroQueue, LegalQueue, Sound, Bounded, ExecuteIf, StepPhase;
      WellFormedFacts();
      StepBounded(Snapshot(), Gate.MCPhase(controls, phase, target));
      if |controls| == 0 {
        Phase(phase, target);
        return;
      }
      ExecuteIfPending(controls);
      ExecuteIfPending([target]);
      Push(OpMCPhase(SetOf(controls), target, phase));
    }

    method SWAP(index1: nat, index2: nat)
      requires WellFormed() && index1 < |pending| && index2 < |pending|
      modifies this
      ensures WellFormed() && Snapshot() == StepSWAP(old(Snapshot()), index1, index2)
      ensures old(Valid()) ==> Valid()
      ensures old(Clean()) ==> Clean()
    {
      hide WaveOf, NoZeros, NonzeroQueue, LegalQueue, Sound, Bounded;
      WellFormedFacts();
      StepBounded(Snapshot(), Gate.SWAP(index1, index2));
      var lo, hi := if index1 > index2 then index2 else index1, if index1 > index2 then index1 else index2;
      pending := pending[lo := pending[hi]][hi := pending[lo]];
      occupied := occupied[lo := occupied[hi]][hi := occupied[lo]];
      assert pending == old(pending)[index1 := old(pending)[index2]][index2 := old(pending)[index1]];
      assert occupied == old(occupied)[index1 := old(occupied)[index2]][index2 := old(occupied)[index1]];
      Push(OpSwap(lo, hi));
    }

    method CSWAP(controls: seq<nat>, index1: nat, index2: nat)
      requires WellFormed() && Legal(Gate.CSWAP(controls, index1, index2), |pending|)
      modifies this, state
      ensures WellFormed() && |old(occupied)| == |old(pending)| && (old(Valid()) ==> Valid())
      ensures Snapshot() == StepCSWAP(old(Snapshot()), controls, index1, index2)
      ensures old(Clean()) ==> Clean()
    {
      hide WaveOf, NoZeros, NonzeroQueue, LegalQueue, Sound, Bounded, ExecuteIf, StepSWAP;
      WellFormedFacts();
      StepBounded(Snapshot(), Gate.CSWAP(controls, index1, index2));
      if |controls| == 0 {
        SWAP(index1, index2);
        return;
      }
      var lo, hi := if index1 > index2 then index2 else index1, if index1 > index2 then index1 else index2;
      ExecuteIfPending(controls);
      ExecuteIfPending([lo]);
      ExecuteIfPending([hi]);
      Push(OpMCSwap(SetOf(controls), lo, hi));
      if occupied[lo] || occupied[hi] {
        SetQubitToNonzero(lo);
        SetQubitToNonzero(hi);
      }
    }

    method MCH(controls: seq<nat>, target: nat)
      requires WellFormed() && Legal(Gate.MCH(controls, target), |pending|)
      modifies this, state
      ensures WellFormed() && Snapshot() == StepMCH(old(Snapshot()), controls, target)
      ensures old(Valid()) ==> Valid()
      ensures old(Clean()) ==> Clean()
    {
      hide WaveOf, NoZeros, NonzeroQueue, LegalQueue, Sound, Bounded, ExecuteIf, StepH, Flush, FlushQueue, Controlled,
           HMat;
      WellFormedFacts();
      StepBounded(Snapshot(), Gate.MCH(controls, target));
      if |controls| == 0 {
        H(target);
        return;
      }
      ExecuteIfPending(controls);
      if pending[target].y || pending[target].x {
        ExecuteQueuedOps([target], LevelRy);
      }
      ExecutePhaseAndPermute();
      state.MCH(SetOf(controls), target);
      SetQubitToNonzero(target);
    }

    method R(axis: Axis, phi: Angle, index: nat)
      requires WellFormed() && index < |pending|
      modifies this, state
      ensures WellFormed() && Snapshot() == StepR(old(Snapshot()), axis, phi, index)
      ensures old(Valid()) ==> Valid()
      ensures old(Clean()) ==> Clean()
    {
      hide WaveOf, NoZeros, NonzeroQueue, LegalQueue, Sound, Bounded, Flush, StepPhase, Times, Sum;
      WellFormedFacts();
      StepBounded(Snapshot(), Gate.R(axis, phi, index));
      if axis.PauliI? {
        return;
      }
      if axis.PauliY? {
        pending := pending[index := pending[index].(y := true, ay := Sum(pending[index].ay, phi))];
        SetQubitToNonzero(index);
        return;
      } else if pending[index].y {
        FlushBounded(Snapshot(), [index], LevelRy);
        ExecuteQueuedOps([index], LevelRy);
      }
      if axis.PauliX? {
        pending := pending[index := pending[index].(x := true, ax := Sum(pending[index].ax, phi))];
        SetQubitToNonzero(index);
        return;
      } else if pending[index].x {
        FlushBounded(Snapshot(), [index], LevelQueue);
        ExecuteQueuedOps([index], LevelQueue);
      }
      if pending[index].h {
        FlushBounded(Snapshot(), [index], LevelH);
        ExecuteQueuedOps([index], LevelH);
      }
      SquareNonzero(phi.c, phi.s);
      Phase(Times(Complex(phi.c, phi.s), Complex(phi.c, phi.s)), index);
    }

    // -------------------------------------------------------------- measurement, reset, release

    /**
     A measurement. A flagged qubit gives an outcome drawn by the chances the denoted state gives it. A state of weight
     one is left with weight one, except when 0 is drawn and the qubit has no weight at 1: then nothing is left of it.
     A qubit not flagged answers 0; when the flags are sound it has no chance to be 1.
     */
    method M(target: nat, sample: real, rsqrt: real -> real) returns (result: bool, ghost k: real)
      requires WellFormed() && target < |pending|
      modifies this, state
      ensures WellFormed() && |old(occupied)| == |old(pending)| == |pending| && (old(Valid()) ==> Valid())
      ensures (result, Snapshot()) == StepM(old(Snapshot()), target, result, Real(k))
      ensures !old(occupied)[target] ==> !result && Snapshot() == old(Snapshot())
      ensures var n, w := |pending|, old(Denoted(Snapshot()));
        if old(occupied)[target] then
          && (result <==> sample <= Chance(n, target, true, w)) && k == rsqrt(Chance(n, target, result, w))
          && Weight(n, Denoted(Snapshot())) == k * k * Chance(n, target, result, w)
        else old(Valid()) ==> Chance(n, target, true, w) == 0.0
      ensures var n, w := |pending|, old(Denoted(Snapshot()));
        IsReciprocalRoot(rsqrt) && 0.0 <= sample <= 1.0 && Weight(n, w) == 1.0 ==>
          Weight(n, Denoted(Snapshot())) == UnitLeft(old(occupied)[target], sample, Chance(n, target, true, w))
      ensures old(Clean()) && (old(occupied)[target] ==> k != 0.0) ==> Clean()
      ensures old(Clean()) && old(occupied)[target] ==>
        Chance(|pending|, target, result, old(Denoted(Snapshot()))) == 0.0 ==> state.data == map[]
    {
      hide WaveOf, NoZeros, NonzeroQueue, LegalQueue, Sound, Bounded, Flush, On, ProjectMat, Denoted, Weight, Chance,
           LabelSum, Part, Norms, IsReciprocalRoot;
      WellFormedFacts();
      ghost var s := Snapshot();
      if !occupied[target] {
        if Sound(s) {
          NoChance(s, target);
        }
        return false, 1.0;
      }
      ExecuteQueuedOps([target], LevelRy);
      StoredChances(state.data, s, target);
      result := state.M(target, sample, rsqrt);
      k := rsqrt(Chance(|pending|, target, result, Denoted(s)));
      if !result {
        occupied := occupied[target := false];
      }
      assert (result, Snapshot()) == StepM(s, target, result, Real(k));
      MBounded(s, target, result, Real(k));
      MeasuredFacts(s, target, result, sample, rsqrt);
    }

    /** A reset, with the outcome drawn as in a measurement. */
    method Reset(target: nat, sample: real, rsqrt: real -> real) returns (ghost one: bool, ghost k: real)
      requires WellFormed() && target < |pending|
      modifies this, state
      ensures WellFormed() && |old(occupied)| == |old(pending)| == |pending| && (old(Valid()) ==> Valid())
      ensures Snapshot() == StepReset(old(Snapshot()), target, one, Real(k))
      ensures var n, w := |pending|, old(Denoted(Snapshot()));
        old(occupied)[target] ==>
          && (one <==> sample <= Chance(n, target, true, w)) && k == rsqrt(Chance(n, target, one, w))
          && Weight(n, Denoted(Snapshot())) == k * k * Chance(n, target, one, w)
      ensures var n, w := |pending|, old(Denoted(Snapshot()));
        IsReciprocalRoot(rsqrt) && 0.0 <= sample <= 1.0 && Weight(n, w) == 1.0 ==>
          Weight(n, Denoted(Snapshot())) == UnitLeft(old(occupied)[target], sample, Chance(n, target, true, w))
      ensures old(Clean()) && (old(occupied)[target] ==> k != 0.0) ==> Clean()
    {
      hide WaveOf, NoZeros, NonzeroQueue, LegalQueue, Sound, Bounded, Flush, On, ResetMat, Denoted, Weight, Chance,
           LabelSum, Part, Norms, IsReciprocalRoot;
      WellFormedFacts();
      ghost var s := Snapshot();
      one, k := false, 1.0;
      if !occupied[target] {
        return;
      }
      ExecuteQueuedOps([target], LevelRy);
      StoredChances(state.data, s, target);
      one := state.Reset(target, sample, rsqrt);
      k := rsqrt(Chance(|pending|, target, one, Denoted(s)));
      occupied := occupied[target := false];
      assert Snapshot() == StepReset(s, target, one, Real(k));
      ResetBounded(s, target, one, Real(k));
      MeasuredFacts(s, target, one, sample, rsqrt);
    }

    /** A release; a qubit that is not found in a basis state is reset. What it leaves weighs one if the state did. */
    method Release(target: nat, sample: real, rsqrt: real -> real)
      returns (wasClassical: bool, ghost one: bool, ghost k: real)
      requires WellFormed() && target < |pending|
      modifies this, state
      ensures WellFormed() && |old(occupied)| == |old(pending)| == |pending| && (old(Valid()) ==> Valid())
      ensures target < |occupied| && !occupied[target]
      ensures (wasClassical, Snapshot()) == StepRelease(old(Snapshot()), target, one, Real(k))
      ensures var n, w := |pending|, old(Denoted(Snapshot()));
        (one <==> sample <= Chance(n, target, true, w)) && k == rsqrt(Chance(n, target, one, w))
      ensures var n, w := |pending|, old(Denoted(Snapshot()));
        IsReciprocalRoot(rsqrt) && 0.0 <= sample <= 1.0 && Weight(n, w) == 1.0 ==> Weight(n, Denoted(Snapshot())) == 1.0
      ensures old(Clean()) && (!wasClassical ==> k != 0.0) ==> Clean()
    {
      hide WaveOf, NoZeros, NonzeroQueue, LegalQueue, Sound, Bounded, Flush, On, ResetMat, Has, StepX, Denoted, Chance,
           Weight, LabelSum, Part, Norms, IsReciprocalRoot;
      WellFormedFacts();
      ghost var s := Snapshot();
      one := sample <= Chance(|pending|, target, true, Denoted(s));
      k := rsqrt(Chance(|pending|, target, one, Denoted(s)));
      ReleaseBounded(s, target, one, Real(k));
      ReleasedFacts(s, target, one, sample, rsqrt);
      wasClassical := true;
      if occupied[target] {
        FlushBounded(Snapshot(), [target], LevelRy);
        ExecuteQueuedOps([target], LevelRy);
        var classical, value := state.IsQubitClassical(target);
        if !classical {
          StoredChances(state.data, s, target);
          ghost var drawn := state.Reset(target, sample, rsqrt);
          wasClassical := false;
        } else if value {
          X(target);
          ExecuteQueuedOps([target], LevelRy);
        }
      }
      occupied := occupied[target := false];
    }

    // -------------------------------------------------------------- joint measurement and assertion

    /**
     A joint measurement of a Pauli product. For a state of weight one the outcome is drawn by the chances the
     denoted state gives it. The flags stay sound when every qubit measured along Y is flagged.
     */
    method Measure(axes: seq<Axis>, qubits: seq<nat>, sample: real, rsqrt: real -> real)
      returns (result: bool, ghost k: real)
      requires WellFormed() && Clean()
      requires |axes| == |qubits| && NoDuplicates(qubits) && Within(qubits, |pending|)
      modifies this, state
      ensures WellFormed() && |old(occupied)| == |old(pending)| == |pending|
      ensures Snapshot() == StepMeasure(old(Snapshot()), axes, qubits, result, k)
      ensures old(Valid()) && (forall i :: 0 <= i < |axes| && axes[i].PauliY? ==> old(occupied)[qubits[i]]) ==> Valid()
      ensures var n, w := |pending|, old(Denoted(Snapshot()));
        Weight(n, w) == 1.0 ==>
          && (result <==> sample <= JointChance(n, axes, qubits, true, w))
          && k == rsqrt(JointChance(n, axes, qubits, result, w))
          && (!Trivial(axes) ==> Weight(n, Denoted(Snapshot())) == k * k * JointChance(n, axes, qubits, result, w))
      ensures var n, w := |pending|, old(Denoted(Snapshot()));
        IsReciprocalRoot(rsqrt) && 0.0 <= sample <= 1.0 && Weight(n, w) == 1.0 ==>
          Weight(n, Denoted(Snapshot())) == UnitLeft(!Trivial(axes), sample, JointChance(n, axes, qubits, true, w))
      ensures k != 0.0 ==> Clean()
    {
      hide WaveOf, NoZeros, NonzeroQueue, LegalQueue, Sound, Bounded, Flush, Denoted, Weight, JointChance,
           LazyQueue.Valid, HEach, XQubits, Trivial, NoDuplicates, SameState, Projected, IsReciprocalRoot;
      WellFormedFacts();
      ghost var s, n := Snapshot(), |pending|;
      result, k := MeasureStored(axes, qubits, sample, rsqrt);
      var measurements := HOnX(axes, qubits);
      FlushBounded(Snapshot(), measurements, LevelH);
      WellFormedFacts();
      ExecuteQueuedOps(measurements, LevelH);
      var again := HOnX(axes, qubits);
      StepMeasureIs(s, axes, qubits, result, k);
      KeepsSound(s, axes, qubits, result, k);
      if Weight(n, Denoted(s)) == 1.0 {
        JointFacts(s, axes, qubits, result, sample, rsqrt);
      }
    }

    /** Runs what is pending on the qubits and measures the stored state. */
    method MeasureStored(axes: seq<Axis>, qubits: seq<nat>, sample: real, rsqrt: real -> real)
      returns (result: bool, ghost k: real)
      requires WellFormed() && Clean()
      requires |axes| == |qubits| && NoDuplicates(qubits) && Within(qubits, |pending|)
      modifies this`pending, this`queue, state
      ensures WellFormed() && |pending| == |old(pending)|
      ensures Snapshot() == Projected(old(Snapshot()), axes, qubits, Real(0.5 * k),
                                      Real(if result then -0.5 * k else 0.5 * k))
      ensures var n, w := |pending|, old(Denoted(Snapshot()));
        Weight(n, w) == 1.0 ==>
          && (result <==> sample <= JointChance(n, axes, qubits, true, w))
          && k == rsqrt(JointChance(n, axes, qubits, result, w))
      ensures k != 0.0 ==> Clean()
    {
      hide WaveOf, NoZeros, NonzeroQueue, LegalQueue, Sound, Bounded, Flush, Denoted, Weight, JointChance, LabelSum,
           Contribution, Combination, Confined, Fits, LazyQueue.Valid, PauliString, Scaled, Trivial, NoDuplicates,
           SameState, Flushed, Expectation;
      WellFormedFacts();
      ghost var s, n := Snapshot(), |pending|;
      ProjectedBounded(s, axes, qubits);
      ExecuteQueuedOps(qubits, LevelRy);
      ghost var f := Snapshot();
      StoredOutcome(state.data, s, axes, qubits);
      ghost var p := 0.5 - 0.5 * LabelSum(state.data.Keys, Contribution(axes, qubits, state.Stored()));
      result := state.Measure(axes, qubits, sample, rsqrt);
      k := rsqrt(if result then p else 1.0 - p);
      assert Snapshot() == f.(psi := state.Stored());
      assert Snapshot() == Projected(s, axes, qubits, Real(0.5 * k), Real(if result then -0.5 * k else 0.5 * k));
    }

    /** H on every qubit measured along X. */
    method HOnX(axes: seq<Axis>, qubits: seq<nat>) returns (measurements: seq<nat>)
      requires WellFormed() && |axes| == |qubits| && Within(qubits, |pending|)
      modifies this, state
      ensures measurements == XQubits(axes, qubits) && |pending| == |old(pending)|
      ensures WellFormed() && Snapshot() == HEach(old(Snapshot()), measurements)
      ensures old(Clean()) ==> Clean()
    {
      hide WaveOf, NoZeros, NonzeroQueue, LegalQueue, Sound, Bounded, StepH, XQubits, HEach;
      measurements := [];
      NoXQubits(old(Snapshot()));
      for i := 0 to |axes|
        invariant WellFormed() && |pending| == |old(pending)| && (old(Clean()) ==> Clean())
        invariant measurements == XQubits(axes[..i], qubits[..i]) && Within(measurements, |pending|)
        invariant Snapshot() == HEach(old(Snapshot()), measurements)
      {
        XQubitsNext(axes, qubits, i);
        if axes[i].PauliX? {
          H(qubits[i]);
          HEachMore(old(Snapshot()), measurements, qubits[i]);
          measurements := measurements + [qubits[i]];
        }
      }
      assert axes[..|axes|] == axes && qubits[..|qubits|] == qubits;
    }

    /**
     An assertion rewrites the axes through the pending H gates and tests the entries: it accepts exactly when the
     denoted state is an eigenstate of the product with the sign asserted. A trivial product is always accepted.
     */
    method Assert(axes: seq<Axis>, qubits: seq<nat>, result: bool) returns (accepted: bool)
      requires WellFormed() && |axes| == |qubits| && NoDuplicates(qubits) && Within(qubits, |pending|)
      modifies this, state
      ensures WellFormed() && Snapshot() == StepAssert(old(Snapshot()), axes, qubits) && (old(Valid()) ==> Valid())
      ensures Trivial(axes) ==> accepted
      ensures !Trivial(axes) && accepted ==> Eigen(axes, qubits, result, old(Denoted(Snapshot())))
      ensures !Trivial(axes) && !accepted && old(Clean()) ==> !Eigen(axes, qubits, result, old(Denoted(Snapshot())))
      ensures old(Clean()) ==> Clean()
    {
      hide WaveOf, NoZeros, NonzeroQueue, LegalQueue, Sound, Bounded, Flush, Denoted, LazyQueue.Valid, PauliString,
           Scaled, AnyRotation, NoDuplicates, SameState;
      WellFormedFacts();
      ghost var s := Snapshot();
      UnrotatedFacts(s, qubits);
      RunRotations(qubits);
      ghost var u := Snapshot();
      var newAxes, newResult, isEmpty := Rewrite(axes, qubits, result);
      if isEmpty {
        return true;
      }
      FlushBounded(u, qubits, LevelQueue);
      ExecuteQueuedOps(qubits, LevelQueue);
      accepted := state.Assert(newAxes, qubits, newResult);
      AssertDecides(s, axes, qubits, result);
    }

    /** Runs everything pending on the qubits if a rotation is. */
    method RunRotations(qubits: seq<nat>)
      requires WellFormed() && Within(qubits, |pending|)
      modifies this`pending, this`queue, state
      ensures WellFormed() && Snapshot() == Unrotated(old(Snapshot()), qubits) && (old(Valid()) ==> Valid())
      ensures old(Clean()) ==> Clean()
    {
      hide WaveOf, NoZeros, NonzeroQueue, LegalQueue, Sound, Bounded, Flush, Denoted, LazyQueue.Valid, SameState;
      WellFormedFacts();
      ghost var s := Snapshot();
      FlushBounded(s, qubits, LevelRy);
      UnrotatedFacts(s, qubits);
      for i := 0 to |qubits|
        invariant WellFormed() && (old(Valid()) ==> Valid()) && (old(Clean()) ==> Clean()) && |pending| == |s.pend|
        invariant (Snapshot() == s && forall j :: 0 <= j < i ==> !pending[qubits[j]].x && !pending[qubits[j]].y)
          || (AnyRotation(s.pend, qubits) && Snapshot() == Flush(s, qubits, LevelRy))
      {
        if pending[qubits[i]].x || pending[qubits[i]].y {
          WellFormedFacts();
          ExecuteQueuedOps(qubits, LevelRy);
        }
      }
    }

    /** The axes as they read below the pending H gates, the sign, and whether there is nothing to test. */
    method Rewrite(axes: seq<Axis>, qubits: seq<nat>, result: bool)
      returns (newAxes: seq<Axis>, newResult: bool, isEmpty: bool)
      requires |axes| == |qubits| && Within(qubits, |pending|)
      ensures newAxes == Rewritten(axes, qubits, pending) && newResult == Turn(axes, qubits, pending, result)
      ensures isEmpty == Trivial(axes)
    {
      newAxes, newResult, isEmpty := axes, result, true;
      for i := 0 to |qubits|
        invariant |newAxes| == |axes| && newAxes[i..] == axes[i..]
        invariant forall j :: 0 <= j < i ==> newAxes[j] == Through(axes[j], pending[qubits[j]].h)
        invariant newResult == Turn(axes[..i], qubits[..i], pending, result)
        invariant isEmpty <==> forall j :: 0 <= j < i ==> axes[j].PauliI?
      {
        assert axes[..i + 1][..i] == axes[..i] && qubits[..i + 1][..i] == qubits[..i];
        assert newAxes[i] == newAxes[i..][0] == axes[i..][0] == axes[i];
        var h := pending[qubits[i]].h;
        match axes[i] {
          case PauliY =>
            if h { newResult := !newResult; }
            isEmpty := false;
          case PauliX =>
            if h { newAxes := newAxes[i := PauliZ]; }
            isEmpty := false;
          case PauliZ =>
            if h { newAxes := newAxes[i := PauliX]; }
            isEmpty := false;
          case PauliI =>
        }
      }
      assert axes[..|axes|] == axes && qubits[..|qubits|] == qubits;
    }

    /**
     The state of some qubits on their own, with everything pending on them run:
     there is one exactly when they are not entangled.
     */
    method SplitQubits(qubits: seq<nat>, rsqrt: real -> real) returns (r: SplitResult)
      requires WellFormed() && Clean() && Within(qubits, |pending|) && IsReciprocalRoot(rsqrt)
      modifies this, state
      ensures WellFormed() && Clean() && (old(Valid()) ==> Valid())
      ensures Snapshot() == Flush(old(Snapshot()), qubits, LevelRy)
      ensures r.NoState? <==> state.data == map[]
      ensures r.Factors? <==> state.data != map[] && Separable(state.data, SetOf(qubits))
      ensures r.Factors? ==> exists c ::
        c != ZERO && ProductOf(state.data, SetOf(qubits), c, WaveOf(r.first), WaveOf(r.second))
      ensures r.Factors? ==> Total(r.first) == 1.0 == Total(r.second)
    {
      hide WaveOf, NoZeros, NonzeroQueue, LegalQueue, Sound, Bounded, Flush, IsReciprocalRoot, Separable, ProductOf,
           Total;
      WellFormedFacts();
      FlushBounded(Snapshot(), qubits, LevelRy);
      ExecuteQueuedOps(qubits, LevelRy);
      r := state.SplitWavefunction(SetOf(qubits), rsqrt);
    }

    // -------------------------------------------------------------- whole programs

    method Perform(g: Gate)
      requires WellFormed() && Legal(g, |pending|)
      modifies this, state
      ensures WellFormed() && |old(occupied)| == |old(pending)| && Snapshot() == Step(old(Snapshot()), g)
      ensures old(Valid()) ==> Valid()
      ensures old(Clean()) && NonzeroPhase(g) ==> Clean()
    {
      hide WaveOf, NoZeros, NonzeroQueue, LegalQueue, Sound, Bounded, StepX, StepY, StepZ, StepH, StepMCX, StepMCY,
           StepMCZ, StepMCH, StepPhase, StepMCPhase, StepSWAP, StepCSWAP, StepR;
      WellFormedFacts();
      match g {
        case X(q) => X(q);
        case Y(q) => Y(q);
        case Z(q) => Z(q);
        case H(q) => H(q);
        case MCX(cs, q) => MCX(cs, q);
        case MCY(cs, q) => MCY(cs, q);
        case MCZ(cs, q) => MCZ(cs, q);
        case MCH(cs, q) => MCH(cs, q);
        case Phase(p, q) => Phase(p, q);
        case MCPhase(cs, p, q) => MCPhase(cs, p, q);
        case SWAP(a, b) => SWAP(a, b);
        case CSWAP(cs, a, b) => CSWAP(cs, a, b);
        case R(axis, a, q) => R(axis, a, q);
      }
    }

    /**
     A whole program of gates, run to the end: the hash map holds the textbook state, without zeros and within the
     bitsets when no phase is zero, and weighs what it did at the start when all phases have modulus one.
     */
    method RunProgram(gates: seq<Gate>)
      requires WellFormed() && forall i :: 0 <= i < |gates| ==> Legal(gates[i], |pending|)
      requires |occupied| == |pending| && FaithfulRun(Snapshot(), gates)
      modifies this, state
      ensures WellFormed() && (old(Valid()) ==> Valid())
      ensures SameState(state.Stored(), RunIdeal(gates, state.normalizer, old(Denoted(Snapshot()))))
      ensures old(Clean()) && (forall g :: g in gates ==> NonzeroPhase(g)) ==> Clean() && Fits(state.data, state.width)
      ensures (forall g :: g in gates ==> UnitPhase(g)) ==>
        Weight(|pending|, state.Stored()) == Weight(|pending|, old(Denoted(Snapshot())))
    {
      hide WaveOf, NoZeros, NonzeroQueue, Fits, Weight, Confined, Sound, Bounded, UnitPhase, NonzeroPhase, LegalQueue,
           Step, FaithfulRun, FlushAll, Legal, Denoted, SameState, RunIdeal, QubitZero, RunQueue;
      WellFormedFacts();
      ghost var start := Snapshot();
      RunPerforms(start, gates);
      for i := 0 to |gates|
        invariant WellFormed() && (old(Valid()) ==> Valid()) && |occupied| == |pending| == |start.pend|
        invariant old(Clean()) && (forall g :: g in gates ==> NonzeroPhase(g)) ==> Clean()
        invariant Snapshot() == Run(start, gates[..i])
      {
        assert gates[..i + 1][..i] == gates[..i];
        Perform(gates[i]);
      }
      assert gates[..|gates|] == gates;
      FlushAllBounded(Snapshot());
      ExecuteAll();
      StoredBounded(Snapshot());
      if NoZeros(state.data) {
        CleanFits(state.data, |pending|);
      }
      if forall g :: g in gates ==> UnitPhase(g) {
        NormalizerOf(start);
        RunIdealConserves(gates, start.r, |pending|, Denoted(start));
        SameWeight(|pending|, state.Stored(), RunIdeal(gates, start.r, Denoted(start)));
      }
    }

    /** One command of a program, with the number its draw gives. */
    method Execute(c: Command, rsqrt: real -> real) returns (answers: seq<bool>)
      requires WellFormed() && Clean() && Normal(Snapshot()) && IsReciprocalRoot(rsqrt)
      requires LegalCommand(c, |pending|) && Followed(Snapshot(), c)
      modifies this, state
      ensures WellFormed() && Clean() && |old(occupied)| == |old(pending)|
      ensures (answers, Snapshot()) == Executed(old(Snapshot()), rsqrt, c)
    {
      hide WaveOf, NoZeros, NonzeroQueue, LegalQueue, Sound, Bounded, Denoted, Weight, Chance, JointChance, Step, StepM,
           StepReset, StepRelease, StepMeasure, Faithful, Legal, NoDuplicates, IsReciprocalRoot, LazyQueue.Valid,
           Confined;
      ghost var s := Snapshot();
      NormalFacts(s);
      answers := [];
      match c {
        case Do(g) =>
          NonzeroUnit(g);
          Perform(g);
        case MeasureOne(t, sample) =>
          var result, k := M(t, sample, rsqrt);
          IdleBoth(s, rsqrt, t, sample, result, Real(k));
          DrawnNonzero(s, t, sample, rsqrt);
          answers := [result];
        case ResetOne(t, sample) =>
          var one, k := Reset(t, sample, rsqrt);
          IdleBoth(s, rsqrt, t, sample, one, Real(k));
          DrawnNonzero(s, t, sample, rsqrt);
        case ReleaseOne(t, sample) =>
          var wasClassical, one, k := Release(t, sample, rsqrt);
          DrawnNonzero(s, t, sample, rsqrt);
          answers := [wasClassical];
        case MeasureJoint(axes, qs, sample) =>
          var result, k := Measure(axes, qs, sample, rsqrt);
          JointDrawnNonzero(s, axes, qs, sample, rsqrt);
          answers := [result];
      }
    }

    /**
     A whole program, run to the end: the answers are the textbook's for the same draws, and the hash map holds the
     state the textbook leaves, without zeros and of weight one.
     */
    method ExecuteProgram(cs: seq<Command>, rsqrt: real -> real) returns (answers: seq<bool>)
      requires WellFormed() && Clean() && Normal(Snapshot()) && IsReciprocalRoot(rsqrt)
      requires LegalCommands(cs, |pending|) && FollowedRun(Snapshot(), rsqrt, cs)
      modifies this, state
      ensures Valid() && Clean() && Fits(state.data, state.width)
      ensures var (a, w) := TextbookRun(|pending|, state.normalizer, rsqrt, cs, old(Denoted(Snapshot())));
        answers == a && SameState(state.Stored(), w)
      ensures Weight(|pending|, state.Stored()) == 1.0
    {
      hide WaveOf, NoZeros, NonzeroQueue, Fits, Weight, Confined, Sound, Bounded, LegalQueue, Executed, Textbook,
           Followed, FollowedRun, LegalCommand, Denoted, SameState, RunQueue, IsReciprocalRoot, LazyQueue.Valid, Normal,
           FlushAll, CommandRun, TextbookRun;
      ghost var start := Snapshot();
      NormalFacts(start);
      RunNone(start, rsqrt);
      answers := [];
      for i := 0 to |cs|
        invariant WellFormed() && Clean() && |pending| == |start.pend|
        invariant (answers, Snapshot()) == CommandRun(start, rsqrt, cs[..i]) && Normal(Snapshot())
      {
        FollowedNext(start, rsqrt, cs, i);
        var more := Execute(cs[i], rsqrt);
        answers := answers + more;
      }
      assert cs[..|cs|] == cs;
      NormalFacts(Snapshot());
      ProgramStores(start, rsqrt, cs);
      FlushAllBounded(Snapshot());
      ExecuteAll();
      StoredBounded(Snapshot());
      CleanFits(state.data, |pending|);
    }
  }

  /** A measurement for which 0 is drawn, after H was applied twice: the answer is 1, and nothing is left. */
  method EmptiedByZero(normalizer: real, rsqrt: real -> real) returns (sim: SparseSimulator, result: bool)
    requires 2.0 * normalizer * normalizer == 1.0
    ensures fresh(sim) && sim.WellFormed() && |sim.pending| == 1
    ensures result && sim.state.data == map[] && Weight(1, Denoted(sim.Snapshot())) == 0.0
  {
    hide WaveOf, NoZeros, NonzeroQueue, LegalQueue, Sound, Bounded, Denoted, Weight, Chance, StepH, StepM, FaithfulRun,
         IsReciprocalRoot;
    sim := new SparseSimulator(1, normalizer);
    sim.ValidIsWellFormed();
    ghost var s := sim.Snapshot();
    sim.H(0);
    sim.H(0);
    TwoSteps(s, 0);
    FlaggedInVain(s, 0);
    ghost var k;
    result, k := sim.M(0, 0.0, rsqrt);
  }

  lemma TwoSteps(s: Sim, q: nat)
    requires q < |s.pend| && |s.occ| == |s.pend|
    ensures Run(s, [H(q), H(q)]) == StepH(StepH(s, q), q)
  {
    hide StepH, Step, Legal;
    var g := [H(q), H(q)];
    assert g[..0] == [] && g[..2] == g;
    StepOfH(s, q);
    StepOfH(StepH(s, q), q);
    McxTrapRun.LastGate(s, g, 0);
    McxTrapRun.LastGate(s, g, 1);
  }

  lemma StepOfH(s: Sim, q: nat)
    requires q < |s.pend| && |s.occ| == |s.pend|
    ensures Legal(H(q), |s.pend|) && Step(s, H(q)) == StepH(s, q) && SameShape(s, StepH(s, q))
  {
    hide StepH;
  }

  lemma SquareNonzero(c: real, s: real)
    requires c * c + s * s == 1.0
    ensures Times(Complex(c, s), Complex(c, s)) != ZERO
  {
    if c * s == 0.0 {
      assert c == 0.0 || s == 0.0;
    }
  }

  lemma NonzeroUnit(g: Gate)
    requires UnitPhase(g)
    ensures NonzeroPhase(g)
  {
    UnitNorms();
  }

  predicate NonzeroPhase(g: Gate) { g.Phase? || g.MCPhase? ==> g.phase != ZERO }

  lemma KeepsSound(s: Sim, axes: seq<Axis>, qs: seq<nat>, one: bool, k: real)
    requires Bounded(s) && |s.occ| == |s.pend| && |axes| == |qs| && NoDuplicates(qs) && Within(qs, |s.pend|)
    ensures Bounded(StepMeasure(s, axes, qs, one, k))
    ensures Sound(s) && (forall i :: 0 <= i < |axes| && axes[i].PauliY? ==> s.occ[qs[i]]) ==>
      Sound(StepMeasure(s, axes, qs, one, k))
  {
    hide Sound, Bounded, StepMeasure, NoDuplicates;
    MeasureBounded(s, axes, qs, one, k);
    if Sound(s) && forall i :: 0 <= i < |axes| && axes[i].PauliY? ==> s.occ[qs[i]] {
      FlaggedMeasureSound(s, axes, qs, one, k);
    }
  }

  lemma NoXQubits(s: Sim)
    ensures XQubits([], []) == [] && HEach(s, []) == s
  {
  }

  lemma XQubitsNext(axes: seq<Axis>, qs: seq<nat>, i: nat)
    requires i < |axes| == |qs|
    ensures var xs := XQubits(axes[..i], qs[..i]);
      XQubits(axes[..i + 1], qs[..i + 1]) == if axes[i].PauliX? then xs + [qs[i]] else xs
  {
    assert axes[..i + 1][..i] == axes[..i] && qs[..i + 1][..i] == qs[..i];
  }

  lemma HEachMore(s: Sim, xs: seq<nat>, q: nat)
    requires Within(xs, |s.pend|) && q < |s.pend|
    ensures HEach(s, xs + [q]) == StepH(HEach(s, xs), q)
  {
    hide StepH;
    assert (xs + [q])[..|xs|] == xs;
  }

  lemma FirstHIs(pend: seq<Pending>, qs: seq<nat>, i: nat)
    requires Within(qs, |pend|) && i < |qs| && pend[qs[i]].h && forall j :: 0 <= j < i ==> !pend[qs[j]].h
    ensures FirstH(pend, qs) == i
  {
  }

  /** A single pending H makes its qubit differ from all the others. */
  lemma SingleHIsLegal(pend: seq<Pending>, cs: seq<nat>, t: nat)
    requires Within(cs, |pend|) && t < |pend| && CountObstacles(pend, cs) + Obstacles(pend[t]) == 1
    ensures var i := FirstH(pend, cs);
      if i < |cs| then cs[i] !in SetOf(cs[i := t]) else t !in SetOf(cs)
  {
    hide CountObstacles, FirstH;
    if CountObstacles(pend, cs) == 1 {
      var k := OneObstacle(pend, cs);
      FirstIsOnly(pend, cs, k);
      SetWithout(cs, k, t);
    } else {
      NoObstacles(pend, cs);
      NoneFirst(pend, cs);
    }
  }
}
