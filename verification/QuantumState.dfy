/** The sparse quantum state: a hash map of nonzero amplitudes, rebuilt by every kernel. */
module SparseState {
  import opened Sequences
  import opened Amplitudes
  import opened Operators
  import opened Gates
  import opened LazyQueue
  import opened Kernels
  import opened LazyMeaning
  import opened LazySteps
  import opened Occupancy
  import opened BitsetOrder
  import opened PauliStrings
  import opened PauliKernels
  import opened Separability
  import opened Weights

  /** The outcome of a split: no amplitude at all, an entangled state, or the two factors. */
  datatype SplitResult = NoState | Entangled | Factors(first: Table, second: Table)

  class QuantumState {
    /** The entries; a kernel may visit them in any order. */
    var data: Table
    /** One over the square root of two. */
    const normalizer: real
    /** The width of the bitsets. */
    const width: nat

    /** The state |0...0>. */
    constructor (normalizer: real, width: nat)
      ensures this.normalizer == normalizer && this.width == width
      ensures data == map[{} := ONE]
    {
      this.normalizer := normalizer;
      this.width := width;
      data := map[{} := ONE];
    }

    ghost function Stored(): Wave
      reads this
    {
      WaveOf(data)
    }

    /** Runs a list of phase and permutation operations in one pass over the entries. */
    method PhaseAndPermute(ops: seq<Operation>)
      requires LegalQueue(ops)
      modifies this
      ensures Stored() == RunQueue(ops, old(Stored()))
      ensures |data| == |old(data)|
      ensures NoZeros(old(data)) && NonzeroQueue(ops) ==> NoZeros(data)
    {
      hide RunLabel, RunValue, Origin, LegalQueue, RunQueue, Times, WaveOf, Permuted, NoZeros, NonzeroQueue, Emplace,
           PermutedBut;
      if ops == [] {
        EmptyQueue(ops, WaveOf(data));
        return;
      }
      var newData: Table := map[];
      var todo := data.Keys;
      PermutedButAll(ops, data);
      while todo != {}
        invariant data == old(data) && PermutedBut(ops, data, todo, newData)
        decreases |todo|
      {
        var l :| l in todo;
        StillThere(ops, data, todo, newData, l);
        var key, val := RunOperations(ops, l, data[l]);
        PermutedButStep(ops, data, todo, newData, l);
        newData := Emplace(newData, key, val);
        todo := todo - {l};
      }
      PermutedButNone(ops, data, newData);
      PermutedAll(ops, data, newData);
      if NoZeros(data) && NonzeroQueue(ops) {
        PermutedNonzero(ops, data, newData);
      }
      data := newData;
    }

    /** One entry carried through all the operations. */
    method RunOperations(ops: seq<Operation>, l: Label, v: Complex) returns (key: Label, val: Complex)
      ensures key == RunLabel(ops, l) && val == RunValue(ops, l, v)
    {
      key, val := l, v;
      for i := 0 to |ops|
        invariant key == RunLabel(ops[..i], l) && val == RunValue(ops[..i], l, v)
      {
        assert ops[..i + 1][..i] == ops[..i] && ops[..i + 1][i] == ops[i];
        ghost var before, start := key, val;
        match ops[i] {
          case OpX(t) => key := Flip(key, t);
          case OpMCX(cs, t) =>
            if cs <= key { key := Flip(key, t); }
          case OpY(t) =>
            key := Flip(key, t);
            val := Times(val, if t in key then IMAG else MINUS_IMAG);
          case OpMCY(cs, t) =>
            if cs <= key {
              key := Flip(key, t);
              val := Times(val, if t in key then IMAG else MINUS_IMAG);
            }
          case OpZ(t) => val := Times(val, if t in key then MINUS_ONE else ONE);
          case OpMCZ(cs, t) => val := Times(val, if cs + {t} <= key then MINUS_ONE else ONE);
          case OpPhase(t, p) => val := Times(val, if t in key then p else ONE);
          case OpMCPhase(cs, t, p) => val := Times(val, if cs + {t} <= key then p else ONE);
          case OpSwap(a, b) =>
            if (a in key) != (b in key) { key := Flip(Flip(key, a), b); }
          case OpMCSwap(cs, a, b) =>
            if cs <= key && (a in key) != (b in key) { key := Flip(Flip(key, a), b); }
        }
        assert key == NextLabel(ops[i], before) && val == Times(start, NextFactor(ops[i], before)) by {
          TimesComm(start, ONE);
          TimesUnit(start);
        }
      }
      assert ops[..|ops|] == ops;
    }

    /** The Hadamard gate, on labels that have all of `controls`. */
    method MCH(controls: set<nat>, index: nat)
      requires index !in controls && normalizer != 0.0
      modifies this
      ensures Stored() == Controlled(controls, HMat(normalizer), index, old(Stored()))
      ensures NoZeros(old(data)) ==> NoZeros(data)
    {
      hide PairsBuilt, WaveOf, Controlled, Times, Plus, Minus, Norm, NoZeros, HMat;
      var r := normalizer;
      var newData: Table := map[];
      var todo := data.Keys;
      PairsNone(controls, HMat(r), index, data);
      assert data.Keys - todo == {};
      while todo != {}
        invariant todo <= data.Keys && data == old(data)
        invariant PairsBuilt(controls, HMat(r), index, data, data.Keys - todo, newData)
        decreases |todo|
      {
        var l :| l in todo;
        ghost var done := data.Keys - todo;
        if controls <= l {
          var flipped := Flip(l, index);
          if flipped !in data {
            ghost var before := newData;
            newData := Emplace(newData, l - {index}, Times(data[l], Real(r)));
            newData := Emplace(newData, l + {index}, Times(data[l], if index in l then Real(-r) else Real(r)));
            HUnmatched(controls, r, index, data, done, before, l);
          } else if index !in l {
            HMatched(controls, r, index, data, done, newData, l);
            var newState := Plus(data[l], data[flipped]);
            if Norm(newState) > 0.0 {
              newData := Emplace(newData, l, Times(newState, Real(r)));
            }
            newState := Minus(data[l], data[flipped]);
            if Norm(newState) > 0.0 {
              newData := Emplace(newData, flipped, Times(newState, Real(r)));
            }
          } else {
            assert flipped == l - {index};
            PairSkip(controls, HMat(r), index, data, done, newData, l);
          }
        } else {
          PairCopy(controls, HMat(r), index, data, done, newData, l);
          newData := Emplace(newData, l, data[l]);
        }
        assert done + {l} == data.Keys - (todo - {l});
        todo := todo - {l};
      }
      assert data.Keys - todo == data.Keys;
      PairsAll(controls, HMat(r), index, data, newData);
      data := newData;
    }

    /** The Hadamard gate. */
    method H(index: nat)
      requires normalizer != 0.0
      modifies this
      ensures Stored() == On(HMat(normalizer), index, old(Stored()))
      ensures NoZeros(old(data)) ==> NoZeros(data)
    {
      UncontrolledIsOn(HMat(normalizer), index, Stored());
      MCH({}, index);
    }

    /** The rotation by an angle about X or Y; half turns and full turns take shortcuts. */
    method R(axisY: bool, a: Angle, index: nat)
      modifies this
      ensures Stored() == Rotated(axisY, a, index, old(Stored()))
      ensures NoZeros(old(data)) ==> NoZeros(data)
    {
      hide PairsBuilt, WaveOf, On, Controlled, Times, Plus, NoZeros, RxMat, RyMat, Norm, RunQueue;
      var m00 := Real(a.c);
      var m01 := Times(Complex(0.0, -a.s), if axisY then MINUS_IMAG else ONE);
      var m10 := Times(m01, if axisY then MINUS_ONE else ONE);
      RotationEntries(axisY, a);
      NormPositive(m00);
      NormPositive(m01);
      if Norm(m00) <= 0.0 {
        OneOperation(axisY, index, Stored());
        PhaseAndPermute([if axisY then OpY(index) else OpX(index)]);
        return;
      } else if Norm(m01) <= 0.0 {
        return;
      }
      Rotate(m00, m01, m10, index);
    }

    /** The loop of a rotation whose matrix has no zero entry. */
    method Rotate(m00: Complex, m01: Complex, m10: Complex, index: nat)
      requires m00 != ZERO && m01 != ZERO && m10 != ZERO
      modifies this
      ensures Stored() == On(Mat(m00, m01, m10, m00), index, old(Stored()))
      ensures NoZeros(old(data)) ==> NoZeros(data)
    {
      hide PairsBuilt, WaveOf, On, Controlled, Times, Plus, NoZeros, Norm;
      ghost var u := Mat(m00, m01, m10, m00);
      var newData: Table := map[];
      var todo := data.Keys;
      PairsNone({}, u, index, data);
      assert data.Keys - todo == {};
      while todo != {}
        invariant todo <= data.Keys && data == old(data)
        invariant PairsBuilt({}, u, index, data, data.Keys - todo, newData)
        decreases |todo|
      {
        var l :| l in todo;
        ghost var done := data.Keys - todo;
        var flipped := Flip(l, index);
        if flipped !in data {
          RUnmatched(m00, m01, m10, index, data, done, newData, l);
          if index in l {
            newData := Emplace(newData, flipped, Times(data[l], m01));
            newData := Emplace(newData, l, Times(data[l], m00));
          } else {
            newData := Emplace(newData, l, Times(data[l], m00));
            newData := Emplace(newData, flipped, Times(data[l], m10));
          }
        } else if index !in l {
          RMatched(m00, m01, m10, index, data, done, newData, l);
          var newState := Plus(Times(data[l], m00), Times(data[flipped], m01));
          if Norm(newState) > 0.0 {
            newData := Emplace(newData, l, newState);
          }
          newState := Plus(Times(data[l], m10), Times(data[flipped], m00));
          if Norm(newState) > 0.0 {
            newData := Emplace(newData, flipped, newState);
          }
        } else {
          assert flipped == l - {index};
          PairSkip({}, u, index, data, done, newData, l);
        }
        assert done + {l} == data.Keys - (todo - {l});
        todo := todo - {l};
      }
      assert data.Keys - todo == data.Keys;
      PairsAll({}, u, index, data, newData);
      UncontrolledIsOn(u, index, WaveOf(data));
      data := newData;
    }

    /** The weight of the entries with one value of a bit. */
    ghost function Probability(target: nat, one: bool): real
      reads this
    {
      LabelSum(Part(data, target, one), Norms(Stored()))
    }

    /**
     A measurement: 1 when the number drawn is at most the weight of the entries with the bit set. What is kept
     is divided by the square root of its weight, which `rsqrt` stands for.
     */
    method M(target: nat, sample: real, rsqrt: real -> real) returns (one: bool)
      modifies this
      ensures one <==> sample <= old(Probability(target, true))
      ensures var k := rsqrt(old(Probability(target, one)));
        && Stored() == On(ProjectMat(one, Real(k)), target, old(Stored()))
        && (NoZeros(old(data)) && k != 0.0 ==> NoZeros(data))
      ensures NoZeros(old(data)) && old(Probability(target, one)) == 0.0 ==> data == map[]
    {
      hide WaveOf, On, Times, ProjectMat, LabelSum, Norm, Norms, Part;
      var ones: Table, zeros: Table := map[], map[];
      var zeroProbability, oneProbability := 0.0, 0.0;
      var todo := data.Keys;
      ghost var f := Norms(Stored());
      NothingVisited(data, target, f);
      while todo != {}
        invariant todo <= data.Keys && data == old(data)
        invariant forall l :: l in ones <==> l in data && l !in todo && target in l
        invariant forall l :: l in zeros <==> l in data && l !in todo && target !in l
        invariant forall l :: l in ones ==> ones[l] == data[l]
        invariant forall l :: l in zeros ==> zeros[l] == data[l]
        invariant oneProbability == LabelSum(Part(data, target, true) - todo, f)
        invariant zeroProbability == LabelSum(Part(data, target, false) - todo, f)
        decreases |todo|
      {
        var l :| l in todo;
        Visited(data, target, f, todo, l);
        NormsAt(data, l);
        var squareAmplitude := Norm(data[l]);
        if target in l {
          oneProbability := oneProbability + squareAmplitude;
          ones := Emplace(ones, l, data[l]);
        } else {
          zeroProbability := zeroProbability + squareAmplitude;
          zeros := Emplace(zeros, l, data[l]);
        }
        todo := todo - {l};
      }
      assert Part(data, target, true) - {} == Part(data, target, true);
      assert Part(data, target, false) - {} == Part(data, target, false);
      one := sample <= oneProbability;
      var k := rsqrt(if one then oneProbability else zeroProbability);
      var newData := Normalize(if one then ones else zeros, Real(k));
      KeptIsProjected(target, one, Real(k), data, newData);
      if NoZeros(data) && k != 0.0 {
        NoZerosNormalized(if one then ones else zeros, Real(k), newData);
      }
      if NoZeros(data) && Probability(target, one) == 0.0 {
        EmptyPart(data, target, one);
        NoneKept(data, target, one, if one then ones else zeros);
      }
      data := newData;
    }

    /** A reset: the outcome is drawn as in a measurement, and the bit of what is kept is cleared. */
    method Reset(target: nat, sample: real, rsqrt: real -> real) returns (ghost one: bool)
      modifies this
      ensures one <==> sample <= old(Probability(target, true))
      ensures var k := rsqrt(old(Probability(target, one)));
        && Stored() == On(ResetMat(one, Real(k)), target, old(Stored()))
        && (NoZeros(old(data)) && k != 0.0 ==> NoZeros(data))
    {
      hide WaveOf, On, Times, ResetMat, Cleared, LabelSum, Norm, Norms, Part;
      var ones: Table, zeros: Table := map[], map[];
      var zeroProbability, oneProbability := 0.0, 0.0;
      var todo := data.Keys;
      ghost var f := Norms(Stored());
      NothingVisited(data, target, f);
      ClearedNone(data, target);
      while todo != {}
        invariant todo <= data.Keys && data == old(data)
        invariant Cleared(data, todo, target, true, ones) && Cleared(data, todo, target, false, zeros)
        invariant oneProbability == LabelSum(Part(data, target, true) - todo, f)
        invariant zeroProbability == LabelSum(Part(data, target, false) - todo, f)
        decreases |todo|
      {
        var l :| l in todo;
        ClearedStep(data, todo, target, true, ones, l);
        ClearedStep(data, todo, target, false, zeros, l);
        Visited(data, target, f, todo, l);
        NormsAt(data, l);
        var squareAmplitude := Norm(data[l]);
        if target in l {
          oneProbability := oneProbability + squareAmplitude;
          ones := Emplace(ones, l - {target}, data[l]);
        } else {
          zeroProbability := zeroProbability + squareAmplitude;
          zeros := Emplace(zeros, l - {target}, data[l]);
        }
        todo := todo - {l};
      }
      assert Part(data, target, true) - {} == Part(data, target, true);
      assert Part(data, target, false) - {} == Part(data, target, false);
      var result := sample <= oneProbability;
      one := result;
      ClearedAll(data, target, result, if result then ones else zeros);
      var k := rsqrt(if result then oneProbability else zeroProbability);
      var newData := Normalize(if result then ones else zeros, Real(k));
      KeptIsReset(target, result, Real(k), data, newData);
      if NoZeros(data) && k != 0.0 {
        NoZerosNormalized(if result then ones else zeros, Real(k), newData);
      }
      data := newData;
    }

    /** Every entry times `k`. */
    static method Normalize(m: Table, k: Complex) returns (n: Table)
      ensures n.Keys == m.Keys && forall l :: l in n ==> n[l] == Times(m[l], k)
    {
      hide Times;
      n := m;
      var todo := m.Keys;
      while todo != {}
        invariant todo <= m.Keys && n.Keys == m.Keys
        invariant forall l :: l in n ==> n[l] == if l in todo then m[l] else Times(m[l], k)
        decreases |todo|
      {
        var l :| l in todo;
        n := n[l := Times(n[l], k)];
        todo := todo - {l};
      }
    }

    /** Whether the qubit has one value in every stored state, and that value. */
    method IsQubitClassical(target: nat) returns (classical: bool, value: bool)
      ensures classical <==> !(Has(Stored(), target, true) && Has(Stored(), target, false))
      ensures classical ==> value == Has(Stored(), target, true)
    {
      hide WaveOf, Norm, Has;
      value := false;
      var found := false;
      var todo := data.Keys;
      HasStored(data, target);
      while todo != {}
        invariant todo <= data.Keys && (!found ==> !value)
        invariant found ==> exists l :: l in data && data[l] != ZERO && (target in l <==> value)
        invariant forall l :: l in data && l !in todo && data[l] != ZERO ==> found && (target in l <==> value)
        decreases |todo|
      {
        var l :| l in todo;
        NormPositive(data[l]);
        if Norm(data[l]) > 0.0 {
          if !found {
            found, value := true, target in l;
          } else if value != (target in l) {
            return false, false;
          }
        }
        todo := todo - {l};
      }
      return true, value;
    }

    // ---------------------------------------------------------------- products of Pauli operators

    /** The masks of a Pauli product and the number of its Ys. */
    static method Masks(axes: seq<Axis>, qubits: seq<nat>) returns (xys: set<nat>, yzs: set<nat>, ycount: nat)
      requires |axes| == |qubits|
      ensures xys == XYMask(axes, qubits) && yzs == YZMask(axes, qubits) && ycount == YCount(axes)
    {
      xys, yzs, ycount := {}, {}, 0;
      for i := 0 to |axes|
        invariant xys == XYMask(axes[..i], qubits[..i]) && yzs == YZMask(axes[..i], qubits[..i])
        invariant ycount == YCount(axes[..i])
      {
        assert axes[..i + 1][..i] == axes[..i] && qubits[..i + 1][..i] == qubits[..i];
        match axes[i] {
          case PauliY =>
            yzs := yzs + {qubits[i]};
            xys := xys + {qubits[i]};
            ycount := ycount + 1;
          case PauliX => xys := xys + {qubits[i]};
          case PauliZ => yzs := yzs + {qubits[i]};
          case PauliI =>
        }
      }
      assert axes[..|axes|] == axes && qubits[..|qubits|] == qubits;
    }

    /** `id` times the identity plus `pauli` times a Pauli product; a product of identities is left out. */
    method PauliCombination(axes: seq<Axis>, qubits: seq<nat>, id: Complex, pauli: Complex)
      requires |axes| == |qubits| && NoDuplicates(qubits) && forall i :: 0 <= i < |qubits| ==> qubits[i] < width
      requires Fits(data, width)
      modifies this
      ensures Stored() == Combination(axes, qubits, id, pauli, old(Stored()))
      ensures NoZeros(old(data)) && id != ZERO && pauli != ZERO ==> NoZeros(data)
    {
      hide WaveOf, Combined, NoZeros, XYMask, YZMask, YCount, Fits, FitsIn;
      var xys, yzs, ycount := Masks(axes, qubits);
      TrivialMasks(axes, qubits);
      if xys == {} && yzs == {} {
        return;
      }
      if xys == {} {
        CombineDiagonal(axes, qubits, yzs, id, pauli);
      } else {
        CombineFlipping(axes, qubits, xys, yzs, ycount, id, pauli);
      }
    }

    /** Products of Z only: labels keep their places and are scaled by the sum or the difference. */
    method CombineDiagonal(ghost axes: seq<Axis>, ghost qubits: seq<nat>, yzs: set<nat>, id: Complex, pauli: Complex)
      requires |axes| == |qubits| && NoDuplicates(qubits) && XYMask(axes, qubits) == {} && yzs == YZMask(axes, qubits)
      modifies this
      ensures Stored() == Combined(axes, qubits, id, pauli, old(Stored()))
      ensures NoZeros(old(data)) && id != ZERO && pauli != ZERO ==> NoZeros(data)
    {
      hide WaveOf, Combined, XYMask, YZMask, Odd, Times, Plus, Minus, Norm, NoZeros, DiagonalBuilt;
      var even := Plus(pauli, id);
      var odd := Minus(Plus(id, id), even);
      SumAndDifference(id, pauli);
      NormPositive(even);
      NormPositive(odd);
      var newData: Table := map[];
      var todo := data.Keys;
      DiagonalNone(data, yzs, even, odd);
      assert data.Keys - todo == {};
      while todo != {}
        invariant todo <= data.Keys && data == old(data)
        invariant DiagonalBuilt(data, data.Keys - todo, yzs, even, odd, newData)
        decreases |todo|
      {
        var l :| l in todo;
        DiagonalStep(data, data.Keys - todo, yzs, even, odd, newData, l);
        assert data.Keys - todo + {l} == data.Keys - (todo - {l});
        if Norm(even) > 0.0 {
          if Norm(odd) > 0.0 {
            newData := newData[l := Times(data[l], if Odd(yzs, l) then odd else even)];
          } else if !Odd(yzs, l) {
            newData := Emplace(newData, l, Times(data[l], even));
          }
        } else if Odd(yzs, l) {
          newData := Emplace(newData, l, Times(data[l], odd));
        }
        todo := todo - {l};
      }
      assert data.Keys - todo == data.Keys;
      DiagonalAll(axes, qubits, id, pauli, data, newData);
      data := newData;
    }

    /** Products with an X or a Y: every pair of labels is built once, by its smaller or its only stored label. */
    method CombineFlipping(ghost axes: seq<Axis>, ghost qubits: seq<nat>, xys: set<nat>, yzs: set<nat>, ycount: nat,
                           id: Complex, pauli: Complex)
      requires |axes| == |qubits| && NoDuplicates(qubits) && forall i :: 0 <= i < |qubits| ==> qubits[i] < width
      requires xys == XYMask(axes, qubits) && xys != {} && yzs == YZMask(axes, qubits) && ycount == YCount(axes)
      requires Fits(data, width)
      modifies this
      ensures Stored() == Combined(axes, qubits, id, pauli, old(Stored()))
      ensures NoZeros(old(data)) && id != ZERO && pauli != ZERO ==> NoZeros(data)
    {
      hide WaveOf, Combined, XYMask, YZMask, YCount, Odd, Times, Plus, Norm, NoZeros, ComboBuilt, Xor, Turned, Neg,
           Bits, FitsIn, Decider, NoDuplicates;
      var p := Turned(pauli, ycount);
      var pAlt := if ycount % 2 == 1 then Neg(p) else p;
      var newData: Table := map[];
      var todo := data.Keys;
      ComboNone(axes, qubits, id, pauli, width, data);
      assert data.Keys - todo == {};
      while todo != {}
        invariant todo <= data.Keys && data == old(data)
        invariant ComboBuilt(axes, qubits, id, pauli, width, data, data.Keys - todo, newData)
        decreases |todo|
      {
        var l :| l in todo;
        ghost var done := data.Keys - todo;
        var alt := Xor(l, xys);
        FlipFits(axes, qubits, l, width);
        if alt !in data {
          ComboUnmatched(axes, qubits, id, pauli, width, data, done, newData, l);
          newData := Emplace(newData, l, Times(data[l], id));
          newData := Emplace(newData, alt, Times(data[l], if Odd(yzs, l) then Neg(p) else p));
        } else {
          var first := Less(l, alt, width);
          if first {
            ComboMatched(axes, qubits, id, pauli, width, data, done, newData, l);
            var parity := Odd(yzs, l);
            var newState := Plus(Times(data[l], id), Times(data[alt], if parity then Neg(pAlt) else pAlt));
            if Norm(newState) > 0.0 {
              newData := Emplace(newData, l, newState);
            }
            newState := Plus(Times(data[alt], id), Times(data[l], if parity then Neg(p) else p));
            if Norm(newState) > 0.0 {
              newData := Emplace(newData, alt, newState);
            }
          } else {
            ComboPass(axes, qubits, id, pauli, width, data, done, newData, l);
          }
        }
        assert done + {l} == data.Keys - (todo - {l});
        todo := todo - {l};
      }
      assert data.Keys - todo == data.Keys;
      ComboAll(axes, qubits, id, pauli, width, data, newData);
      data := newData;
    }

    /**
     Whether the state is an eigenstate of the Pauli product, with the sign the result stands for, and the partner of
     every stored entry is stored. When no zero is stored, an eigenstate has all partners.
     */
    method Assert(axes: seq<Axis>, qubits: seq<nat>, result: bool) returns (accepted: bool)
      requires |axes| == |qubits| && NoDuplicates(qubits)
      ensures accepted <==>
        && Stored() == Scaled(if result then MINUS_ONE else ONE, PauliString(axes, qubits, Stored()))
        && Paired(axes, qubits, data)
      ensures NoZeros(data) ==>
        (accepted <==> Stored() == Scaled(if result then MINUS_ONE else ONE, PauliString(axes, qubits, Stored())))
    {
      hide WaveOf, Scaled, PauliString, XYMask, YZMask, YCount, Odd, Times, Norm, NoZeros, Xor, Turned, Neg, Minus;
      var xys, yzs, ycount := Masks(axes, qubits);
      var shift := Turned(if result then MINUS_ONE else ONE, ycount);
      var todo := data.Keys;
      while todo != {}
        invariant todo <= data.Keys
        invariant forall l :: l in data && l !in todo ==> EntryMatches(axes, qubits, result, data, l)
        decreases |todo|
      {
        var l :| l in todo;
        var flipped := Xor(l, xys);
        if flipped !in data
           || Norm(Minus(data[flipped], Times(data[l], if Odd(yzs, l) then Neg(shift) else shift))) > 0.0 {
          assert !EntryMatches(axes, qubits, result, data, l);
          MismatchIsNotEigen(axes, qubits, result, data, l);
          if NoZeros(data) && Stored()
            == Scaled(if result then MINUS_ONE else ONE, PauliString(axes, qubits, Stored())) {
            EigenIsPaired(axes, qubits, result, data);
          }
          return false;
        }
        todo := todo - {l};
      }
      MatchesAreEigen(axes, qubits, result, data);
      return true;
    }

    /** The probability of the outcome 1: half of one minus the expectation, which the entries add up to. */
    method MeasurementProbability(axes: seq<Axis>, qubits: seq<nat>) returns (p: real)
      requires |axes| == |qubits|
      ensures p == 0.5 - 0.5 * LabelSum(data.Keys, Contribution(axes, qubits, Stored()))
    {
      hide WaveOf, LabelSum, Contribution, XYMask, YZMask, YCount, Odd, Times, Plus, Xor, Turned, Neg, Conj;
      var xys, yzs, ycount := Masks(axes, qubits);
      var shift := Turned(ONE, ycount);
      var projection := ZERO;
      var todo := data.Keys;
      ghost var f := Contribution(axes, qubits, Stored());
      NothingAdded(data, f);
      while todo != {}
        invariant todo <= data.Keys && projection.re == LabelSum(data.Keys - todo, f)
        decreases |todo|
      {
        var l :| l in todo;
        Added(data, f, todo, l);
        var flipped := Xor(l, xys);
        var other := if flipped in data then Conj(data[flipped]) else ZERO;
        ContributionComputed(axes, qubits, data, l);
        var term := Times(Times(data[l], other), if Odd(yzs, l) then Neg(shift) else shift);
        RealOfPlus(projection, term);
        projection := Plus(projection, term);
        todo := todo - {l};
      }
      assert data.Keys - {} == data.Keys;
      p := 0.5 - 0.5 * projection.re;
    }

    /**
     A joint measurement: 1 when the number drawn is at most the probability. What is left is the eigenspace
     of the outcome, so asserting the same outcome is accepted.
     */
    method Measure(axes: seq<Axis>, qubits: seq<nat>, sample: real, rsqrt: real -> real) returns (one: bool)
      requires |axes| == |qubits| && NoDuplicates(qubits) && forall i :: 0 <= i < |qubits| ==> qubits[i] < width
      requires Fits(data, width)
      modifies this
      ensures var p := 0.5 - 0.5 * LabelSum(old(data).Keys, Contribution(axes, qubits, old(Stored())));
        var k := rsqrt(if one then p else 1.0 - p);
        && (one <==> sample <= p)
        && Stored() == Combination(axes, qubits, Real(0.5 * k), Real(if one then -0.5 * k else 0.5 * k), old(Stored()))
        && (NoZeros(old(data)) && k != 0.0 ==> NoZeros(data))
      ensures !Trivial(axes) ==> Stored() == Scaled(if one then MINUS_ONE else ONE, PauliString(axes, qubits, Stored()))
    {
      hide WaveOf, Combined, NoZeros, XYMask, YZMask, Fits, Scaled, PauliString, NoDuplicates, Neg, LabelSum,
           Contribution;
      var p := MeasurementProbability(axes, qubits);
      one := sample <= p;
      var k := rsqrt(if one then p else 1.0 - p);
      NegatedReal(0.5 * k);
      ProjectedIsEigen(axes, qubits, Real(0.5 * k), one, Stored());
      PauliCombination(axes, qubits, Real(0.5 * k), Real(if one then -0.5 * k else 0.5 * k));
    }

    /** Compares one label with the base: false when the state is no product, and else its part of the two factors. */
    method CompareWithBase(mask: set<nat>, base: Label, l: Label, wfn1: Table, wfn2: Table, ghost done: set<Label>)
      returns (separable: bool, new1: Table, new2: Table, norm1: real, norm2: real)
      requires NoZeros(data) && base in data && l in data
      requires FirstFactor(data, mask, base, done, wfn1) && SecondFactor(data, mask, base, done, wfn2)
      ensures !separable ==> !Separable(data, mask)
      ensures separable ==> Crossed(data, mask, base, l)
      ensures separable ==> FirstFactor(data, mask, base, done + {l}, new1)
      ensures separable ==> SecondFactor(data, mask, base, done + {l}, new2)
      ensures norm1 == Total(new1) - Total(wfn1) >= 0.0 && norm2 == Total(new2) - Total(wfn2) >= 0.0
    {
      hide NoZeros, Times, Over, Crossed, FirstFactor, SecondFactor, Separable, Norm, Blend, Total;
      new1, new2, norm1, norm2 := wfn1, wfn2, 0.0, 0.0;
      var first, second := Blend(l, base, mask), Blend(base, l, mask);
      if Separable(data, mask) {
        ProductIsCrossed(data, mask, base, l);
      }
      CrossedIs(data, mask, base, l);
      if first !in data || second !in data {
        return false, new1, new2, norm1, norm2;
      }
      NormPositive(Minus(Times(data[first], data[second]), Times(data[base], data[l])));
      if Norm(Minus(Times(data[first], data[second]), Times(data[base], data[l]))) > 0.0 {
        return false, new1, new2, norm1, norm2;
      }
      FirstFactorStep(data, mask, base, done, wfn1, l);
      SecondFactorStep(data, mask, base, done, wfn2, l);
      QuotientsNonzero(data, l, first, second);
      if l * mask !in wfn1 {
        var amp1 := Over(data[l], data[second]);
        norm1 := Norm(amp1);
        if Norm(amp1) > 0.0 {
          TotalMore(wfn1, l * mask, amp1);
          new1 := wfn1[l * mask := amp1];
        }
      }
      if l - mask !in wfn2 {
        var amp2 := Over(data[l], data[first]);
        norm2 := Norm(amp2);
        if Norm(amp2) > 0.0 {
          TotalMore(wfn2, l - mask, amp2);
          new2 := wfn2[l - mask := amp2];
        }
      }
      separable := true;
    }

    /**
     Splits the state into a state of the masked qubits and one of the others; this is possible exactly
     when it is a product. Both are divided by the root of their weight.
     */
    method SplitWavefunction(mask: set<nat>, rsqrt: real -> real) returns (r: SplitResult)
      requires NoZeros(data) && IsReciprocalRoot(rsqrt)
      ensures r.NoState? <==> data == map[]
      ensures r.Factors? <==> data != map[] && Separable(data, mask)
      ensures r.Factors? ==> PartsOf(r.first.Keys, r.second.Keys, mask)
      ensures r.Factors? ==> exists c :: c != ZERO && ProductOf(data, mask, c, WaveOf(r.first), WaveOf(r.second))
      ensures r.Factors? ==> Total(r.first) == 1.0 == Total(r.second)
    {
      hide NoZeros, Times, Over, Crossed, FirstFactor, SecondFactor, Separable, ProductOf, WaveOf, Norm, Blend, PartsOf,
           Total, IsReciprocalRoot, ComparedBut;
      if data == map[] {
        return NoState;
      }
      var base :| base in data;
      var wfn1: Table, wfn2: Table := map[base * mask := ONE], map[base - mask := ONE];
      var states, norm1, norm2 := 1, 1.0, 1.0;
      var todo := data.Keys - {base};
      ComparedButOthers(data, mask, base);
      TotalOne(base * mask, ONE);
      TotalOne(base - mask, ONE);
      UnitNorms();
      while todo != {}
        invariant states + |todo| == |data| && ComparedBut(data, mask, base, todo, wfn1, wfn2)
        invariant norm1 == Total(wfn1) >= 1.0 && norm2 == Total(wfn2) >= 1.0
        decreases |todo|
      {
        var l :| l in todo;
        ComparedIs(data, mask, base, todo, wfn1, wfn2);
        var separable, new1, new2, more1, more2 := CompareWithBase(mask, base, l, wfn1, wfn2, data.Keys - todo);
        if !separable {
          return Entangled;
        }
        ComparedOneMore(data, mask, base, todo, wfn1, wfn2, l, new1, new2);
        states, wfn1, wfn2 := states + 1, new1, new2;
        norm1, norm2 := norm1 + more1, norm2 + more2;
        todo := todo - {l};
      }
      ComparedIs(data, mask, base, {}, wfn1, wfn2);
      assert data.Keys - {} == data.Keys;
      SizesDecide(data, mask, base, wfn1, wfn2);
      if states != |wfn1| * |wfn2| {
        return Entangled;
      }
      NonzeroAt(data, base);
      FactorParts(data, mask, base, wfn1, wfn2);
      var n1, n2 := NormalizeFactors(mask, data[base], wfn1, wfn2, norm1, norm2, rsqrt);
      r := Factors(n1, n2);
    }

    /** The two factors, each divided by the root of its weight. */
    method NormalizeFactors(ghost mask: set<nat>, ghost c: Complex, wfn1: Table, wfn2: Table, norm1: real, norm2: real,
                            rsqrt: real -> real)
      returns (n1: Table, n2: Table)
      requires ProductOf(data, mask, c, WaveOf(wfn1), WaveOf(wfn2)) && c != ZERO && IsReciprocalRoot(rsqrt)
      requires norm1 == Total(wfn1) >= 1.0 && norm2 == Total(wfn2) >= 1.0
      ensures n1.Keys == wfn1.Keys && n2.Keys == wfn2.Keys && Total(n1) == 1.0 == Total(n2)
      ensures exists d :: d != ZERO && ProductOf(data, mask, d, WaveOf(n1), WaveOf(n2))
    {
      hide Times, ProductOf, WaveOf, Norm, Total, IsReciprocalRoot;
      var k1, k2 := Real(rsqrt(norm1)), Real(rsqrt(norm2));
      n1 := Normalize(wfn1, k1);
      n2 := Normalize(wfn2, k2);
      TotalNormalized(wfn1, rsqrt, n1);
      TotalNormalized(wfn2, rsqrt, n2);
      NormalizedProduct(data, mask, c, wfn1, wfn2, k1, k2, n1, n2);
    }
  }

  /** `n` holds the visited entries whose bit `t` is `one`, with the bit cleared. */
  ghost predicate Cleared(m: Table, todo: set<Label>, t: nat, one: bool, n: Table) {
    forall x: Label ::
      var from := if one then x + {t} else x;
      (x in n <==> t !in x && from in m && from !in todo) && (x in n ==> n[x] == m[from])
  }

  /** All labels but those at `todo` have been compared with the base, and their parts are in the factors. */
  ghost predicate ComparedBut(data: Table, mask: set<nat>, base: Label, todo: set<Label>, w1: Table, w2: Table)
    requires base in data
  {
    && todo <= data.Keys
    && (forall l :: l in data.Keys - todo ==> Crossed(data, mask, base, l))
    && FirstFactor(data, mask, base, data.Keys - todo, w1)
    && SecondFactor(data, mask, base, data.Keys - todo, w2)
  }

  lemma ComparedButOthers(data: Table, mask: set<nat>, base: Label)
    requires base in data
    ensures ComparedBut(data, mask, base, data.Keys - {base}, map[base * mask := ONE], map[base - mask := ONE])
  {
    hide Crossed, FirstFactor, SecondFactor;
    FactorsStart(data, mask, base);
    assert data.Keys - (data.Keys - {base}) == {base};
  }

  lemma ComparedIs(data: Table, mask: set<nat>, base: Label, todo: set<Label>, w1: Table, w2: Table)
    requires base in data && ComparedBut(data, mask, base, todo, w1, w2)
    ensures todo <= data.Keys
    ensures forall l :: l in data.Keys - todo ==> Crossed(data, mask, base, l)
    ensures FirstFactor(data, mask, base, data.Keys - todo, w1)
    ensures SecondFactor(data, mask, base, data.Keys - todo, w2)
  {
    hide Crossed, FirstFactor, SecondFactor;
  }

  lemma ComparedOneMore(data: Table, mask: set<nat>, base: Label, todo: set<Label>, w1: Table, w2: Table,
                        l: Label, new1: Table, new2: Table)
    requires base in data && ComparedBut(data, mask, base, todo, w1, w2) && l in todo
    requires l in data && Crossed(data, mask, base, l)
    requires FirstFactor(data, mask, base, data.Keys - todo + {l}, new1)
    requires SecondFactor(data, mask, base, data.Keys - todo + {l}, new2)
    ensures ComparedBut(data, mask, base, todo - {l}, new1, new2)
  {
    hide Crossed, FirstFactor, SecondFactor;
    assert data.Keys - todo + {l} == data.Keys - (todo - {l});
  }

  lemma NothingVisited(m: Table, t: nat, f: Label -> real)
    ensures LabelSum(Part(m, t, true) - m.Keys, f) == 0.0 && LabelSum(Part(m, t, false) - m.Keys, f) == 0.0
  {
    assert Part(m, t, true) - m.Keys == {} && Part(m, t, false) - m.Keys == {};
  }

  /** One more entry joins the part it belongs to. */
  lemma Visited(m: Table, t: nat, f: Label -> real, todo: set<Label>, l: Label)
    requires l in todo && todo <= m.Keys
    ensures var (a, b) := (Part(m, t, t in l), Part(m, t, t !in l));
      && LabelSum(a - (todo - {l}), f) == LabelSum(a - todo, f) + f(l)
      && LabelSum(b - (todo - {l}), f) == LabelSum(b - todo, f)
  {
    hide LabelSum;
    var a, b := Part(m, t, t in l), Part(m, t, t !in l);
    assert a - (todo - {l}) == (a - todo) + {l} && b - (todo - {l}) == b - todo;
    SumPick(a - (todo - {l}), f, l);
    assert a - (todo - {l}) - {l} == a - todo;
  }

  lemma NoneKept(m: Table, t: nat, one: bool, kept: Table)
    requires Part(m, t, one) == {} && forall l :: l in kept ==> l in m && (t in l <==> one)
    ensures kept == map[]
  {
    forall l ensures l !in kept {
      assert l in kept ==> l in Part(m, t, one);
    }
  }

  lemma NormsAt(m: Table, l: Label)
    requires l in m
    ensures Norms(WaveOf(m))(l) == Norm(m[l])
  {
  }

  lemma NothingAdded(m: Table, f: Label -> real)
    ensures LabelSum(m.Keys - m.Keys, f) == 0.0
  {
    assert m.Keys - m.Keys == {};
  }

  lemma Added(m: Table, f: Label -> real, todo: set<Label>, l: Label)
    requires l in todo && todo <= m.Keys
    ensures LabelSum(m.Keys - (todo - {l}), f) == LabelSum(m.Keys - todo, f) + f(l)
  {
    hide LabelSum;
    SumPick(m.Keys - (todo - {l}), f, l);
    assert m.Keys - (todo - {l}) - {l} == m.Keys - todo;
  }

  /** The term the kernel adds for an entry has the entry's contribution as its real part. */
  lemma ContributionComputed(axes: seq<Axis>, qs: seq<nat>, m: Table, l: Label)
    requires |axes| == |qs| && l in m
    ensures var flipped, shift := Xor(l, XYMask(axes, qs)), Turned(ONE, YCount(axes));
      var other := if flipped in m then Conj(m[flipped]) else ZERO;
      Times(Times(m[l], other), if Odd(YZMask(axes, qs), l) then Neg(shift) else shift).re
      == Contribution(axes, qs, WaveOf(m))(l)
  {
    hide Times, XYMask, YZMask, YCount, Odd, Xor, Neg, Turned, Dot, IPow;
    var flipped, shift := Xor(l, XYMask(axes, qs)), Turned(ONE, YCount(axes));
    var sign := if Odd(YZMask(axes, qs), l) then Neg(shift) else shift;
    TurnedIsPower(ONE, YCount(axes));
    TimesUnit(IPow(YCount(axes)));
    SignedPower(IPow(YCount(axes)), Odd(YZMask(axes, qs), l));
    assert sign == Factor(axes, qs, l);
    var w := WaveOf(m);
    ProductDot(m[l], w[flipped], sign);
    ConjOfZero();
  }

  lemma ConjOfZero()
    ensures Conj(ZERO) == ZERO
  {
  }

  lemma SignedPower(i: Complex, odd: bool)
    ensures Times(i, if odd then MINUS_ONE else ONE) == if odd then Neg(i) else i
  {
  }

  lemma ProductDot(a: Complex, b: Complex, c: Complex)
    ensures Times(Times(a, Conj(b)), c).re == Dot(b, Times(c, a))
  {
    hide Times, Conj, Dot;
    DotInner(b, Times(c, a));
    TimesComm(c, a);
    TimesComm(Conj(b), Times(a, c));
    TimesAssoc(a, c, Conj(b));
    TimesComm(c, Conj(b));
    TimesAssoc(a, Conj(b), c);
  }

  lemma RealOfPlus(a: Complex, b: Complex)
    ensures Plus(a, b).re == a.re + b.re
  {
  }

  lemma NonzeroAt(m: Table, l: Label)
    requires NoZeros(m) && l in m
    ensures m[l] != ZERO
  {
  }

  lemma CrossedIs(data: Table, mask: set<nat>, base: Label, l: Label)
    requires base in data && l in data
    ensures Crossed(data, mask, base, l) <==>
      && Blend(l, base, mask) in data && Blend(base, l, mask) in data
      && Minus(Times(data[Blend(l, base, mask)], data[Blend(base, l, mask)]), Times(data[base], data[l])) == ZERO
  {
    hide Times;
  }

  lemma QuotientsNonzero(data: Table, l: Label, first: Label, second: Label)
    requires NoZeros(data) && l in data && first in data && second in data
    ensures data[first] != ZERO && data[second] != ZERO
    ensures Norm(Over(data[l], data[first])) > 0.0 && Norm(Over(data[l], data[second])) > 0.0
  {
    hide Times, Over, Norm;
    NormPositive(Over(data[l], data[first]));
    NormPositive(Over(data[l], data[second]));
    OverTimes(data[l], data[first]);
    OverTimes(data[l], data[second]);
    TimesZero(ZERO, data[first]);
    TimesZero(ZERO, data[second]);
  }

  lemma FactorParts(data: Table, mask: set<nat>, base: Label, w1: Table, w2: Table)
    requires base in data && FirstFactor(data, mask, base, data.Keys, w1)
    requires SecondFactor(data, mask, base, data.Keys, w2)
    ensures PartsOf(w1.Keys, w2.Keys, mask)
  {
    hide Times;
  }

  predicate ScaledEntries(m: Table, k: Complex, n: Table) {
    n.Keys == m.Keys && forall l :: l in n ==> n[l] == Times(m[l], k)
  }

  /** Normalising the factors only changes the scalar. */
  lemma NormalizedProduct(data: Table, mask: set<nat>, c: Complex, w1: Table, w2: Table, k1: Complex, k2: Complex,
                          n1: Table, n2: Table)
    requires ProductOf(data, mask, c, WaveOf(w1), WaveOf(w2)) && c != ZERO && k1 != ZERO && k2 != ZERO
    requires ScaledEntries(w1, k1, n1) && ScaledEntries(w2, k2, n2)
    ensures exists d :: d != ZERO && ProductOf(data, mask, d, WaveOf(n1), WaveOf(n2))
  {
    hide Times, Over;
    var k := Times(k1, k2);
    TimesZero(k1, k2);
    var d := Over(c, k);
    OverTimes(c, k);
    TimesZero(ZERO, k);
    forall l: Label
      ensures AmplitudeOf(data, l) == Times(d, Times(AmplitudeOf(n1, l * mask), AmplitudeOf(n2, l - mask)))
    {
      ScaledAmplitude(w1, k1, n1, l * mask);
      ScaledAmplitude(w2, k2, n2, l - mask);
      Regroup(d, k1, k2, AmplitudeOf(w1, l * mask), AmplitudeOf(w2, l - mask));
    }
    assert ProductOf(data, mask, d, WaveOf(n1), WaveOf(n2));
  }

  lemma ScaledAmplitude(m: Table, k: Complex, n: Table, l: Label)
    requires ScaledEntries(m, k, n)
    ensures AmplitudeOf(n, l) == Times(k, AmplitudeOf(m, l))
  {
    hide Times;
    TimesZero(k, ZERO);
    TimesComm(k, AmplitudeOf(m, l));
  }

  lemma Regroup(d: Complex, k1: Complex, k2: Complex, u: Complex, v: Complex)
    ensures Times(d, Times(Times(k1, u), Times(k2, v))) == Times(Times(d, Times(k1, k2)), Times(u, v))
  {
    hide Times;
    CrossRegroup(k1, k2, u, v);
    TimesAssoc(d, Times(k1, k2), Times(u, v));
  }

  lemma CrossRegroup(k1: Complex, k2: Complex, u: Complex, v: Complex)
    ensures Times(Times(k1, u), Times(k2, v)) == Times(Times(k1, k2), Times(u, v))
  {
    hide Times;
    TimesAssoc(k1, u, Times(k2, v));
    Rotate(u, k2, v);
    TimesAssoc(k1, k2, Times(u, v));
  }

  lemma ClearedNone(m: Table, t: nat)
    ensures Cleared(m, m.Keys, t, true, map[]) && Cleared(m, m.Keys, t, false, map[])
  {
  }

  lemma ClearedStep(m: Table, todo: set<Label>, t: nat, one: bool, n: Table, l: Label)
    requires Cleared(m, todo, t, one, n) && l in todo && l in m
    ensures Cleared(m, todo - {l}, t, one, if t in l <==> one then Emplace(n, l - {t}, m[l]) else n)
  {
    var n' := if t in l <==> one then Emplace(n, l - {t}, m[l]) else n;
    forall x: Label
      ensures var from := if one then x + {t} else x;
        (x in n' <==> t !in x && from in m && from !in todo - {l}) && (x in n' ==> n'[x] == m[from])
    {
      var from := if one then x + {t} else x;
      if t !in x {
        assert from == l ==> x == l - {t} && (t in l <==> one);
        assert (t in l <==> one) && x == l - {t} ==> from == l;
      }
    }
  }

  lemma NoZerosNormalized(m: Table, k: Complex, n: Table)
    requires NoZeros(m) && k != ZERO && n.Keys == m.Keys && forall l :: l in n ==> n[l] == Times(m[l], k)
    ensures NoZeros(n)
  {
    hide Times;
    forall l | l in n ensures n[l] != ZERO {
      TimesZero(m[l], k);
    }
  }

  lemma ClearedAll(m: Table, t: nat, one: bool, n: Table)
    requires Cleared(m, {}, t, one, n)
    ensures forall l :: l in n <==> t !in l && (if one then l + {t} in m else l in m)
    ensures forall l :: l in n ==> n[l] == if one then m[l + {t}] else m[l]
  {
  }

  lemma HasStored(m: Table, t: nat)
    ensures forall one :: Has(WaveOf(m), t, one) <==> exists l :: l in m && m[l] != ZERO && (t in l <==> one)
  {
    forall one
      ensures Has(WaveOf(m), t, one) <==> exists l :: l in m && m[l] != ZERO && (t in l <==> one)
    {
      if Has(WaveOf(m), t, one) {
        var l: Label :| WaveOf(m)[l] != ZERO && (t in l <==> one);
        assert l in m && m[l] != ZERO;
      }
      if l: Label :| l in m && m[l] != ZERO && (t in l <==> one) {
        assert WaveOf(m)[l] != ZERO;
      }
    }
  }

  lemma KeptIsProjected(t: nat, one: bool, k: Complex, m: Table, n: Table)
    requires forall l :: l in n <==> l in m && (t in l <==> one)
    requires forall l :: l in n ==> n[l] == Times(m[l], k)
    ensures WaveOf(n) == On(ProjectMat(one, k), t, WaveOf(m))
  {
    hide On;
    forall l: Label ensures WaveOf(n)[l] == On(ProjectMat(one, k), t, WaveOf(m))[l] {
      ProjectedAt(t, one, k, WaveOf(m), l);
      if l in m { TimesCommutes(m[l], k); } else { ZeroLeft(k); }
    }
    SameWave(WaveOf(n), On(ProjectMat(one, k), t, WaveOf(m)));
  }

  lemma TimesCommutes(a: Complex, b: Complex)
    ensures Times(a, b) == Times(b, a)
  {
  }

  lemma ProjectedAt(t: nat, one: bool, k: Complex, w: Wave, l: Label)
    ensures On(ProjectMat(one, k), t, w)[l] == if t in l <==> one then Times(k, w[l]) else ZERO
  {
    hide Times, Plus;
    assert l == if t in l then l + {t} else l - {t};
    ZeroLeft(w[l - {t}]);
    ZeroLeft(w[l + {t}]);
    TimesUnit(Times(k, w[l]));
    TimesUnit(ZERO);
  }

  lemma KeptIsReset(t: nat, one: bool, k: Complex, m: Table, n: Table)
    requires forall l :: l in n <==> t !in l && (if one then l + {t} in m else l in m)
    requires forall l :: l in n ==> n[l] == Times(if one then m[l + {t}] else m[l], k)
    ensures WaveOf(n) == On(ResetMat(one, k), t, WaveOf(m))
  {
    hide On, Times;
    forall l: Label ensures WaveOf(n)[l] == On(ResetMat(one, k), t, WaveOf(m))[l] {
      ResetAt(t, one, k, WaveOf(m), l);
      ZeroLeft(k);
      if l in n { TimesCommutes(if one then m[l + {t}] else m[l], k); }
    }
    SameWave(WaveOf(n), On(ResetMat(one, k), t, WaveOf(m)));
  }

  /** The amplitude a reset leaves at a label. */
  ghost function ResetTo(t: nat, one: bool, k: Complex, w: Wave, l: Label): Complex {
    if t in l then ZERO else Times(k, if one then w[l + {t}] else w[l])
  }

  lemma ResetAt(t: nat, one: bool, k: Complex, w: Wave, l: Label)
    ensures On(ResetMat(one, k), t, w)[l] == ResetTo(t, one, k, w, l)
  {
    hide *;
    OnAt(ResetMat(one, k), t, w, l);
    ResetMixed(t, one, k, w, l);
  }

  lemma ResetMixed(t: nat, one: bool, k: Complex, w: Wave, l: Label)
    ensures Mixed(ResetMat(one, k), t, w, l) == ResetTo(t, one, k, w, l)
  {
    hide Times, Plus, Row0, Row1, ResetMat;
    var lo, hi, here := w[l - {t}], w[l + {t}], w[l];
    assert t !in l ==> lo == here by {
      if t !in l { WithoutAbsent(l, t); }
    }
    ResetCase(one, k, t in l, lo, hi, here);
  }

  lemma ResetCase(one: bool, k: Complex, isOne: bool, lo: Complex, hi: Complex, here: Complex)
    requires !isOne ==> lo == here
    ensures Plus(Times(Row0(ResetMat(one, k), isOne), lo), Times(Row1(ResetMat(one, k), isOne), hi))
      == if isOne then ZERO else Times(k, if one then hi else here)
  {
    hide *;
    ResetRows(one, k);
    ResetSum(Row0(ResetMat(one, k), isOne), Row1(ResetMat(one, k), isOne), lo, hi);
  }

  lemma WithoutAbsent(l: Label, t: nat)
    requires t !in l
    ensures l - {t} == l
  {
  }

  lemma ResetSum(a: Complex, b: Complex, lo: Complex, hi: Complex)
    ensures a == ZERO ==> Plus(Times(a, lo), Times(b, hi)) == Times(b, hi)
    ensures b == ZERO ==> Plus(Times(a, lo), Times(b, hi)) == Times(a, lo)
    ensures a == ZERO && b == ZERO ==> Times(b, hi) == ZERO
  {
    hide Times, Plus;
    ZeroLeft(lo);
    ZeroLeft(hi);
    TimesUnit(Times(a, lo));
    TimesUnit(Times(b, hi));
  }

  lemma ResetRows(one: bool, k: Complex)
    ensures var u := ResetMat(one, k);
      && Row0(u, true) == ZERO && Row1(u, true) == ZERO
      && Row0(u, false) == (if one then ZERO else k) && Row1(u, false) == (if one then k else ZERO)
  {
  }

  lemma RotationEntries(axisY: bool, a: Angle)
    ensures var m01 := Times(Complex(0.0, -a.s), if axisY then MINUS_IMAG else ONE);
      var m10 := Times(m01, if axisY then MINUS_ONE else ONE);
      && Mat(Real(a.c), m01, m10, Real(a.c)) == (if axisY then RyMat(a) else RxMat(a))
      && (m01 == ZERO <==> a.s == 0.0) && (m10 == ZERO <==> a.s == 0.0) && (Real(a.c) == ZERO <==> a.c == 0.0)
  {
    hide Times;
    if axisY {
      SineEntries(a.s);
    } else {
      TimesOne(Complex(0.0, -a.s));
    }
  }

  lemma SineEntries(s: real)
    ensures Times(Complex(0.0, -s), MINUS_IMAG) == Real(-s) && Times(Real(-s), MINUS_ONE) == Real(s)
  {
  }

  lemma TimesOne(z: Complex)
    ensures Times(z, ONE) == z
  {
  }

  lemma OneOperation(axisY: bool, q: nat, w: Wave)
    ensures RunQueue([if axisY then OpY(q) else OpX(q)], w) == On(if axisY then Y_MAT else X_MAT, q, w)
    ensures LegalQueue([if axisY then OpY(q) else OpX(q)])
  {
    hide On, Apply, RunQueue, AsOperator;
    RunPush([], if axisY then OpY(q) else OpX(q), w);
    EmptyQueue([], w);
    OpXIs(q, w);
    OpYIs(q, w);
    assert [] + [if axisY then OpY(q) else OpX(q)] == [if axisY then OpY(q) else OpX(q)];
  }

  lemma RUnmatched(m00: Complex, m01: Complex, m10: Complex, q: nat, old_: Table, done: set<Label>, new_: Table,
                   l: Label)
    requires var u := Mat(m00, m01, m10, m00); PairsBuilt({}, u, q, old_, done, new_) && l in old_ && l !in done
    requires Flip(l, q) !in old_ && m00 != ZERO && m01 != ZERO && m10 != ZERO
    ensures PairsBuilt({}, Mat(m00, m01, m10, m00), q, old_, done + {l},
              if q in l
              then Emplace(Emplace(new_, Flip(l, q), Times(old_[l], m01)), l, Times(old_[l], m00))
              else Emplace(Emplace(new_, l, Times(old_[l], m00)), Flip(l, q), Times(old_[l], m10)))
  {
    hide PairsBuilt, Times, Plus;
    TimesComm(old_[l], m00);
    TimesComm(old_[l], m01);
    TimesComm(old_[l], m10);
    assert if q in l then l == l + {q} && Flip(l, q) == l - {q} else l == l - {q} && Flip(l, q) == l + {q};
    UnmatchedStep({}, Mat(m00, m01, m10, m00), q, old_, done, new_, l,
                  Times(old_[l], if q in l then m01 else m00), Times(old_[l], if q in l then m00 else m10));
  }

  lemma RMatched(m00: Complex, m01: Complex, m10: Complex, q: nat, old_: Table, done: set<Label>, new_: Table, l: Label)
    requires var u := Mat(m00, m01, m10, m00); PairsBuilt({}, u, q, old_, done, new_) && l in old_ && l !in done
    requires Flip(l, q) in old_ && q !in l
    ensures var v0 := Plus(Times(old_[l], m00), Times(old_[Flip(l, q)], m01));
      var v1 := Plus(Times(old_[l], m10), Times(old_[Flip(l, q)], m00));
      PairsBuilt({}, Mat(m00, m01, m10, m00), q, old_, done + {l},
                 EmplaceNonZero(EmplaceNonZero(new_, l, v0), Flip(l, q), v1))
  {
    hide PairsBuilt, Times, Plus, Flip, EmplaceNonZero;
    var a, b := old_[l], old_[Flip(l, q)];
    TimesComm(a, m00);
    TimesComm(a, m10);
    TimesComm(b, m01);
    TimesComm(b, m00);
    MatchedStep({}, Mat(m00, m01, m10, m00), q, old_, done, new_, l,
                Plus(Times(a, m00), Times(b, m01)), Plus(Times(a, m10), Times(b, m00)));
  }

  lemma NegatedReal(x: real)
    ensures Neg(Real(x)) == Real(-x)
  {
  }

  lemma SumAndDifference(id: Complex, pauli: Complex)
    ensures Plus(pauli, id) == Plus(id, pauli) && Minus(Plus(id, id), Plus(pauli, id)) == Minus(id, pauli)
    ensures id != ZERO ==> Plus(id, pauli) != ZERO || Minus(id, pauli) != ZERO
  {
  }

  /** The entries visited, scaled by the coefficient of their parity; those scaled to zero may be left out. */
  ghost predicate DiagonalBuilt(m: Table, done: set<Label>, yzs: set<nat>, even: Complex, odd: Complex, n: Table) {
    && (forall l: Label :: l !in done ==> l !in n)
    && (forall l: Label :: l in done && l in m ==>
          AmplitudeOf(n, l) == Times(m[l], if Odd(yzs, l) then odd else even))
    && (NoZeros(m) && (even != ZERO || odd != ZERO) ==> NoZeros(n))
  }

  lemma DiagonalNone(m: Table, yzs: set<nat>, even: Complex, odd: Complex)
    ensures DiagonalBuilt(m, {}, yzs, even, odd, map[])
  {
  }

  lemma DiagonalStep(m: Table, done: set<Label>, yzs: set<nat>, even: Complex, odd: Complex, n: Table, l: Label)
    requires DiagonalBuilt(m, done, yzs, even, odd, n) && l in m && l !in done
    ensures var c := if Odd(yzs, l) then odd else even;
      (c == ZERO ==> DiagonalBuilt(m, done + {l}, yzs, even, odd, n))
      && l !in n
      && (c != ZERO || even == odd ==> DiagonalBuilt(m, done + {l}, yzs, even, odd, n[l := Times(m[l], c)]))
  {
    hide Times, Odd;
    var c := if Odd(yzs, l) then odd else even;
    TimesZero(m[l], c);
  }

  lemma DiagonalAll(axes: seq<Axis>, qs: seq<nat>, id: Complex, pauli: Complex, m: Table, n: Table)
    requires |axes| == |qs| && NoDuplicates(qs) && XYMask(axes, qs) == {}
    requires DiagonalBuilt(m, m.Keys, YZMask(axes, qs), Plus(id, pauli), Minus(id, pauli), n)
    ensures WaveOf(n) == Combined(axes, qs, id, pauli, WaveOf(m))
    ensures NoZeros(m) && (Plus(id, pauli) != ZERO || Minus(id, pauli) != ZERO) ==> NoZeros(n)
  {
    hide Times, Plus, Minus, Odd, Combined, XYMask, YZMask;
    forall l: Label ensures WaveOf(n)[l] == Combined(axes, qs, id, pauli, WaveOf(m))[l] {
      DiagonalCombined(axes, qs, id, pauli, WaveOf(m), l);
      ZeroLeft(if Odd(YZMask(axes, qs), l) then Minus(id, pauli) else Plus(id, pauli));
    }
    SameWave(WaveOf(n), Combined(axes, qs, id, pauli, WaveOf(m)));
  }

  lemma ComboNone(axes: seq<Axis>, qs: seq<nat>, id: Complex, pauli: Complex, width: nat, m: Table)
    requires |axes| == |qs|
    ensures ComboBuilt(axes, qs, id, pauli, width, m, {}, map[])
  {
    hide Decider, XYMask, Combined;
  }

  /** The larger label of a stored pair is passed over. */
  lemma ComboPass(axes: seq<Axis>, qs: seq<nat>, id: Complex, pauli: Complex, width: nat,
                  m: Table, done: set<Label>, n: Table, l: Label)
    requires |axes| == |qs| && ComboBuilt(axes, qs, id, pauli, width, m, done, n)
    requires XYMask(axes, qs) != {} && l in m && Xor(l, XYMask(axes, qs)) in m
    requires FitsIn(l, width) && FitsIn(Xor(l, XYMask(axes, qs)), width)
    requires !(Bits(l, 0, width) < Bits(Xor(l, XYMask(axes, qs)), 0, width))
    ensures ComboBuilt(axes, qs, id, pauli, width, m, done + {l}, n)
  {
    hide ComboBuilt, XYMask, Xor, FitsIn, Bits;
    XorTwice(l, XYMask(axes, qs));
    ComboSkip(axes, qs, id, pauli, width, m, done, n, l);
  }

  lemma FlipFits(axes: seq<Axis>, qs: seq<nat>, l: Label, width: nat)
    requires |axes| == |qs| && FitsIn(l, width) && forall i :: 0 <= i < |qs| ==> qs[i] < width
    ensures FitsIn(Xor(l, XYMask(axes, qs)), width)
  {
    MasksWithin(axes, qs);
  }

  lemma PairsNone(cs: set<nat>, u: Mat, q: nat, m: Table)
    ensures PairsBuilt(cs, u, q, m, {}, map[])
  {
  }

  lemma HUnmatched(cs: set<nat>, r: real, q: nat, old_: Table, done: set<Label>, new_: Table, l: Label)
    requires q !in cs && PairsBuilt(cs, HMat(r), q, old_, done, new_) && l in old_ && l !in done && cs <= l
    requires Flip(l, q) !in old_ && r != 0.0
    ensures PairsBuilt(cs, HMat(r), q, old_, done + {l},
              Emplace(Emplace(new_, l - {q}, Times(old_[l], Real(r))),
                      l + {q}, Times(old_[l], if q in l then Real(-r) else Real(r))))
  {
    hide PairsBuilt, Times, Plus, Flip;
    TimesComm(old_[l], Real(r));
    TimesComm(old_[l], Real(-r));
    UnmatchedStep(cs, HMat(r), q, old_, done, new_, l,
                  Times(old_[l], Real(r)), Times(old_[l], if q in l then Real(-r) else Real(r)));
  }

  lemma HMatched(cs: set<nat>, r: real, q: nat, old_: Table, done: set<Label>, new_: Table, l: Label)
    requires q !in cs && PairsBuilt(cs, HMat(r), q, old_, done, new_) && l in old_ && l !in done && cs <= l
    requires Flip(l, q) in old_ && q !in l && r != 0.0
    ensures var sum, difference := Plus(old_[l], old_[Flip(l, q)]), Minus(old_[l], old_[Flip(l, q)]);
      var m := if Norm(sum) > 0.0 then Emplace(new_, l, Times(sum, Real(r))) else new_;
      var n := if Norm(difference) > 0.0 then Emplace(m, Flip(l, q), Times(difference, Real(r))) else m;
      PairsBuilt(cs, HMat(r), q, old_, done + {l}, n)
  {
    hide PairsBuilt, Times, Plus, Minus, Norm, Flip;
    var a, b := old_[l], old_[Flip(l, q)];
    HValues(r, a, b);
    MatchedStep(cs, HMat(r), q, old_, done, new_, l, Times(Plus(a, b), Real(r)), Times(Minus(a, b), Real(r)));
  }
}
