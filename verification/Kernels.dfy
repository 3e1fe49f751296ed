/** What the hash-map kernels of the sparse state compute, entry by entry, and why that is the operator. */
module Kernels {
  import opened Amplitudes
  import opened Operators
  import opened Gates
  import opened LazyQueue

  /** The stored entries; a label that is absent has amplitude zero. */
  type Table = map<Label, Complex>

  function AmplitudeOf(m: Table, l: Label): Complex { if l in m then m[l] else ZERO }

  ghost function WaveOf(m: Table): Wave { imap l: Label | true :: AmplitudeOf(m, l) }

  ghost predicate NoZeros(m: Table) { forall l :: l in m ==> m[l] != ZERO }

  /** `emplace`: an entry that is already present stays. */
  function Emplace(m: Table, l: Label, v: Complex): Table { if l in m then m else m[l := v] }

  // ---------------------------------------------------------------- phase and permutation operations

  /** An operation never controls on a qubit it moves. */
  predicate LegalOperation(op: Operation) {
    match op
    case OpMCX(cs, t) => t !in cs
    case OpMCY(cs, t) => t !in cs
    case OpMCSwap(cs, a, b) => a !in cs && b !in cs
    case _ => true
  }

  predicate LegalQueue(ops: seq<Operation>) { forall i :: 0 <= i < |ops| ==> LegalOperation(ops[i]) }

  function NextLabel(op: Operation, l: Label): Label {
    match op
    case OpX(t) => Flip(l, t)
    case OpY(t) => Flip(l, t)
    case OpMCX(cs, t) => if cs <= l then Flip(l, t) else l
    case OpMCY(cs, t) => if cs <= l then Flip(l, t) else l
    case OpSwap(a, b) => if (a in l) != (b in l) then Flip(Flip(l, a), b) else l
    case OpMCSwap(cs, a, b) => if cs <= l && (a in l) != (b in l) then Flip(Flip(l, a), b) else l
    case _ => l
  }

  function NextFactor(op: Operation, l: Label): Complex {
    match op
    case OpY(t) => if t in Flip(l, t) then IMAG else MINUS_IMAG
    case OpMCY(cs, t) => if cs <= l then (if t in Flip(l, t) then IMAG else MINUS_IMAG) else ONE
    case OpZ(t) => if t in l then MINUS_ONE else ONE
    case OpMCZ(cs, t) => if cs + {t} <= l then MINUS_ONE else ONE
    case OpPhase(t, p) => if t in l then p else ONE
    case OpMCPhase(cs, t, p) => if cs + {t} <= l then p else ONE
    case _ => ONE
  }

  function RunLabel(ops: seq<Operation>, l: Label): Label {
    if ops == [] then l else NextLabel(ops[|ops| - 1], RunLabel(ops[..|ops| - 1], l))
  }

  function RunValue(ops: seq<Operation>, l: Label, v: Complex): Complex {
    if ops == [] then v
    else Times(RunValue(ops[..|ops| - 1], l, v), NextFactor(ops[|ops| - 1], RunLabel(ops[..|ops| - 1], l)))
  }

  lemma FlipFlip(l: Label, q: nat)
    ensures Flip(Flip(l, q), q) == l
  {
  }

  lemma ExchangedTwice(cs: set<nat>, a: nat, b: nat, l: Label)
    requires a !in cs && b !in cs
    ensures Exchanged(cs, a, b, Exchanged(cs, a, b, l)) == l
  {
    if cs <= l && (a in l) != (b in l) {
      var m := Flip(Flip(l, a), b);
      assert cs <= m && (a in m) != (b in m);
      assert Flip(Flip(m, a), b) == l;
    }
  }

  /** Every operation moves labels by an involution. */
  lemma NextLabelTwice(op: Operation, l: Label)
    requires LegalOperation(op)
    ensures NextLabel(op, NextLabel(op, l)) == l
  {
    hide Flip;
    match op
    case OpX(t) => FlipFlip(l, t);
    case OpY(t) => FlipFlip(l, t);
    case OpMCX(cs, t) => FlipFlip(l, t); FlipControls(cs, l, t);
    case OpMCY(cs, t) => FlipFlip(l, t); FlipControls(cs, l, t);
    case OpSwap(a, b) => ExchangedTwice({}, a, b, l);
    case OpMCSwap(cs, a, b) => ExchangedTwice(cs, a, b, l);
    case _ =>
  }

  lemma FlipControls(cs: set<nat>, l: Label, t: nat)
    requires t !in cs
    ensures cs <= Flip(l, t) <==> cs <= l
  {
  }

  /** The operator of an operation is its label map with its factor. */
  lemma OperationAt(op: Operation, w: Wave, l: Label)
    requires LegalOperation(op)
    ensures Apply(AsOperator(op), w)[NextLabel(op, l)] == Times(w[l], NextFactor(op, l))
  {
    hide Times, Plus;
    TimesComm(w[l], NextFactor(op, l));
    TimesUnit(w[l]);
    match op
    case OpX(t) => FlippedAt(false, t, w, l);
    case OpY(t) => FlippedAt(true, t, w, l);
    case OpMCX(cs, t) =>
      FlipControls(cs, l, t);
      if cs <= l { FlippedAt(false, t, w, l); }
    case OpMCY(cs, t) =>
      FlipControls(cs, l, t);
      if cs <= l { FlippedAt(true, t, w, l); }
    case OpSwap(a, b) => ExchangedTwice({}, a, b, l);
    case OpMCSwap(cs, a, b) => ExchangedTwice(cs, a, b, l);
    case OpZ(t) =>
    case OpMCZ(cs, t) =>
    case OpPhase(t, p) =>
    case OpMCPhase(cs, t, p) =>
  }

  lemma FlippedAt(isY: bool, t: nat, w: Wave, l: Label)
    ensures Mixed(if isY then Y_MAT else X_MAT, t, w, Flip(l, t))
         == Times(if !isY then ONE else if t in Flip(l, t) then IMAG else MINUS_IMAG, w[l])
  {
    hide Times, Plus;
    var m := Flip(l, t);
    assert if t in m then m - {t} == l else m + {t} == l;
    TimesUnit(w[m - {t}]);
    TimesUnit(w[m + {t}]);
    TimesUnit(Times(IMAG, w[l]));
    TimesUnit(Times(MINUS_IMAG, w[l]));
  }

  lemma RunAt(ops: seq<Operation>, w: Wave, l: Label)
    requires LegalQueue(ops)
    ensures RunQueue(ops, w)[RunLabel(ops, l)] == RunValue(ops, l, w[l])
  {
    hide Apply, NextLabel, NextFactor, AsOperator, Times, LegalOperation;
    if ops != [] {
      var n := |ops| - 1;
      RunAt(ops[..n], w, l);
      OperationAt(ops[n], RunQueue(ops[..n], w), RunLabel(ops[..n], l));
    }
  }

  /** The label from which the queue comes to `l`. */
  function Origin(ops: seq<Operation>, l: Label): Label {
    if ops == [] then l else Origin(ops[..|ops| - 1], NextLabel(ops[|ops| - 1], l))
  }

  /** The composed label map is a bijection. */
  lemma OriginInverts(ops: seq<Operation>, l: Label)
    requires LegalQueue(ops)
    ensures RunLabel(ops, Origin(ops, l)) == l && Origin(ops, RunLabel(ops, l)) == l
  {
    hide NextLabel, LegalOperation;
    if ops != [] {
      var n := |ops| - 1;
      OriginInverts(ops[..n], NextLabel(ops[n], l));
      OriginInverts(ops[..n], l);
      NextLabelTwice(ops[n], l);
      NextLabelTwice(ops[n], RunLabel(ops[..n], l));
    }
  }

  lemma RunValueZero(ops: seq<Operation>, l: Label)
    ensures RunValue(ops, l, ZERO) == ZERO
  {
    if ops != [] {
      RunValueZero(ops[..|ops| - 1], l);
      TimesComm(ZERO, NextFactor(ops[|ops| - 1], RunLabel(ops[..|ops| - 1], l)));
      ZeroLeft(NextFactor(ops[|ops| - 1], RunLabel(ops[..|ops| - 1], l)));
    }
  }

  lemma ZeroLeft(z: Complex)
    ensures Times(ZERO, z) == ZERO && Times(z, ZERO) == ZERO
  {
  }

  /** The images of the entries in `done` make up the new table, none lost. */
  ghost predicate Permuted(ops: seq<Operation>, old_: Table, done: set<Label>, new_: Table) {
    && done <= old_.Keys
    && (forall l {:trigger RunLabel(ops, l)} :: l in done ==> RunLabel(ops, l) in new_)
    && (forall m :: m in new_ ==>
         Origin(ops, m) in done && new_[m] == RunValue(ops, Origin(ops, m), old_[Origin(ops, m)]))
  }

  lemma PermutedStep(ops: seq<Operation>, old_: Table, done: set<Label>, new_: Table, l: Label, next: Table)
    requires LegalQueue(ops) && Permuted(ops, old_, done, new_) && l in old_ && l !in done
    requires next == new_[RunLabel(ops, l) := RunValue(ops, l, old_[l])]
    ensures RunLabel(ops, l) !in new_
    ensures Permuted(ops, old_, done + {l}, next)
  {
    hide RunLabel, RunValue, Origin, LegalQueue, Permuted;
    OriginInverts(ops, l);
    NotYet(ops, old_, done, new_, l);
    OneMore(ops, old_, done, new_, l, next);
  }

  lemma NotYet(ops: seq<Operation>, old_: Table, done: set<Label>, new_: Table, l: Label)
    requires Permuted(ops, old_, done, new_) && l !in done && Origin(ops, RunLabel(ops, l)) == l
    ensures RunLabel(ops, l) !in new_
  {
    hide RunLabel, RunValue, Origin;
  }

  lemma OneMore(ops: seq<Operation>, old_: Table, done: set<Label>, new_: Table, l: Label, next: Table)
    requires Permuted(ops, old_, done, new_) && l in old_ && Origin(ops, RunLabel(ops, l)) == l
    requires next == new_[RunLabel(ops, l) := RunValue(ops, l, old_[l])]
    ensures Permuted(ops, old_, done + {l}, next)
  {
    hide RunLabel, RunValue, Origin;
  }

  lemma PermutedAll(ops: seq<Operation>, old_: Table, new_: Table)
    requires LegalQueue(ops) && Permuted(ops, old_, old_.Keys, new_)
    ensures WaveOf(new_) == RunQueue(ops, WaveOf(old_))
  {
    hide RunLabel, RunValue, Origin, LegalQueue, RunQueue;
    forall m: Label ensures WaveOf(new_)[m] == RunQueue(ops, WaveOf(old_))[m] {
      var l := Origin(ops, m);
      OriginInverts(ops, m);
      RunAt(ops, WaveOf(old_), l);
      if m !in new_ {
        assert l !in old_;
        RunValueZero(ops, l);
      }
    }
    SameWave(WaveOf(new_), RunQueue(ops, WaveOf(old_)));
  }

  /** No queued phase is zero. */
  predicate NonzeroQueue(ops: seq<Operation>) { forall i :: 0 <= i < |ops| ==> NonzeroOperation(ops[i]) }

  predicate NonzeroOperation(op: Operation) { op.OpPhase? || op.OpMCPhase? ==> op.phase != ZERO }

  lemma FactorNotZero(op: Operation, l: Label)
    requires NonzeroOperation(op)
    ensures NextFactor(op, l) != ZERO
  {
  }

  lemma {:induction false} RunValueNonzero(ops: seq<Operation>, l: Label, v: Complex)
    requires NonzeroQueue(ops) && v != ZERO
    ensures RunValue(ops, l, v) != ZERO
  {
    hide Times, NextFactor, NonzeroOperation, RunLabel;
    if ops != [] {
      var n := |ops| - 1;
      RunValueNonzero(ops[..n], l, v);
      FactorNotZero(ops[n], RunLabel(ops[..n], l));
      TimesZero(RunValue(ops[..n], l, v), NextFactor(ops[n], RunLabel(ops[..n], l)));
    }
  }

  /** All entries but those at `todo` have been carried, each to a label of its own. */
  ghost predicate PermutedBut(ops: seq<Operation>, old_: Table, todo: set<Label>, new_: Table) {
    todo <= old_.Keys && Permuted(ops, old_, old_.Keys - todo, new_) && |new_| + |todo| == |old_|
  }

  lemma PermutedButAll(ops: seq<Operation>, old_: Table)
    ensures PermutedBut(ops, old_, old_.Keys, map[])
  {
    hide RunLabel, RunValue, Origin;
    assert old_.Keys - old_.Keys == {};
  }

  lemma StillThere(ops: seq<Operation>, old_: Table, todo: set<Label>, new_: Table, l: Label)
    requires PermutedBut(ops, old_, todo, new_) && l in todo
    ensures l in old_
  {
    hide Permuted;
  }

  lemma PermutedButStep(ops: seq<Operation>, old_: Table, todo: set<Label>, new_: Table, l: Label)
    requires LegalQueue(ops) && PermutedBut(ops, old_, todo, new_) && l in todo && l in old_
    ensures PermutedBut(ops, old_, todo - {l}, Emplace(new_, RunLabel(ops, l), RunValue(ops, l, old_[l])))
  {
    hide Permuted, RunLabel, RunValue, LegalQueue;
    PermutedStep(ops, old_, old_.Keys - todo, new_, l, new_[RunLabel(ops, l) := RunValue(ops, l, old_[l])]);
    assert old_.Keys - todo + {l} == old_.Keys - (todo - {l});
  }

  lemma PermutedButNone(ops: seq<Operation>, old_: Table, new_: Table)
    requires PermutedBut(ops, old_, {}, new_)
    ensures Permuted(ops, old_, old_.Keys, new_) && |new_| == |old_|
  {
    hide Permuted;
    assert old_.Keys - {} == old_.Keys;
  }

  lemma PermutedNonzero(ops: seq<Operation>, old_: Table, new_: Table)
    requires Permuted(ops, old_, old_.Keys, new_) && NoZeros(old_) && NonzeroQueue(ops)
    ensures NoZeros(new_)
  {
    hide RunValue, Origin, NonzeroQueue, RunLabel;
    forall m | m in new_ ensures new_[m] != ZERO {
      RunValueNonzero(ops, Origin(ops, m), old_[Origin(ops, m)]);
    }
  }

  // ---------------------------------------------------------------- kernels over pairs of labels

  /**
   Whether the pair of labels that `x` belongs to has been dealt with: by
   its 0 entry if stored, else by its 1 entry.
   */
  predicate PairDone(cs: set<nat>, q: nat, old_: Table, done: set<Label>, x: Label) {
    if !(cs <= x) then x in done
    else if x - {q} in old_ then x - {q} in done
    else x + {q} in done
  }

  /** The new table holds the wanted amplitudes on the pairs dealt with and nothing elsewhere. */
  ghost predicate PairsBuilt(cs: set<nat>, u: Mat, q: nat, old_: Table, done: set<Label>, new_: Table) {
    && done <= old_.Keys
    && (forall x: Label :: !PairDone(cs, q, old_, done, x) ==> x !in new_)
    && (forall x: Label :: PairDone(cs, q, old_, done, x) ==>
          AmplitudeOf(new_, x) == Controlled(cs, u, q, WaveOf(old_))[x])
    && (NoZeros(old_) ==> NoZeros(new_))
  }

  /** A table that differs from `m` only at `z` and `o`. */
  ghost predicate Extends(m: Table, n: Table, z: Label, o: Label) {
    forall x: Label :: x != z && x != o ==> (x in n <==> x in m) && AmplitudeOf(n, x) == AmplitudeOf(m, x)
  }

  /** Dealing with one more pair. */
  lemma PairStep(cs: set<nat>, u: Mat, q: nat, old_: Table, done: set<Label>, new_: Table, l: Label, next: Table)
    requires q !in cs && PairsBuilt(cs, u, q, old_, done, new_) && l in old_ && cs <= l
    requires l - {q} !in old_ || l == l - {q}
    requires Extends(new_, next, l - {q}, l + {q})
    requires AmplitudeOf(next, l - {q}) == Mixed(u, q, WaveOf(old_), l - {q})
    requires AmplitudeOf(next, l + {q}) == Mixed(u, q, WaveOf(old_), l + {q})
    requires NoZeros(old_) ==> NoZeros(next)
    ensures PairsBuilt(cs, u, q, old_, done + {l}, next)
  {
    hide Mixed, WaveOf, AmplitudeOf, NoZeros;
    var z, o := l - {q}, l + {q};
    forall x: Label
      ensures PairDone(cs, q, old_, done + {l}, x) <==> PairDone(cs, q, old_, done, x) || x == z || x == o
    {
      PairDoneStep(cs, q, old_, done, l, x);
    }
    assert cs <= z && cs <= o;
  }

  lemma PairDoneStep(cs: set<nat>, q: nat, old_: Table, done: set<Label>, l: Label, x: Label)
    requires q !in cs && l in old_ && cs <= l && done <= old_.Keys
    requires l - {q} !in old_ || l == l - {q}
    ensures PairDone(cs, q, old_, done + {l}, x)
       <==> PairDone(cs, q, old_, done, x) || x == l - {q} || x == l + {q}
  {
    var z, o := l - {q}, l + {q};
    assert l == z || l == o;
    assert z + {q} == o && o - {q} == z;
    assert x == if q in x then (x - {q}) + {q} else x - {q};
    assert x == if q in x then x + {q} else (x + {q}) - {q};
    assert x == z || x == o ==> x - {q} == z && x + {q} == o && cs <= x;
  }

  /** The 1 entry of a pair whose 0 entry is stored adds nothing. */
  lemma PairSkip(cs: set<nat>, u: Mat, q: nat, old_: Table, done: set<Label>, new_: Table, l: Label)
    requires q !in cs && PairsBuilt(cs, u, q, old_, done, new_) && l in old_ && cs <= l && q in l
    requires l - {q} in old_
    ensures PairsBuilt(cs, u, q, old_, done + {l}, new_)
  {
    hide Mixed, WaveOf, AmplitudeOf, NoZeros, Controlled;
    forall x: Label ensures PairDone(cs, q, old_, done + {l}, x) <==> PairDone(cs, q, old_, done, x) {
      assert x - {q} != l;
      if x + {q} == l {
        assert x - {q} == l - {q};
      }
    }
  }

  /** An entry whose controls fail is copied. */
  lemma PairCopy(cs: set<nat>, u: Mat, q: nat, old_: Table, done: set<Label>, new_: Table, l: Label)
    requires q !in cs && PairsBuilt(cs, u, q, old_, done, new_) && l in old_ && l !in done && !(cs <= l)
    ensures PairsBuilt(cs, u, q, old_, done + {l}, Emplace(new_, l, old_[l]))
  {
    hide Mixed;
    forall x: Label ensures PairDone(cs, q, old_, done + {l}, x) <==> PairDone(cs, q, old_, done, x) || x == l {
      if cs <= x {
        assert cs <= x - {q} && cs <= x + {q};
      }
    }
  }

  lemma PairsAll(cs: set<nat>, u: Mat, q: nat, old_: Table, new_: Table)
    requires q !in cs && PairsBuilt(cs, u, q, old_, old_.Keys, new_)
    ensures WaveOf(new_) == Controlled(cs, u, q, WaveOf(old_))
    ensures NoZeros(old_) ==> NoZeros(new_)
  {
    hide Mixed, NoZeros, PairsBuilt;
    NoZerosBuilt(cs, u, q, old_, new_);
    forall x: Label ensures WaveOf(new_)[x] == Controlled(cs, u, q, WaveOf(old_))[x] {
      PairsAllAt(cs, u, q, old_, new_, x);
    }
    hide WaveOf, Controlled;
    SameWave(WaveOf(new_), Controlled(cs, u, q, WaveOf(old_)));
  }

  lemma NoZerosBuilt(cs: set<nat>, u: Mat, q: nat, old_: Table, new_: Table)
    requires PairsBuilt(cs, u, q, old_, old_.Keys, new_)
    ensures NoZeros(old_) ==> NoZeros(new_)
  {
  }

  lemma PairsAllAt(cs: set<nat>, u: Mat, q: nat, old_: Table, new_: Table, x: Label)
    requires q !in cs && PairsBuilt(cs, u, q, old_, old_.Keys, new_)
    ensures AmplitudeOf(new_, x) == Controlled(cs, u, q, WaveOf(old_))[x]
  {
    hide Mixed, NoZeros;
    if !PairDone(cs, q, old_, old_.Keys, x) && cs <= x {
      MixedAbsent(u, q, WaveOf(old_), x);
    }
  }

  lemma MixedAbsent(u: Mat, q: nat, w: Wave, x: Label)
    requires w[x - {q}] == ZERO && w[x + {q}] == ZERO
    ensures Mixed(u, q, w, x) == ZERO
  {
    hide Times, Plus;
    ZeroLeft(Row0(u, q in x));
    ZeroLeft(Row1(u, q in x));
    TimesUnit(ZERO);
  }

  /** What the pair of `l` becomes, in terms of the stored values of its two labels. */
  lemma PairValues(u: Mat, q: nat, m: Table, l: Label)
    ensures Mixed(u, q, WaveOf(m), l - {q})
         == Plus(Times(u.m00, AmplitudeOf(m, l - {q})), Times(u.m01, AmplitudeOf(m, l + {q})))
    ensures Mixed(u, q, WaveOf(m), l + {q})
         == Plus(Times(u.m10, AmplitudeOf(m, l - {q})), Times(u.m11, AmplitudeOf(m, l + {q})))
  {
    hide Times, Plus;
    var z, o := l - {q}, l + {q};
    assert z - {q} == z && z + {q} == o && o - {q} == z && o + {q} == o;
  }

  /** `Emplace` of a value that may be zero, in which case nothing is stored. */
  function EmplaceNonZero(m: Table, l: Label, v: Complex): Table { if Norm(v) > 0.0 then Emplace(m, l, v) else m }

  lemma EmplaceBoth(m: Table, n: Table, z: Label, o: Label, v0: Complex, v1: Complex)
    requires z != o && z !in m && o !in m
    requires n == Emplace(Emplace(m, z, v0), o, v1) || n == EmplaceNonZero(EmplaceNonZero(m, z, v0), o, v1)
    ensures Extends(m, n, z, o) && AmplitudeOf(n, z) == v0 && AmplitudeOf(n, o) == v1
    ensures NoZeros(m) && ((v0 != ZERO && v1 != ZERO) || n == EmplaceNonZero(EmplaceNonZero(m, z, v0), o, v1)) ==>
      NoZeros(n)
  {
    hide Norm;
    NormPositive(v0);
    NormPositive(v1);
  }

  /** The pair of `l` is not built before one of its labels decides it. */
  lemma PairFresh(cs: set<nat>, u: Mat, q: nat, old_: Table, done: set<Label>, new_: Table, l: Label)
    requires q !in cs && PairsBuilt(cs, u, q, old_, done, new_) && l in old_ && l !in done && cs <= l
    requires l - {q} !in old_ || l == l - {q}
    ensures l - {q} !in new_ && l + {q} !in new_ && l - {q} != l + {q}
  {
    hide Mixed, WaveOf, AmplitudeOf, NoZeros, Controlled;
    var z, o := l - {q}, l + {q};
    assert z - {q} == z && z + {q} == o && o - {q} == z && o + {q} == o;
    assert l == z || l == o;
    assert cs <= z && cs <= o;
  }

  /** Only one label of the pair is stored, and both results are. */
  lemma UnmatchedStep(cs: set<nat>, u: Mat, q: nat, old_: Table, done: set<Label>, new_: Table, l: Label,
                      v0: Complex, v1: Complex)
    requires q !in cs && PairsBuilt(cs, u, q, old_, done, new_) && l in old_ && l !in done && cs <= l
    requires Flip(l, q) !in old_
    requires v0 == Times(if q in l then u.m01 else u.m00, old_[l])
    requires v1 == Times(if q in l then u.m11 else u.m10, old_[l])
    requires u.m00 != ZERO && u.m01 != ZERO && u.m10 != ZERO && u.m11 != ZERO
    ensures PairsBuilt(cs, u, q, old_, done + {l}, Emplace(Emplace(new_, l - {q}, v0), l + {q}, v1))
  {
    hide Mixed, WaveOf, Times, Plus, PairsBuilt, NoZeros;
    var z, o := l - {q}, l + {q};
    var next := Emplace(Emplace(new_, z, v0), o, v1);
    assert if q in l then l == o && Flip(l, q) == z else l == z && Flip(l, q) == o;
    PairFresh(cs, u, q, old_, done, new_, l);
    PairValues(u, q, old_, l);
    AloneValues(u, q in l, old_[l]);
    EmplaceBoth(new_, next, z, o, v0, v1);
    NoZerosSoFar(cs, u, q, old_, done, new_);
    StoredNonZero(old_, l, v0, v1, if q in l then u.m01 else u.m00, if q in l then u.m11 else u.m10);
    PairStep(cs, u, q, old_, done, new_, l, next);
  }

  lemma StoredNonZero(m: Table, l: Label, v0: Complex, v1: Complex, a: Complex, b: Complex)
    requires l in m && v0 == Times(a, m[l]) && v1 == Times(b, m[l]) && a != ZERO && b != ZERO
    ensures NoZeros(m) ==> v0 != ZERO && v1 != ZERO
  {
    hide Times;
    TimesZero(a, m[l]);
    TimesZero(b, m[l]);
  }

  lemma AloneValues(u: Mat, one: bool, v: Complex)
    ensures one ==> Plus(Times(u.m00, ZERO), Times(u.m01, v)) == Times(u.m01, v)
    ensures one ==> Plus(Times(u.m10, ZERO), Times(u.m11, v)) == Times(u.m11, v)
    ensures !one ==> Plus(Times(u.m00, v), Times(u.m01, ZERO)) == Times(u.m00, v)
    ensures !one ==> Plus(Times(u.m10, v), Times(u.m11, ZERO)) == Times(u.m10, v)
  {
    hide Times, Plus;
    ZeroLeft(u.m00);
    ZeroLeft(u.m01);
    ZeroLeft(u.m10);
    ZeroLeft(u.m11);
    TimesUnit(Times(u.m01, v));
    TimesUnit(Times(u.m11, v));
    TimesUnit(Times(u.m00, v));
    TimesUnit(Times(u.m10, v));
  }

  lemma NoZerosSoFar(cs: set<nat>, u: Mat, q: nat, old_: Table, done: set<Label>, new_: Table)
    requires PairsBuilt(cs, u, q, old_, done, new_)
    ensures NoZeros(old_) ==> NoZeros(new_)
  {
  }

  /** Both labels of the pair are stored; a result that cancels is not. */
  lemma MatchedStep(cs: set<nat>, u: Mat, q: nat, old_: Table, done: set<Label>, new_: Table, l: Label,
                    v0: Complex, v1: Complex)
    requires q !in cs && PairsBuilt(cs, u, q, old_, done, new_) && l in old_ && l !in done && cs <= l
    requires q !in l && Flip(l, q) in old_
    requires v0 == Plus(Times(u.m00, old_[l]), Times(u.m01, old_[Flip(l, q)]))
    requires v1 == Plus(Times(u.m10, old_[l]), Times(u.m11, old_[Flip(l, q)]))
    ensures PairsBuilt(cs, u, q, old_, done + {l}, EmplaceNonZero(EmplaceNonZero(new_, l, v0), Flip(l, q), v1))
  {
    hide Mixed, WaveOf, Times, Plus, PairsBuilt, NoZeros, EmplaceNonZero;
    var z, o := l - {q}, l + {q};
    assert l == z && Flip(l, q) == o;
    var next := EmplaceNonZero(EmplaceNonZero(new_, z, v0), o, v1);
    PairFresh(cs, u, q, old_, done, new_, l);
    PairValues(u, q, old_, l);
    EmplaceBoth(new_, next, z, o, v0, v1);
    NoZerosSoFar(cs, u, q, old_, done, new_);
    PairStep(cs, u, q, old_, done, new_, l, next);
  }

  // ---------------------------------------------------------------- the values each kernel computes

  lemma HValues(r: real, a: Complex, b: Complex)
    requires r != 0.0
    ensures Plus(Times(Real(r), a), Times(Real(r), b)) == Times(Plus(a, b), Real(r))
    ensures Plus(Times(Real(r), a), Times(Real(-r), b)) == Times(Minus(a, b), Real(r))
    ensures Norm(Plus(a, b)) > 0.0 <==> Norm(Times(Plus(a, b), Real(r))) > 0.0
    ensures Norm(Minus(a, b)) > 0.0 <==> Norm(Times(Minus(a, b), Real(r))) > 0.0
  {
    HSum(r, a, b);
    HDifference(r, a, b);
    hide Times, Plus, Minus, Norm;
    NonZeroScaled(Plus(a, b), r);
    NonZeroScaled(Minus(a, b), r);
  }

  lemma HSum(r: real, a: Complex, b: Complex)
    ensures Plus(Times(Real(r), a), Times(Real(r), b)) == Times(Plus(a, b), Real(r))
  {
  }

  lemma HDifference(r: real, a: Complex, b: Complex)
    ensures Plus(Times(Real(r), a), Times(Real(-r), b)) == Times(Minus(a, b), Real(r))
  {
  }

  lemma NonZeroScaled(a: Complex, r: real)
    requires r != 0.0
    ensures Norm(a) > 0.0 <==> Norm(Times(a, Real(r))) > 0.0
  {
    hide Times, Norm;
    NormPositive(a);
    NormPositive(Times(a, Real(r)));
    TimesZero(a, Real(r));
  }
}
