/** Why the hash-map passes for Pauli products compute the product, every pair of labels once. */
module PauliKernels {
  import opened Sequences
  import opened Amplitudes
  import opened Operators
  import opened LazyQueue
  import opened Kernels
  import opened BitsetOrder
  import opened PauliStrings

  /** The label of a pair that decides it: the smaller if both are stored, else the stored one. */
  function Decider(old_: Table, flip: set<nat>, width: nat, x: Label): Label {
    var y := Xor(x, flip);
    if x in old_ && y in old_ then (if Bits(x, 0, width) < Bits(y, 0, width) then x else y)
    else if x in old_ then x else y
  }

  ghost predicate Fits(m: Table, width: nat) { forall l :: l in m ==> FitsIn(l, width) }

  ghost predicate ComboBuilt(axes: seq<Axis>, qs: seq<nat>, id: Complex, pauli: Complex, width: nat,
                             old_: Table, done: set<Label>, new_: Table)
    requires |axes| == |qs|
  {
    var flip := XYMask(axes, qs);
    && done <= old_.Keys
    && (forall x: Label :: Decider(old_, flip, width, x) in done ==>
          AmplitudeOf(new_, x) == Combined(axes, qs, id, pauli, WaveOf(old_))[x])
    && (forall x: Label :: Decider(old_, flip, width, x) !in done ==> x !in new_)
    && (NoZeros(old_) && id != ZERO && pauli != ZERO ==> NoZeros(new_))
  }

  lemma DecidedBy(old_: Table, flip: set<nat>, width: nat, l: Label)
    requires flip != {} && l in old_ && Decider(old_, flip, width, l) == l
    ensures forall x: Label :: Decider(old_, flip, width, x) == l <==> x == l || x == Xor(l, flip)
  {
    hide Bits, Xor;
    forall x: Label ensures Decider(old_, flip, width, x) == l <==> x == l || x == Xor(l, flip) {
      XorTwice(x, flip);
      XorTwice(l, flip);
    }
  }

  /** A stored label that does not decide its pair decides none. */
  lemma DecidesNone(old_: Table, flip: set<nat>, width: nat, l: Label)
    requires flip != {} && l in old_ && Decider(old_, flip, width, l) != l
    requires FitsIn(l, width) && FitsIn(Xor(l, flip), width)
    ensures forall x: Label :: Decider(old_, flip, width, x) != l
  {
    hide Bits, Xor, FitsIn;
    forall x: Label ensures Decider(old_, flip, width, x) != l {
      XorTwice(x, flip);
      XorTwice(l, flip);
      OrderTotal(l, Xor(l, flip), width);
    }
  }

  lemma ComboSkip(axes: seq<Axis>, qs: seq<nat>, id: Complex, pauli: Complex, width: nat,
                  old_: Table, done: set<Label>, new_: Table, l: Label)
    requires |axes| == |qs| && ComboBuilt(axes, qs, id, pauli, width, old_, done, new_)
    requires XYMask(axes, qs) != {} && l in old_ && Decider(old_, XYMask(axes, qs), width, l) != l
    requires FitsIn(l, width) && FitsIn(Xor(l, XYMask(axes, qs)), width)
    ensures ComboBuilt(axes, qs, id, pauli, width, old_, done + {l}, new_)
  {
    hide Decider, XYMask, Xor, FitsIn, Combined, WaveOf, AmplitudeOf, NoZeros;
    DecidesNone(old_, XYMask(axes, qs), width, l);
  }

  lemma ComboStep(axes: seq<Axis>, qs: seq<nat>, id: Complex, pauli: Complex, width: nat,
                  old_: Table, done: set<Label>, new_: Table, l: Label, next: Table)
    requires |axes| == |qs| && ComboBuilt(axes, qs, id, pauli, width, old_, done, new_)
    requires XYMask(axes, qs) != {} && l in old_ && Decider(old_, XYMask(axes, qs), width, l) == l
    requires Extends(new_, next, l, Xor(l, XYMask(axes, qs)))
    requires AmplitudeOf(next, l) == Combined(axes, qs, id, pauli, WaveOf(old_))[l]
    requires AmplitudeOf(next, Xor(l, XYMask(axes, qs)))
      == Combined(axes, qs, id, pauli, WaveOf(old_))[Xor(l, XYMask(axes, qs))]
    requires NoZeros(old_) && id != ZERO && pauli != ZERO ==> NoZeros(next)
    ensures ComboBuilt(axes, qs, id, pauli, width, old_, done + {l}, next)
  {
    hide Decider, XYMask, Xor, FitsIn, Combined, WaveOf, AmplitudeOf, NoZeros;
    DecidedBy(old_, XYMask(axes, qs), width, l);
  }

  lemma ComboFresh(axes: seq<Axis>, qs: seq<nat>, id: Complex, pauli: Complex, width: nat,
                   old_: Table, done: set<Label>, new_: Table, l: Label)
    requires |axes| == |qs| && ComboBuilt(axes, qs, id, pauli, width, old_, done, new_)
    requires XYMask(axes, qs) != {} && l in old_ && l !in done && Decider(old_, XYMask(axes, qs), width, l) == l
    ensures l !in new_ && Xor(l, XYMask(axes, qs)) !in new_ && l != Xor(l, XYMask(axes, qs))
    ensures NoZeros(old_) && id != ZERO && pauli != ZERO ==> NoZeros(new_)
  {
    hide Decider, XYMask, Xor, FitsIn, Combined, WaveOf, AmplitudeOf, NoZeros;
    DecidedBy(old_, XYMask(axes, qs), width, l);
    XorTwice(l, XYMask(axes, qs));
  }

  lemma ComboAll(axes: seq<Axis>, qs: seq<nat>, id: Complex, pauli: Complex, width: nat, old_: Table, new_: Table)
    requires |axes| == |qs| && NoDuplicates(qs) && ComboBuilt(axes, qs, id, pauli, width, old_, old_.Keys, new_)
    ensures WaveOf(new_) == Combined(axes, qs, id, pauli, WaveOf(old_))
    ensures NoZeros(old_) && id != ZERO && pauli != ZERO ==> NoZeros(new_)
  {
    hide Decider, XYMask, Combined, NoZeros;
    forall x: Label ensures WaveOf(new_)[x] == Combined(axes, qs, id, pauli, WaveOf(old_))[x] {
      if Decider(old_, XYMask(axes, qs), width, x) !in old_ {
        NeitherStored(old_, XYMask(axes, qs), width, x);
        CombinedOfNothing(axes, qs, id, pauli, WaveOf(old_), x);
      }
    }
    SameWave(WaveOf(new_), Combined(axes, qs, id, pauli, WaveOf(old_)));
  }

  lemma NeitherStored(old_: Table, flip: set<nat>, width: nat, x: Label)
    requires Decider(old_, flip, width, x) !in old_
    ensures x !in old_ && Xor(x, flip) !in old_
  {
  }

  lemma CombinedOfNothing(axes: seq<Axis>, qs: seq<nat>, id: Complex, pauli: Complex, w: Wave, x: Label)
    requires |axes| == |qs| && NoDuplicates(qs) && w[x] == ZERO && w[Xor(x, XYMask(axes, qs))] == ZERO
    ensures Combined(axes, qs, id, pauli, w)[x] == ZERO
  {
    hide Times, Plus, PauliString, Factor;
    StringAt(axes, qs, w, x);
    ZeroLeft(Factor(axes, qs, Xor(x, XYMask(axes, qs))));
    ZeroLeft(id);
    ZeroLeft(pauli);
    TimesUnit(ZERO);
  }

  // ---------------------------------------------------------------- the values of a pair

  /** The coefficient turned by one factor of i for each Y, by cases of the count modulo four. */
  function Turned(pauli: Complex, ycount: nat): Complex {
    match ycount % 4
    case 1 => Times(pauli, IMAG)
    case 2 => Times(pauli, MINUS_ONE)
    case 3 => Times(pauli, MINUS_IMAG)
    case _ => pauli
  }

  lemma {:induction false} TurnedIsPower(pauli: Complex, n: nat)
    ensures Turned(pauli, n) == Times(pauli, IPow(n))
  {
    hide Times;
    if n >= 4 {
      TurnedIsPower(pauli, n - 4);
      FourTurns(IPow(n - 4));
      assert IPow(n - 3) == Times(IMAG, IPow(n - 4)) && IPow(n - 2) == Times(IMAG, IPow(n - 3));
      assert IPow(n - 1) == Times(IMAG, IPow(n - 2)) && IPow(n) == Times(IMAG, IPow(n - 1));
    } else {
      SmallPowers();
      TimesComm(pauli, ONE);
      TimesUnit(pauli);
    }
  }

  lemma SmallPowers()
    ensures IPow(0) == ONE && IPow(1) == IMAG && IPow(2) == MINUS_ONE && IPow(3) == MINUS_IMAG
  {
    hide Times;
    ImaginaryTurns();
    assert IPow(1) == Times(IMAG, IPow(0)) && IPow(2) == Times(IMAG, IPow(1)) && IPow(3) == Times(IMAG, IPow(2));
  }

  lemma ImaginaryTurns()
    ensures Times(IMAG, ONE) == IMAG && Times(IMAG, IMAG) == MINUS_ONE && Times(IMAG, MINUS_ONE) == MINUS_IMAG
  {
  }

  lemma FourTurns(z: Complex)
    ensures Times(IMAG, Times(IMAG, Times(IMAG, Times(IMAG, z)))) == z
  {
    hide Times;
    ImaginarySquare();
    TimesAssoc(IMAG, IMAG, z);
    TimesAssoc(IMAG, IMAG, Times(IMAG, Times(IMAG, z)));
    TimesAssoc(MINUS_ONE, MINUS_ONE, z);
    SignProducts();
    TimesUnit(z);
  }

  /** The amplitudes of the pair of `l` in the combination, as the pass computes them. */
  lemma PairCombined(axes: seq<Axis>, qs: seq<nat>, id: Complex, pauli: Complex, m: Table, l: Label)
    requires |axes| == |qs| && NoDuplicates(qs)
    ensures var alt := Xor(l, XYMask(axes, qs));
      var p := Turned(pauli, YCount(axes));
      var pAlt := if YCount(axes) % 2 == 1 then Neg(p) else p;
      var odd := Odd(YZMask(axes, qs), l);
      var a, b := AmplitudeOf(m, l), AmplitudeOf(m, alt);
      && Combined(axes, qs, id, pauli, WaveOf(m))[l]
         == Plus(Times(a, id), Times(b, if odd then Neg(pAlt) else pAlt))
      && Combined(axes, qs, id, pauli, WaveOf(m))[alt]
         == Plus(Times(b, id), Times(a, if odd then Neg(p) else p))
  {
    hide Times, Plus, PauliString, Odd, Xor, Turned, Neg, IPow, YCount, XYMask, YZMask;
    var xy := XYMask(axes, qs);
    var alt := Xor(l, xy);
    var w := WaveOf(m);
    StringAt(axes, qs, w, l);
    StringAt(axes, qs, w, alt);
    XorTwice(l, xy);
    FlippedParity(axes, qs, l);
    TurnedIsPower(pauli, YCount(axes));
    TimesComm(id, w[l]);
    TimesComm(id, w[alt]);
    SignedTerm(pauli, IPow(YCount(axes)), Odd(YZMask(axes, qs), l), w[l]);
    SignedTerm(pauli, IPow(YCount(axes)), Odd(YZMask(axes, qs), alt), w[alt]);
    NegNeg(Turned(pauli, YCount(axes)));
  }

  lemma NegNeg(z: Complex)
    ensures Neg(Neg(z)) == z
  {
  }

  lemma SignedTerm(pauli: Complex, i: Complex, odd: bool, v: Complex)
    ensures var p := Times(pauli, i);
      Times(pauli, Times(Times(i, if odd then MINUS_ONE else ONE), v)) == Times(v, if odd then Neg(p) else p)
  {
    hide Times, Neg;
    var p := Times(pauli, i);
    var sign := if odd then MINUS_ONE else ONE;
    TimesAssoc(pauli, Times(i, sign), v);
    TimesAssoc(pauli, i, sign);
    TimesComm(p, sign);
    TimesMinusOne(p);
    TimesUnit(p);
    TimesComm(Times(p, sign), v);
  }

  /** Only `l` is stored: both labels receive its share. */
  lemma ComboUnmatched(axes: seq<Axis>, qs: seq<nat>, id: Complex, pauli: Complex, width: nat,
                       old_: Table, done: set<Label>, new_: Table, l: Label)
    requires |axes| == |qs| && NoDuplicates(qs) && ComboBuilt(axes, qs, id, pauli, width, old_, done, new_)
    requires XYMask(axes, qs) != {} && l in old_ && l !in done && Xor(l, XYMask(axes, qs)) !in old_
    ensures var p := Turned(pauli, YCount(axes));
      ComboBuilt(axes, qs, id, pauli, width, old_, done + {l},
        Emplace(Emplace(new_, l, Times(old_[l], id)), Xor(l, XYMask(axes, qs)),
                Times(old_[l], if Odd(YZMask(axes, qs), l) then Neg(p) else p)))
  {
    hide Times, Plus, Odd, Xor, Turned, Neg, XYMask, YZMask, Combined, ComboBuilt, NoZeros, YCount, WaveOf;
    var alt, p := Xor(l, XYMask(axes, qs)), Turned(pauli, YCount(axes));
    var c := if Odd(YZMask(axes, qs), l) then Neg(p) else p;
    var v0, v1 := Times(old_[l], id), Times(old_[l], c);
    ComboFresh(axes, qs, id, pauli, width, old_, done, new_, l);
    PairCombined(axes, qs, id, pauli, old_, l);
    ZeroLeft(id);
    var pAlt := if YCount(axes) % 2 == 1 then Neg(p) else p;
    ZeroLeft(if Odd(YZMask(axes, qs), l) then Neg(pAlt) else pAlt);
    TimesUnit(v0);
    TimesUnit(v1);
    var next := Emplace(Emplace(new_, l, v0), alt, v1);
    EmplaceBoth(new_, next, l, alt, v0, v1);
    TurnedNonZero(pauli, YCount(axes));
    NegZero(p);
    StoredTimes(old_, l, id, c);
    ComboStep(axes, qs, id, pauli, width, old_, done, new_, l, next);
  }

  lemma StoredTimes(m: Table, l: Label, a: Complex, b: Complex)
    requires l in m
    ensures NoZeros(m) && a != ZERO && b != ZERO ==> Times(m[l], a) != ZERO && Times(m[l], b) != ZERO
  {
    hide Times;
    TimesZero(m[l], a);
    TimesZero(m[l], b);
  }

  lemma NegZero(z: Complex)
    ensures Neg(z) == ZERO <==> z == ZERO
  {
  }

  lemma TurnedNonZero(pauli: Complex, n: nat)
    ensures Turned(pauli, n) == ZERO <==> pauli == ZERO
  {
    hide Times;
    TimesZero(pauli, IMAG);
    TimesZero(pauli, MINUS_ONE);
    TimesZero(pauli, MINUS_IMAG);
  }

  /** Both labels are stored: each receives both shares, and nothing if they cancel. */
  lemma ComboMatched(axes: seq<Axis>, qs: seq<nat>, id: Complex, pauli: Complex, width: nat,
                     old_: Table, done: set<Label>, new_: Table, l: Label)
    requires |axes| == |qs| && NoDuplicates(qs) && ComboBuilt(axes, qs, id, pauli, width, old_, done, new_)
    requires XYMask(axes, qs) != {} && l in old_ && l !in done && Xor(l, XYMask(axes, qs)) in old_
    requires Bits(l, 0, width) < Bits(Xor(l, XYMask(axes, qs)), 0, width)
    ensures var alt := Xor(l, XYMask(axes, qs));
      var p := Turned(pauli, YCount(axes));
      var pAlt := if YCount(axes) % 2 == 1 then Neg(p) else p;
      var odd := Odd(YZMask(axes, qs), l);
      ComboBuilt(axes, qs, id, pauli, width, old_, done + {l},
        EmplaceNonZero(
          EmplaceNonZero(new_, l, Plus(Times(old_[l], id), Times(old_[alt], if odd then Neg(pAlt) else pAlt))),
          alt, Plus(Times(old_[alt], id), Times(old_[l], if odd then Neg(p) else p))))
  {
    hide Times, Plus, Odd, Xor, Turned, Neg, XYMask, YZMask, Combined, ComboBuilt, NoZeros, YCount, WaveOf, Bits,
         EmplaceNonZero;
    var alt := Xor(l, XYMask(axes, qs));
    var p := Turned(pauli, YCount(axes));
    var pAlt := if YCount(axes) % 2 == 1 then Neg(p) else p;
    var odd := Odd(YZMask(axes, qs), l);
    var v0 := Plus(Times(old_[l], id), Times(old_[alt], if odd then Neg(pAlt) else pAlt));
    var v1 := Plus(Times(old_[alt], id), Times(old_[l], if odd then Neg(p) else p));
    ComboFresh(axes, qs, id, pauli, width, old_, done, new_, l);
    PairCombined(axes, qs, id, pauli, old_, l);
    var next := EmplaceNonZero(EmplaceNonZero(new_, l, v0), alt, v1);
    EmplaceBoth(new_, next, l, alt, v0, v1);
    ComboStep(axes, qs, id, pauli, width, old_, done, new_, l, next);
  }

  // ---------------------------------------------------------------- products of Z only

  /** With no flips the combination scales every label by the sum or the difference. */
  lemma DiagonalCombined(axes: seq<Axis>, qs: seq<nat>, id: Complex, pauli: Complex, w: Wave, l: Label)
    requires |axes| == |qs| && NoDuplicates(qs) && XYMask(axes, qs) == {}
    ensures Combined(axes, qs, id, pauli, w)[l]
         == Times(w[l], if Odd(YZMask(axes, qs), l) then Minus(id, pauli) else Plus(id, pauli))
  {
    hide PauliString, Odd, Xor, YZMask, XYMask, IPow, Times, Plus, Minus;
    StringAt(axes, qs, w, l);
    XorNone(l);
    NoYs(axes, qs);
    IPowNone();
    DiagonalSum(id, pauli, w[l]);
    TimesUnit(if Odd(YZMask(axes, qs), l) then MINUS_ONE else ONE);
  }

  lemma IPowNone()
    ensures IPow(0) == ONE
  {
  }

  lemma NoYs(axes: seq<Axis>, qs: seq<nat>)
    requires |axes| == |qs| && NoDuplicates(qs) && XYMask(axes, qs) == {}
    ensures YCount(axes) == 0
  {
    YsCounted(axes, qs);
    assert YZMask(axes, qs) * {} == {};
  }

  lemma DiagonalSum(id: Complex, pauli: Complex, v: Complex)
    ensures Plus(Times(id, v), Times(pauli, Times(ONE, v))) == Times(v, Plus(id, pauli))
    ensures Plus(Times(id, v), Times(pauli, Times(MINUS_ONE, v))) == Times(v, Minus(id, pauli))
  {
    hide Times, Plus, Minus;
    TimesUnit(v);
    MinusTimes(v);
    SumTimes(id, pauli, v);
    DifferenceTimes(id, pauli, v);
  }

  lemma MinusTimes(v: Complex)
    ensures Times(MINUS_ONE, v) == Neg(v)
  {
  }

  lemma SumTimes(a: Complex, b: Complex, v: Complex)
    ensures Plus(Times(a, v), Times(b, v)) == Times(v, Plus(a, b))
  {
    hide Times, Plus;
    TimesComm(a, v);
    TimesComm(b, v);
    TimesPlus(v, a, b);
  }

  lemma DifferenceTimes(a: Complex, b: Complex, v: Complex)
    ensures Plus(Times(a, v), Times(b, Neg(v))) == Times(v, Minus(a, b))
  {
    DifferencePart(a.re, a.im, b.re, b.im, v.re, v.im);
  }

  lemma DifferencePart(a: real, c: real, b: real, d: real, x: real, y: real)
    ensures (a * x - c * y) + (b * -x - d * -y) == x * (a - b) - y * (c - d)
    ensures (a * y + c * x) + (b * -y + d * -x) == x * (c - d) + y * (a - b)
  {
  }

  // ---------------------------------------------------------------- eigenstates

  /** Projecting on an eigenspace of a Pauli product gives an eigenstate of it. */
  lemma ProjectedIsEigen(axes: seq<Axis>, qs: seq<nat>, h: Complex, minus: bool, w: Wave)
    requires |axes| == |qs| && NoDuplicates(qs)
    ensures var v := Combined(axes, qs, h, if minus then Neg(h) else h, w);
      v == Scaled(if minus then MINUS_ONE else ONE, PauliString(axes, qs, v))
  {
    hide PauliString, Combined;
    var v := Combined(axes, qs, h, if minus then Neg(h) else h, w);
    forall l: Label ensures v[l] == Scaled(if minus then MINUS_ONE else ONE, PauliString(axes, qs, v))[l] {
      EigenAt(axes, qs, h, minus, w, l);
    }
    SameWave(v, Scaled(if minus then MINUS_ONE else ONE, PauliString(axes, qs, v)));
  }

  lemma EigenAt(axes: seq<Axis>, qs: seq<nat>, h: Complex, minus: bool, w: Wave, l: Label)
    requires |axes| == |qs| && NoDuplicates(qs)
    ensures var v := Combined(axes, qs, h, if minus then Neg(h) else h, w);
      v[l] == Times(if minus then MINUS_ONE else ONE, PauliString(axes, qs, v)[l])
  {
    hide Times, Plus, Neg, PauliString, Factor, Xor, XYMask;
    var k := if minus then Neg(h) else h;
    var v := Combined(axes, qs, h, k, w);
    var m := Xor(l, XYMask(axes, qs));
    var f, g := Factor(axes, qs, m), Factor(axes, qs, l);
    StringAt(axes, qs, v, l);
    StringAt(axes, qs, w, l);
    StringAt(axes, qs, w, m);
    XorTwice(l, XYMask(axes, qs));
    FactorBack(axes, qs, l);
    EigenValues(h, minus, f, g, w[l], w[m]);
  }

  lemma EigenValues(h: Complex, minus: bool, f: Complex, g: Complex, a: Complex, b: Complex)
    requires Times(f, g) == ONE
    ensures var k := if minus then Neg(h) else h;
      Plus(Times(h, a), Times(k, Times(f, b)))
      == Times(if minus then MINUS_ONE else ONE, Times(f, Plus(Times(h, b), Times(k, Times(g, a)))))
  {
    hide Times, Plus, Neg;
    var k := if minus then Neg(h) else h;
    var e := if minus then MINUS_ONE else ONE;
    TimesPlus(f, Times(h, b), Times(k, Times(g, a)));
    Rotate(f, h, b);
    Rotate(f, k, Times(g, a));
    TimesAssoc(f, g, a);
    TimesUnit(a);
    TimesPlus(e, Times(h, Times(f, b)), Times(k, a));
    TimesAssoc(e, h, Times(f, b));
    TimesAssoc(e, k, a);
    TimesMinusOne(h);
    TimesMinusOne(k);
    NegNeg(h);
    TimesUnit(h);
    PlusComm(Times(k, Times(f, b)), Times(h, a));
  }

  lemma PlusComm(a: Complex, b: Complex)
    ensures Plus(a, b) == Plus(b, a)
  {
  }

  /** The check made on one entry: the flipped label is stored with the value the product carries to it. */
  predicate EntryMatches(axes: seq<Axis>, qs: seq<nat>, result: bool, m: Table, l: Label)
    requires |axes| == |qs| && l in m
  {
    var flipped := Xor(l, XYMask(axes, qs));
    var shift := Turned(if result then MINUS_ONE else ONE, YCount(axes));
    flipped in m
    && Norm(Minus(m[flipped], Times(m[l], if Odd(YZMask(axes, qs), l) then Neg(shift) else shift))) <= 0.0
  }

  lemma MinusZero(a: Complex, b: Complex)
    ensures Norm(Minus(a, b)) <= 0.0 <==> a == b
  {
    hide Norm;
    NormPositive(Minus(a, b));
    DifferenceZero(a, b);
  }

  lemma DifferenceZero(a: Complex, b: Complex)
    ensures Minus(a, b) == ZERO <==> a == b
  {
  }

  /** The expected value at the flipped label is the product's amplitude there, with the asserted sign. */
  lemma ExpectedValue(axes: seq<Axis>, qs: seq<nat>, result: bool, w: Wave, l: Label)
    requires |axes| == |qs| && NoDuplicates(qs)
    ensures var shift := Turned(if result then MINUS_ONE else ONE, YCount(axes));
      Times(w[l], if Odd(YZMask(axes, qs), l) then Neg(shift) else shift)
      == Scaled(if result then MINUS_ONE else ONE, PauliString(axes, qs, w))[Xor(l, XYMask(axes, qs))]
  {
    hide Times, PauliString, Odd, Xor, XYMask, YZMask, Turned, Neg, IPow, YCount;
    var e := if result then MINUS_ONE else ONE;
    StringAt(axes, qs, w, Xor(l, XYMask(axes, qs)));
    XorTwice(l, XYMask(axes, qs));
    TurnedIsPower(e, YCount(axes));
    SignedTerm(e, IPow(YCount(axes)), Odd(YZMask(axes, qs), l), w[l]);
  }

  /** All entries match only for an eigenstate. */
  lemma MatchesAreEigen(axes: seq<Axis>, qs: seq<nat>, result: bool, m: Table)
    requires |axes| == |qs| && NoDuplicates(qs) && forall l :: l in m ==> EntryMatches(axes, qs, result, m, l)
    ensures WaveOf(m) == Scaled(if result then MINUS_ONE else ONE, PauliString(axes, qs, WaveOf(m)))
  {
    hide Times, PauliString, Odd, Xor, XYMask, YZMask, Turned, Neg, YCount, Norm, Minus;
    var w, e := WaveOf(m), if result then MINUS_ONE else ONE;
    assert forall x :: x in m ==> Xor(x, XYMask(axes, qs)) in m;
    forall x: Label ensures w[x] == Scaled(e, PauliString(axes, qs, w))[x] {
      var l := Xor(x, XYMask(axes, qs));
      XorTwice(x, XYMask(axes, qs));
      ExpectedValue(axes, qs, result, w, l);
      if l in m {
        MinusZero(m[x], Scaled(e, PauliString(axes, qs, w))[x]);
        assert EntryMatches(axes, qs, result, m, l);
      } else {
        var shift := Turned(e, YCount(axes));
        ZeroLeft(if Odd(YZMask(axes, qs), l) then Neg(shift) else shift);
      }
    }
    SameWave(w, Scaled(e, PauliString(axes, qs, w)));
  }

  /** Every stored entry has its partner stored. */
  ghost predicate Paired(axes: seq<Axis>, qs: seq<nat>, m: Table)
    requires |axes| == |qs|
  {
    forall l :: l in m ==> Xor(l, XYMask(axes, qs)) in m
  }

  /** An entry that does not match shows that its partner is not stored, or that the state is no eigenstate. */
  lemma MismatchIsNotEigen(axes: seq<Axis>, qs: seq<nat>, result: bool, m: Table, l: Label)
    requires |axes| == |qs| && NoDuplicates(qs) && l in m && !EntryMatches(axes, qs, result, m, l)
    ensures !Paired(axes, qs, m)
      || WaveOf(m) != Scaled(if result then MINUS_ONE else ONE, PauliString(axes, qs, WaveOf(m)))
  {
    hide Times, PauliString, Odd, Xor, XYMask, YZMask, Turned, Neg, YCount, Norm, Minus;
    var w, e := WaveOf(m), if result then MINUS_ONE else ONE;
    var flipped := Xor(l, XYMask(axes, qs));
    var shift := Turned(e, YCount(axes));
    ExpectedValue(axes, qs, result, w, l);
    if flipped in m {
      MinusZero(m[flipped], Times(m[l], if Odd(YZMask(axes, qs), l) then Neg(shift) else shift));
    }
  }

  /** Without stored zeros an eigenstate has every partner stored. */
  lemma EigenIsPaired(axes: seq<Axis>, qs: seq<nat>, result: bool, m: Table)
    requires |axes| == |qs| && NoDuplicates(qs) && NoZeros(m)
    requires WaveOf(m) == Scaled(if result then MINUS_ONE else ONE, PauliString(axes, qs, WaveOf(m)))
    ensures Paired(axes, qs, m)
  {
    hide Times, PauliString, Odd, Xor, XYMask, YZMask, Turned, Neg, YCount, Norm, Minus;
    var w, e := WaveOf(m), if result then MINUS_ONE else ONE;
    forall l | l in m ensures Xor(l, XYMask(axes, qs)) in m {
      var shift := Turned(e, YCount(axes));
      ExpectedValue(axes, qs, result, w, l);
      TurnedNonZero(e, YCount(axes));
      NegZero(shift);
      TimesZero(m[l], if Odd(YZMask(axes, qs), l) then Neg(shift) else shift);
    }
  }
}
