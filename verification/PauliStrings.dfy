/** Products of Pauli operators on the sparse state: combination with the identity, assertion, measurement. */
module PauliStrings {
  import opened Sequences
  import opened Amplitudes
  import opened Operators
  import opened Gates
  import opened LazyQueue
  import opened Kernels
  import opened BitsetOrder

  function PauliMat(axis: Axis): Mat {
    match axis
    case PauliI => ID
    case PauliX => X_MAT
    case PauliY => Y_MAT
    case PauliZ => Z_MAT
  }

  /** The product of the Pauli operators `axes` on the qubits `qs`. */
  ghost function PauliString(axes: seq<Axis>, qs: seq<nat>, w: Wave): Wave
    requires |axes| == |qs|
  {
    if axes == [] then w
    else On(PauliMat(axes[|axes| - 1]), qs[|qs| - 1], PauliString(axes[..|axes| - 1], qs[..|qs| - 1], w))
  }

  /** `id` times the state plus `pauli` times the Pauli product of it. */
  ghost function Combined(axes: seq<Axis>, qs: seq<nat>, id: Complex, pauli: Complex, w: Wave): Wave
    requires |axes| == |qs|
  {
    imap l: Label | true :: Plus(Times(id, w[l]), Times(pauli, PauliString(axes, qs, w)[l]))
  }

  /** A product of identities only. */
  predicate Trivial(axes: seq<Axis>) { forall i :: 0 <= i < |axes| ==> axes[i].PauliI? }

  /** What the kernel makes of a combination: it leaves the state alone when the product is trivial. */
  ghost function Combination(axes: seq<Axis>, qs: seq<nat>, id: Complex, pauli: Complex, w: Wave): Wave
    requires |axes| == |qs|
  {
    if Trivial(axes) then w else Combined(axes, qs, id, pauli, w)
  }

  // ---------------------------------------------------------------- a Pauli product as a label map

  /** The qubits a product flips. */
  function XYMask(axes: seq<Axis>, qs: seq<nat>): set<nat>
    requires |axes| == |qs|
  {
    if axes == [] then {}
    else
      var rest, a, q := XYMask(axes[..|axes| - 1], qs[..|qs| - 1]), axes[|axes| - 1], qs[|qs| - 1];
      if a.PauliX? || a.PauliY? then rest + {q} else rest
  }

  /** The qubits whose 1 contributes a sign. */
  function YZMask(axes: seq<Axis>, qs: seq<nat>): set<nat>
    requires |axes| == |qs|
  {
    if axes == [] then {}
    else
      var rest, a, q := YZMask(axes[..|axes| - 1], qs[..|qs| - 1]), axes[|axes| - 1], qs[|qs| - 1];
      if a.PauliZ? || a.PauliY? then rest + {q} else rest
  }

  lemma {:induction false} TrivialMasks(axes: seq<Axis>, qs: seq<nat>)
    requires |axes| == |qs|
    ensures Trivial(axes) <==> XYMask(axes, qs) == {} && YZMask(axes, qs) == {}
  {
    if axes != [] {
      var n := |axes| - 1;
      TrivialMasks(axes[..n], qs[..n]);
      assert axes == axes[..n] + [axes[n]];
      if !axes[n].PauliI? {
        assert qs[n] in XYMask(axes, qs) + YZMask(axes, qs);
      }
    }
  }

  function YCount(axes: seq<Axis>): nat {
    if axes == [] then 0 else YCount(axes[..|axes| - 1]) + if axes[|axes| - 1].PauliY? then 1 else 0
  }

  /** `get_parity` of the masked label. */
  predicate Odd(mask: set<nat>, l: Label) { |mask * l| % 2 == 1 }

  function Sign(mask: set<nat>, l: Label): Complex { if Odd(mask, l) then MINUS_ONE else ONE }

  function IPow(n: nat): Complex { if n == 0 then ONE else Times(IMAG, IPow(n - 1)) }

  /** The factor with which the product carries the amplitude of `l` to the flipped label. */
  function Factor(axes: seq<Axis>, qs: seq<nat>, l: Label): Complex
    requires |axes| == |qs|
  {
    Times(IPow(YCount(axes)), Sign(YZMask(axes, qs), l))
  }

  lemma SignAdd(mask: set<nat>, q: nat, l: Label)
    requires q !in mask
    ensures Sign(mask + {q}, l) == if q in l then Times(MINUS_ONE, Sign(mask, l)) else Sign(mask, l)
  {
    if q in l {
      assert (mask + {q}) * l == mask * l + {q};
    } else {
      assert (mask + {q}) * l == mask * l;
    }
  }

  lemma {:induction false} MasksWithin(axes: seq<Axis>, qs: seq<nat>)
    requires |axes| == |qs|
    ensures forall q :: q in XYMask(axes, qs) || q in YZMask(axes, qs) ==> q in qs
  {
    if axes != [] {
      var k := |axes| - 1;
      MasksWithin(axes[..k], qs[..k]);
      assert qs == qs[..k] + [qs[k]];
    }
  }

  lemma XorFlip(l: Label, q: nat, m: set<nat>)
    requires q !in m
    ensures Xor(Flip(l, q), m) == Xor(l, m + {q})
    ensures q in Xor(l, m) <==> q in l
    ensures q in Xor(l, m + {q}) <==> q !in l
  {
  }

  /** A Pauli product moves amplitudes along the flip, with a factor that depends on the label left. */
  lemma StringAt(axes: seq<Axis>, qs: seq<nat>, w: Wave, l: Label)
    requires |axes| == |qs| && NoDuplicates(qs)
    ensures PauliString(axes, qs, w)[l]
         == var m := Xor(l, XYMask(axes, qs)); Times(Factor(axes, qs, m), w[m])
  {
    if axes == [] {
      StringNone(axes, qs, w, l);
    } else {
      hide *;
      var n := |axes| - 1;
      var rest, others := axes[..n], qs[..n];
      FewerDistinct(qs, n);
      StringAt(rest, others, w, l);
      StringAt(rest, others, w, Flip(l, qs[n]));
      StringAtLast(axes, qs, w, l);
      LastFactor(axes, qs, w, l);
    }
  }

  lemma FewerDistinct(qs: seq<nat>, n: nat)
    requires NoDuplicates(qs) && n < |qs|
    ensures NoDuplicates(qs[..n]) && qs[n] !in qs[..n]
  {
  }

  lemma StringNone(axes: seq<Axis>, qs: seq<nat>, w: Wave, l: Label)
    requires |axes| == |qs| && axes == []
    ensures PauliString(axes, qs, w)[l]
         == var m := Xor(l, XYMask(axes, qs)); Times(Factor(axes, qs, m), w[m])
  {
    hide Times, On, PauliMat, Odd, Xor, Sign;
    XorNone(l);
    TimesUnit(ONE);
    TimesUnit(w[l]);
    SignNone(l);
  }

  /** The amplitude of `l` after the last operator `axis` on `q`, the others having given `i`, `xy` and `yz`. */
  ghost function AfterLast(axis: Axis, q: nat, xy: set<nat>, yz: set<nat>, i: Complex, w: Wave, l: Label): Complex {
    var m, n := Xor(l, xy), Xor(l, xy + {q});
    match axis
    case PauliI => Times(Times(i, Sign(yz, m)), w[m])
    case PauliX => Times(Times(i, Sign(yz, n)), w[n])
    case PauliY => Times(Times(Times(IMAG, i), Sign(yz + {q}, n)), w[n])
    case PauliZ => Times(Times(i, Sign(yz + {q}, m)), w[m])
  }

  lemma LastFactor(axes: seq<Axis>, qs: seq<nat>, w: Wave, l: Label)
    requires |axes| == |qs| && axes != []
    ensures var n := |axes| - 1;
      AfterLast(axes[n], qs[n], XYMask(axes[..n], qs[..n]), YZMask(axes[..n], qs[..n]), IPow(YCount(axes[..n])), w, l)
      == var m := Xor(l, XYMask(axes, qs)); Times(Factor(axes, qs, m), w[m])
  {
    hide Times, Odd, Xor, Sign;
  }

  lemma StringAtLast(axes: seq<Axis>, qs: seq<nat>, w: Wave, l: Label)
    requires |axes| == |qs| && axes != [] && qs[|qs| - 1] !in qs[..|qs| - 1]
    requires var n := |axes| - 1;
      forall x :: x == l || x == Flip(l, qs[n]) ==>
        PauliString(axes[..n], qs[..n], w)[x]
        == var m := Xor(x, XYMask(axes[..n], qs[..n])); Times(Factor(axes[..n], qs[..n], m), w[m])
    ensures var n := |axes| - 1;
      PauliString(axes, qs, w)[l]
      == AfterLast(axes[n], qs[n], XYMask(axes[..n], qs[..n]), YZMask(axes[..n], qs[..n]),
                   IPow(YCount(axes[..n])), w, l)
  {
    hide Times, Plus, On, PauliMat, Flip, Odd, Xor, Sign, IPow, XYMask, YZMask;
    var k := |axes| - 1;
    var axis, q := axes[k], qs[k];
    var xy, yz, i := XYMask(axes[..k], qs[..k]), YZMask(axes[..k], qs[..k]), IPow(YCount(axes[..k]));
    var m, n := Xor(l, xy), Xor(l, xy + {q});
    MasksWithin(axes[..k], qs[..k]);
    PauliAt(axis, q, PauliString(axes[..k], qs[..k], w), l);
    XorFlip(l, q, xy);
    SignAdd(yz, q, m);
    SignAdd(yz, q, n);
    StringAtStep(axis, q in l, i, Sign(yz, m), w[m]);
    StringAtStep(axis, q in l, i, Sign(yz, n), w[n]);
  }

  lemma XorNone(l: Label)
    ensures Xor(l, {}) == l
  {
  }

  lemma SignNone(l: Label)
    ensures Sign({}, l) == ONE
  {
    assert {} * l == {};
  }

  /** One Pauli matrix at a label. */
  lemma PauliAt(axis: Axis, q: nat, w: Wave, l: Label)
    ensures On(PauliMat(axis), q, w)[l]
         == match axis
            case PauliI => w[l]
            case PauliX => w[Flip(l, q)]
            case PauliY => Times(if q in l then IMAG else MINUS_IMAG, w[Flip(l, q)])
            case PauliZ => if q in l then Times(MINUS_ONE, w[l]) else w[l]
  {
    hide Times, Plus;
    var z, o := l - {q}, l + {q};
    assert l == if q in l then o else z;
    TimesUnit(w[z]);
    TimesUnit(w[o]);
    TimesUnit(Times(IMAG, w[z]));
    TimesUnit(Times(MINUS_IMAG, w[o]));
    TimesUnit(Times(MINUS_ONE, w[o]));
  }

  lemma StringAtStep(axis: Axis, one: bool, i: Complex, sign: Complex, v: Complex)
    ensures Times(if one then IMAG else MINUS_IMAG, Times(Times(i, sign), v))
         == Times(Times(Times(IMAG, i), if one then sign else Times(MINUS_ONE, sign)), v)
    ensures Times(MINUS_ONE, Times(Times(i, sign), v)) == Times(Times(i, Times(MINUS_ONE, sign)), v)
  {
    YStep(i, sign, v, one);
    ZStep(i, sign, v);
  }

  lemma YStep(i: Complex, sign: Complex, v: Complex, one: bool)
    ensures Times(if one then IMAG else MINUS_IMAG, Times(Times(i, sign), v))
         == Times(Times(Times(IMAG, i), if one then sign else Times(MINUS_ONE, sign)), v)
  {
    var s := if one then sign else Times(MINUS_ONE, sign);
    var c := if one then IMAG else MINUS_IMAG;
    TimesAssoc(c, Times(i, sign), v);
    TimesAssoc(c, i, sign);
    TimesAssoc(Times(IMAG, i), MINUS_ONE, sign);
    assert Times(Times(IMAG, i), MINUS_ONE) == Times(MINUS_IMAG, i);
    hide Times;
  }

  lemma ZStep(i: Complex, sign: Complex, v: Complex)
    ensures Times(MINUS_ONE, Times(Times(i, sign), v)) == Times(Times(i, Times(MINUS_ONE, sign)), v)
  {
    hide Times;
    TimesAssoc(MINUS_ONE, Times(i, sign), v);
    Rotate(MINUS_ONE, i, sign);
  }

  // ---------------------------------------------------------------- signs over flips

  lemma SplitSize(x: set<nat>, y: set<nat>)
    ensures |x| == |x - y| + |x * y|
  {
    assert x == (x - y) + (x * y);
  }

  lemma SignXor(mask: set<nat>, a: Label, b: Label)
    ensures Odd(mask, Xor(a, b)) <==> Odd(mask, a) != Odd(mask, b)
  {
    hide Xor;
    var x, y := mask * a, mask * b;
    SplitSize(x, y);
    SplitSize(y, x);
    XorSize(mask, a, b);
    assert x * y == y * x;
    ParityOfSum(|x - y|, |y - x|, |x * y|);
  }

  lemma ParityOfSum(p: nat, q: nat, r: nat)
    ensures (p + q) % 2 == 1 <==> ((p + r) % 2 == 1) != ((q + r) % 2 == 1)
  {
  }

  lemma XorSize(mask: set<nat>, a: Label, b: Label)
    ensures |mask * Xor(a, b)| == |mask * a - mask * b| + |mask * b - mask * a|
  {
    assert mask * Xor(a, b) == (mask * a - mask * b) + (mask * b - mask * a);
  }

  lemma OneMore(s: set<nat>, q: nat)
    requires q !in s
    ensures |s + {q}| == |s| + 1
  {
  }

  /** The flipping qubits that also carry a sign are the Y ones. */
  lemma YsCounted(axes: seq<Axis>, qs: seq<nat>)
    requires |axes| == |qs| && NoDuplicates(qs)
    ensures |YZMask(axes, qs) * XYMask(axes, qs)| == YCount(axes)
  {
    if axes != [] {
      var n := |axes| - 1;
      var xy, yz := XYMask(axes[..n], qs[..n]), YZMask(axes[..n], qs[..n]);
      YsCounted(axes[..n], qs[..n]);
      MasksWithin(axes[..n], qs[..n]);
      assert qs[n] !in qs[..n];
      OneMoreY(yz, xy, qs[n]);
    }
  }

  /** Adding a new qubit to one mask leaves the qubits of both; adding it to both adds one. */
  lemma OneMoreY(yz: set<nat>, xy: set<nat>, q: nat)
    requires q !in yz && q !in xy
    ensures yz * (xy + {q}) == yz * xy && (yz + {q}) * xy == yz * xy
    ensures |(yz + {q}) * (xy + {q})| == |yz * xy| + 1
  {
    assert (yz + {q}) * (xy + {q}) == yz * xy + {q};
    OneMore(yz * xy, q);
  }

  /** The parity of the flipped label differs from that of the label by the parity of the Ys. */
  lemma FlippedParity(axes: seq<Axis>, qs: seq<nat>, l: Label)
    requires |axes| == |qs| && NoDuplicates(qs)
    ensures var xy, yz := XYMask(axes, qs), YZMask(axes, qs);
      Odd(yz, Xor(l, xy)) <==> Odd(yz, l) != (YCount(axes) % 2 == 1)
  {
    SignXor(YZMask(axes, qs), l, XYMask(axes, qs));
    YsCounted(axes, qs);
  }

  lemma IPowSquare(n: nat)
    ensures Times(IPow(n), IPow(n)) == if n % 2 == 1 then MINUS_ONE else ONE
  {
    hide Times;
    if n == 0 {
      TimesUnit(ONE);
    } else {
      IPowSquare(n - 1);
      FourFactors(IMAG, IPow(n - 1), IMAG, IPow(n - 1));
      ImaginarySquare();
      SignProducts();
    }
  }

  lemma ImaginarySquare()
    ensures Times(IMAG, IMAG) == MINUS_ONE
  {
  }

  /** The factor there and back is one. */
  lemma FactorBack(axes: seq<Axis>, qs: seq<nat>, l: Label)
    requires |axes| == |qs| && NoDuplicates(qs)
    ensures Times(Factor(axes, qs, Xor(l, XYMask(axes, qs))), Factor(axes, qs, l)) == ONE
  {
    hide Times, Odd;
    var i, yz := IPow(YCount(axes)), YZMask(axes, qs);
    var a, b := Sign(yz, Xor(l, XYMask(axes, qs))), Sign(yz, l);
    FlippedParity(axes, qs, l);
    IPowSquare(YCount(axes));
    FourFactors(i, a, i, b);
    SignProducts();
  }

  lemma FourFactors(a: Complex, b: Complex, c: Complex, d: Complex)
    ensures Times(Times(a, b), Times(c, d)) == Times(Times(a, c), Times(b, d))
  {
    hide Times;
    TimesAssoc(Times(a, b), c, d);
    TimesAssoc(a, b, c);
    TimesComm(b, c);
    TimesAssoc(a, c, b);
    TimesAssoc(Times(a, c), b, d);
  }

  lemma TimesMinusOne(z: Complex)
    ensures Times(MINUS_ONE, z) == Neg(z)
  {
  }

  lemma SignProducts()
    ensures Times(ONE, ONE) == ONE && Times(MINUS_ONE, MINUS_ONE) == ONE
    ensures Times(ONE, MINUS_ONE) == MINUS_ONE && Times(MINUS_ONE, ONE) == MINUS_ONE
  {
    hide Times;
    TimesMinusOne(MINUS_ONE);
    TimesMinusOne(ONE);
    TimesUnit(ONE);
    TimesUnit(MINUS_ONE);
  }

  lemma XorTwice(l: Label, m: set<nat>)
    ensures Xor(Xor(l, m), m) == l
    ensures m != {} ==> Xor(l, m) != l
  {
    assert Xor(Xor(l, m), m) == l;
    if m != {} {
      var q :| q in m;
      assert q in l <==> q !in Xor(l, m);
    }
  }

  /** A Pauli product is its own inverse. */
  lemma StringTwice(axes: seq<Axis>, qs: seq<nat>, w: Wave)
    requires |axes| == |qs| && NoDuplicates(qs)
    ensures PauliString(axes, qs, PauliString(axes, qs, w)) == w
  {
    forall l: Label ensures PauliString(axes, qs, PauliString(axes, qs, w))[l] == w[l] {
      StringTwiceAt(axes, qs, w, l);
    }
    hide *;
    SameWave(PauliString(axes, qs, PauliString(axes, qs, w)), w);
  }

  lemma StringTwiceAt(axes: seq<Axis>, qs: seq<nat>, w: Wave, l: Label)
    requires |axes| == |qs| && NoDuplicates(qs)
    ensures PauliString(axes, qs, PauliString(axes, qs, w))[l] == w[l]
  {
    hide Times, PauliString, Factor, Xor;
    var m := Xor(l, XYMask(axes, qs));
    StringAt(axes, qs, PauliString(axes, qs, w), l);
    StringAt(axes, qs, w, m);
    XorTwice(l, XYMask(axes, qs));
    FactorBack(axes, qs, l);
    TimesAssoc(Factor(axes, qs, m), Factor(axes, qs, l), w[l]);
    TimesUnit(w[l]);
  }
}
