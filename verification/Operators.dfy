/**
 The states and operators of the simulator as mathematics: a state assigns an amplitude to every
 basis label, and every gate is a 2x2 matrix on one qubit (possibly controlled), a phase on the
 labels above a mask, or a (controlled) exchange of two qubits.
 */
module Operators {
  import opened Amplitudes

  /** A basis label is the set of its 1-bits. */
  type Label = set<nat>

  type Wave = w: imap<Label, Complex> | forall l: Label :: l in w
    ghost witness imap l: Label | true :: ZERO

  /** A 2x2 matrix; `mXY` is the amplitude of |X> produced from |Y>. */
  datatype Mat = Mat(m00: Complex, m01: Complex, m10: Complex, m11: Complex)

  /** States are equal when they agree at every label. */
  lemma SameWave(v: Wave, w: Wave)
    requires forall l: Label :: v[l] == w[l]
    ensures v == w
  {
  }

  function Row0(u: Mat, one: bool): Complex { if one then u.m10 else u.m00 }
  function Row1(u: Mat, one: bool): Complex { if one then u.m11 else u.m01 }

  function MatTimes(u: Mat, v: Mat): Mat {
    Mat(Plus(Times(u.m00, v.m00), Times(u.m01, v.m10)), Plus(Times(u.m00, v.m01), Times(u.m01, v.m11)),
        Plus(Times(u.m10, v.m00), Times(u.m11, v.m10)), Plus(Times(u.m10, v.m01), Times(u.m11, v.m11)))
  }

  const ID := Mat(ONE, ZERO, ZERO, ONE)

  function Flip(l: Label, q: nat): Label {
    if q in l then l - {q} else l + {q}
  }

  function Exchanged(cs: set<nat>, a: nat, b: nat, l: Label): Label {
    if cs <= l && (a in l) != (b in l) then Flip(Flip(l, a), b) else l
  }

  /** Amplitude at `l` after the matrix `u` acted on qubit `q`. */
  ghost function Mixed(u: Mat, q: nat, w: Wave, l: Label): Complex {
    Plus(Times(Row0(u, q in l), w[l - {q}]), Times(Row1(u, q in l), w[l + {q}]))
  }

  /** The matrix `u` on qubit `q`. */
  ghost function On(u: Mat, q: nat, w: Wave): Wave {
    imap l: Label | true :: Mixed(u, q, w, l)
  }

  lemma OnAt(u: Mat, q: nat, w: Wave, l: Label)
    ensures On(u, q, w)[l] == Mixed(u, q, w, l)
  {
    hide Mixed;
  }

  /** The matrix `u` on qubit `q`, controlled on every qubit of `cs` being 1. */
  ghost function Controlled(cs: set<nat>, u: Mat, q: nat, w: Wave): Wave {
    imap l: Label | true :: if cs <= l then Mixed(u, q, w, l) else w[l]
  }

  /** The phase `p` on every label that has all bits of `mask`. */
  ghost function Diagonal(mask: set<nat>, p: Complex, w: Wave): Wave {
    imap l: Label | true :: if mask <= l then Times(p, w[l]) else w[l]
  }

  /** Qubits `a` and `b` exchanged, controlled on `cs`. */
  ghost function Exchange2(cs: set<nat>, a: nat, b: nat, w: Wave): Wave {
    imap l: Label | true :: w[Exchanged(cs, a, b, l)]
  }

  ghost function Scaled(k: Complex, w: Wave): Wave {
    imap l: Label | true :: Times(k, w[l])
  }

  /** The three kinds of operator, as data. */
  datatype Operator =
    | OnQubit(controls: set<nat>, u: Mat, q: nat)
    | PhaseOn(mask: set<nat>, p: Complex)
    | Swapping(controls: set<nat>, a: nat, b: nat)

  ghost function Apply(g: Operator, w: Wave): Wave {
    match g
    case OnQubit(cs, u, q) => Controlled(cs, u, q, w)
    case PhaseOn(mask, p) => Diagonal(mask, p, w)
    case Swapping(cs, a, b) => Exchange2(cs, a, b, w)
  }

  function Support(g: Operator): set<nat> {
    match g
    case OnQubit(cs, u, q) => cs + {q}
    case PhaseOn(mask, p) => mask
    case Swapping(cs, a, b) => cs + {a, b}
  }

  lemma MixedPlus(u: Mat, one: bool, k: Complex, a: Complex, b: Complex)
    ensures Plus(Times(Row0(u, one), Times(k, a)), Times(Row1(u, one), Times(k, b)))
         == Times(k, Plus(Times(Row0(u, one), a), Times(Row1(u, one), b)))
  {
    Rotate(Row0(u, one), k, a);
    Rotate(Row1(u, one), k, b);
    TimesPlus(k, Times(Row0(u, one), a), Times(Row1(u, one), b));
  }

  /** Every operator is linear. */
  lemma ApplyScaled(g: Operator, k: Complex, w: Wave)
    ensures Apply(g, Scaled(k, w)) == Scaled(k, Apply(g, w))
  {
    forall l: Label ensures Apply(g, Scaled(k, w))[l] == Scaled(k, Apply(g, w))[l] {
      ScaledAt(g, k, w, l);
    }
    hide *;
    SameWave(Apply(g, Scaled(k, w)), Scaled(k, Apply(g, w)));
  }

  lemma ScaledAt(g: Operator, k: Complex, w: Wave, l: Label)
    ensures Apply(g, Scaled(k, w))[l] == Times(k, Apply(g, w)[l])
  {
    hide Times, Plus, Flip, Exchanged;
    match g
    case OnQubit(cs, u, q) =>
      if cs <= l {
        MixedPlus(u, q in l, k, w[l - {q}], w[l + {q}]);
      }
    case PhaseOn(mask, p) =>
      if mask <= l {
        Rotate(p, k, w[l]);
      }
    case Swapping(cs, a, b) =>
  }

  lemma SeparateBits(l: Label, q: nat, r: nat)
    requires q != r
    ensures (l - {q}) - {r} == (l - {r}) - {q}
    ensures (l - {q}) + {r} == (l + {r}) - {q}
    ensures (l + {q}) - {r} == (l - {r}) + {q}
    ensures (l + {q}) + {r} == (l + {r}) + {q}
  {
  }

  /** Matrices on different qubits commute. */
  lemma MixedCommute(u: Mat, q: nat, v: Mat, r: nat, w: Wave, l: Label)
    requires q != r
    ensures Mixed(u, q, On(v, r, w), l) == Mixed(v, r, On(u, q, w), l)
  {
    SeparateBits(l, q, r);
    Exchange(Row0(u, q in l), Row1(u, q in l), Row0(v, r in l), Row1(v, r in l),
             w[l - {q} - {r}], w[(l - {q}) + {r}], w[(l + {q}) - {r}], w[l + {q} + {r}]);
  }

  lemma FlipOther(l: Label, q: nat, r: nat)
    requires q != r
    ensures Flip(l, q) - {r} == Flip(l - {r}, q)
    ensures Flip(l, q) + {r} == Flip(l + {r}, q)
    ensures r in Flip(l, q) <==> r in l
  {
    SeparateBits(l, q, r);
  }

  lemma ExchangedOther(cs: set<nat>, a: nat, b: nat, l: Label, r: nat)
    requires r !in cs + {a, b}
    ensures Exchanged(cs, a, b, l - {r}) == Exchanged(cs, a, b, l) - {r}
    ensures Exchanged(cs, a, b, l + {r}) == Exchanged(cs, a, b, l) + {r}
    ensures r in Exchanged(cs, a, b, l) <==> r in l
  {
    Above(cs, l, r);
    hide Flip;
    FlipOther(l, a, r);
    FlipOther(Flip(l, a), b, r);
  }

  lemma Above(cs: set<nat>, l: Label, r: nat)
    requires r !in cs
    ensures cs <= l <==> cs <= l - {r}
    ensures cs <= l <==> cs <= l + {r}
  {
  }

  /** An operator commutes with any matrix on a qubit outside its support. */
  lemma CommuteOutside(g: Operator, v: Mat, r: nat, w: Wave)
    requires r !in Support(g)
    ensures Apply(g, On(v, r, w)) == On(v, r, Apply(g, w))
  {
    forall l: Label ensures Apply(g, On(v, r, w))[l] == On(v, r, Apply(g, w))[l] {
      CommuteAt(g, v, r, w, l);
    }
    SameWave(Apply(g, On(v, r, w)), On(v, r, Apply(g, w)));
  }

  lemma CommuteAt(g: Operator, v: Mat, r: nat, w: Wave, l: Label)
    requires r !in Support(g)
    ensures Apply(g, On(v, r, w))[l] == Mixed(v, r, Apply(g, w), l)
  {
    hide Times, Plus, Flip, Exchanged;
    match g
    case OnQubit(cs, u, q) =>
      Above(cs, l, r);
      if cs <= l {
        MixedCommute(u, q, v, r, w, l);
      }
    case PhaseOn(mask, p) =>
      Above(mask, l, r);
      if mask <= l {
        MixedPlus(v, r in l, p, w[l - {r}], w[l + {r}]);
      }
    case Swapping(cs, a, b) =>
      ExchangedOther(cs, a, b, l, r);
  }

  /** Two matrices on one qubit compose as their product. */
  lemma OnOn(u: Mat, v: Mat, q: nat, w: Wave)
    ensures On(u, q, On(v, q, w)) == On(MatTimes(u, v), q, w)
  {
    hide Mixed, MatTimes;
    forall l: Label ensures On(u, q, On(v, q, w))[l] == On(MatTimes(u, v), q, w)[l] {
      MixedMixed(u, v, q, w, l);
    }
    SameWave(On(u, q, On(v, q, w)), On(MatTimes(u, v), q, w));
  }

  lemma MixedMixed(u: Mat, v: Mat, q: nat, w: Wave, l: Label)
    ensures Mixed(u, q, On(v, q, w), l) == Mixed(MatTimes(u, v), q, w, l)
  {
    var z, o := l - {q}, l + {q};
    assert z - {q} == z && z + {q} == o && o - {q} == z && o + {q} == o;
    RowTimes(Row0(u, q in l), Row1(u, q in l), v, w[z], w[o]);
  }

  lemma RowTimes(a: Complex, b: Complex, v: Mat, x: Complex, y: Complex)
    ensures Plus(Times(a, Plus(Times(v.m00, x), Times(v.m01, y))), Times(b, Plus(Times(v.m10, x), Times(v.m11, y))))
         == Plus(Times(Plus(Times(a, v.m00), Times(b, v.m10)), x), Times(Plus(Times(a, v.m01), Times(b, v.m11)), y))
  {
    TimesPlus(a, Times(v.m00, x), Times(v.m01, y));
    TimesPlus(b, Times(v.m10, x), Times(v.m11, y));
    TimesPlus(x, Times(a, v.m00), Times(b, v.m10));
    TimesPlus(y, Times(a, v.m01), Times(b, v.m11));
    TimesAssoc(a, v.m00, x);
    TimesAssoc(a, v.m01, y);
    TimesAssoc(b, v.m10, x);
    TimesAssoc(b, v.m11, y);
  }

  lemma TimesUnit(z: Complex)
    ensures Times(ONE, z) == z && Times(ZERO, z) == ZERO
    ensures Plus(z, ZERO) == z && Plus(ZERO, z) == z
  {
  }

  lemma OnIdentity(q: nat, w: Wave)
    ensures On(ID, q, w) == w
  {
    hide Mixed;
    forall l: Label ensures On(ID, q, w)[l] == w[l] {
      IdentityAt(q, w, l);
    }
    SameWave(On(ID, q, w), w);
  }

  lemma IdentityAt(q: nat, w: Wave, l: Label)
    ensures Mixed(ID, q, w, l) == w[l]
  {
    hide Times, Plus;
    TimesUnit(w[l - {q}]);
    TimesUnit(w[l + {q}]);
    assert l == if q in l then l + {q} else l - {q};
  }

  lemma UncontrolledIsOn(u: Mat, q: nat, w: Wave)
    ensures Controlled({}, u, q, w) == On(u, q, w)
  {
    hide Mixed;
  }

  /** A controlled matrix passes a matrix on its own target when the matrices do. */
  lemma PassTarget(cs: set<nat>, u: Mat, v: Mat, u': Mat, q: nat, w: Wave)
    requires q !in cs && MatTimes(u, v) == MatTimes(v, u')
    ensures Controlled(cs, u, q, On(v, q, w)) == On(v, q, Controlled(cs, u', q, w))
  {
    hide Times, Plus, MatTimes, Mixed, On;
    forall l: Label ensures Controlled(cs, u, q, On(v, q, w))[l] == On(v, q, Controlled(cs, u', q, w))[l] {
      PassTargetAt(cs, u, v, u', q, w, l);
    }
    SameWave(Controlled(cs, u, q, On(v, q, w)), On(v, q, Controlled(cs, u', q, w)));
  }

  lemma PassTargetAt(cs: set<nat>, u: Mat, v: Mat, u': Mat, q: nat, w: Wave, l: Label)
    requires q !in cs && MatTimes(u, v) == MatTimes(v, u')
    ensures Controlled(cs, u, q, On(v, q, w))[l] == On(v, q, Controlled(cs, u', q, w))[l]
  {
    hide Times, Plus, MatTimes;
    Above(cs, l, q);
    if cs <= l {
      MixedMixed(u, v, q, w, l);
      MixedMixed(v, u', q, w, l);
    }
  }
}
