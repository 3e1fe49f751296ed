/** When a sparse state is the product of a state of the masked qubits and a state of the others. */
module Separability {
  import opened Amplitudes
  import opened Operators
  import opened Kernels

  // ---------------------------------------------------------------- division

  function Over(a: Complex, b: Complex): Complex
    requires b != ZERO
  {
    NormPositive(b);
    Complex((a.re * b.re + a.im * b.im) / Norm(b), (a.im * b.re - a.re * b.im) / Norm(b))
  }

  lemma QuotientTimes(p: real, q: real, n: real, x: real, y: real, a: real)
    requires n != 0.0 && p * x + q * y == a * n
    ensures (p / n) * x + (q / n) * y == a
  {
    assert (p / n) * x == (p * x) / n;
    assert (q / n) * y == (q * y) / n;
    assert (p * x) / n + (q * y) / n == (p * x + q * y) / n;
  }

  lemma OverTimes(a: Complex, b: Complex)
    requires b != ZERO
    ensures Times(Over(a, b), b) == a
  {
    NormPositive(b);
    var n := Norm(b);
    var p, q := a.re * b.re + a.im * b.im, a.im * b.re - a.re * b.im;
    Collect(a.re, a.im, b.re, b.im);
    QuotientTimes(p, -q, n, b.re, b.im, a.re);
    assert (-q) / n == -(q / n);
    QuotientTimes(p, q, n, b.im, b.re, a.im);
  }

  lemma Collect(a: real, c: real, x: real, y: real)
    ensures (a * x + c * y) * x + (-(c * x - a * y)) * y == a * (x * x + y * y)
    ensures (a * x + c * y) * y + (c * x - a * y) * x == c * (x * x + y * y)
  {
  }

  lemma Cancel(x: Complex, y: Complex, b: Complex)
    requires Times(x, b) == Times(y, b) && b != ZERO
    ensures x == y
  {
    assert Times(Minus(x, y), b) == Minus(Times(x, b), Times(y, b));
    TimesZero(Minus(x, y), b);
  }

  // ---------------------------------------------------------------- product states

  /** The state is a product across the mask. */
  ghost predicate Separable(data: Table, mask: set<nat>) {
    exists f: Wave, g: Wave :: ProductOf(data, mask, ONE, f, g)
  }

  /** Every amplitude is `c` times one factor for the masked qubits and one for the others. */
  ghost predicate ProductOf(data: Table, mask: set<nat>, c: Complex, f: Wave, g: Wave) {
    forall l: Label :: AmplitudeOf(data, l) == Times(c, Times(f[l * mask], g[l - mask]))
  }

  /** A scalar belongs to either factor. */
  lemma ScaledProduct(data: Table, mask: set<nat>, c: Complex, f: Wave, g: Wave)
    requires ProductOf(data, mask, c, f, g)
    ensures Separable(data, mask)
  {
    hide Times;
    var f2: Wave := imap l: Label | true :: Times(c, f[l]);
    forall l: Label ensures AmplitudeOf(data, l) == Times(ONE, Times(f2[l * mask], g[l - mask])) {
      TimesAssoc(c, f[l * mask], g[l - mask]);
      OneTimes(Times(f2[l * mask], g[l - mask]));
    }
    assert ProductOf(data, mask, ONE, f2, g);
  }

  lemma OneTimes(a: Complex)
    ensures Times(ONE, a) == a
  {
  }

  // ---------------------------------------------------------------- comparing with a base state

  /** The masked part of one label and the other part of another. */
  function Blend(l: Label, m: Label, mask: set<nat>): Label { l * mask + (m - mask) }

  /** Both mixtures of a label with the base are stored, and the cross products agree. */
  predicate Crossed(data: Table, mask: set<nat>, base: Label, l: Label)
    requires base in data && l in data
  {
    && Blend(l, base, mask) in data
    && Blend(base, l, mask) in data
    && Times(data[Blend(l, base, mask)], data[Blend(base, l, mask)]) == Times(data[base], data[l])
  }

  lemma BlendParts(l: Label, m: Label, mask: set<nat>)
    ensures Blend(l, m, mask) * mask == l * mask && Blend(l, m, mask) - mask == m - mask
    ensures Blend(l, l, mask) == l
  {
  }

  /** A product passes every comparison. */
  lemma ProductIsCrossed(data: Table, mask: set<nat>, base: Label, l: Label)
    requires Separable(data, mask) && NoZeros(data) && base in data && l in data
    ensures Crossed(data, mask, base, l)
  {
    hide Times;
    var f: Wave, g: Wave :| ProductOf(data, mask, ONE, f, g);
    var xb, bx := Blend(l, base, mask), Blend(base, l, mask);
    BlendParts(l, base, mask);
    BlendParts(base, l, mask);
    var f0, f1, g0, g1 := f[base * mask], f[l * mask], g[base - mask], g[l - mask];
    OneTimes(Times(f0, g0));
    OneTimes(Times(f1, g1));
    OneTimes(Times(f1, g0));
    OneTimes(Times(f0, g1));
    assert AmplitudeOf(data, base) == Times(f0, g0) != ZERO;
    assert AmplitudeOf(data, l) == Times(f1, g1) != ZERO;
    assert AmplitudeOf(data, xb) == Times(f1, g0);
    assert AmplitudeOf(data, bx) == Times(f0, g1);
    TimesZero(f0, g0);
    TimesZero(f1, g1);
    TimesZero(f1, g0);
    TimesZero(f0, g1);
    CrossTimes(f0, f1, g0, g1);
  }

  lemma CrossTimes(f0: Complex, f1: Complex, g0: Complex, g1: Complex)
    ensures Times(Times(f1, g0), Times(f0, g1)) == Times(Times(f0, g0), Times(f1, g1))
  {
    hide Times;
    TimesAssoc(f1, g0, Times(f0, g1));
    Rotate(g0, f0, g1);
    TimesComm(f1, Times(f0, Times(g0, g1)));
    TimesAssoc(f0, g0, Times(f1, g1));
    Rotate(g0, f1, g1);
    Rotate(f0, f1, Times(g0, g1));
  }

  // ---------------------------------------------------------------- the two factors

  function Firsts(labels: set<Label>, mask: set<nat>): set<Label> { set l | l in labels :: l * mask }

  function Seconds(labels: set<Label>, mask: set<nat>): set<Label> { set l | l in labels :: l - mask }

  /** `w` holds, for the masked part of each label, the amplitude beside the base's other part over that of the base. */
  ghost predicate FirstFactor(data: Table, mask: set<nat>, base: Label, done: set<Label>, w: Table)
    requires base in data
  {
    && w.Keys == Firsts(done, mask)
    && forall l :: l in done ==> Times(AmplitudeOf(w, l * mask), data[base]) == AmplitudeOf(data, Blend(l, base, mask))
  }

  ghost predicate SecondFactor(data: Table, mask: set<nat>, base: Label, done: set<Label>, w: Table)
    requires base in data
  {
    && w.Keys == Seconds(done, mask)
    && forall l :: l in done ==> Times(AmplitudeOf(w, l - mask), data[base]) == AmplitudeOf(data, Blend(base, l, mask))
  }

  /** The quotient the split stores does not depend on the label it is taken from. */
  lemma QuotientOfCross(xx: Complex, bb: Complex, xb: Complex, bx: Complex)
    requires Times(xb, bx) == Times(bb, xx) && bx != ZERO
    ensures Times(Over(xx, bx), bb) == xb
  {
    hide Times, Over;
    var w := Over(xx, bx);
    OverTimes(xx, bx);
    TimesAssoc(w, bb, bx);
    TimesComm(bb, bx);
    TimesAssoc(w, bx, bb);
    TimesComm(xx, bb);
    Cancel(Times(w, bb), xb, bx);
  }

  lemma FirstFactorStep(data: Table, mask: set<nat>, base: Label, done: set<Label>, w: Table, l: Label)
    requires NoZeros(data) && base in data && l in data && Crossed(data, mask, base, l)
    requires FirstFactor(data, mask, base, done, w)
    ensures FirstFactor(data, mask, base, done + {l},
              if l * mask in w then w else w[l * mask := Over(data[l], data[Blend(base, l, mask)])])
  {
    hide Times, Over;
    assert Firsts(done + {l}, mask) == Firsts(done, mask) + {l * mask};
    if l * mask in w {
      var m :| m in done && m * mask == l * mask;
      assert Blend(m, base, mask) == Blend(l, base, mask);
    } else {
      QuotientOfCross(data[l], data[base], data[Blend(l, base, mask)], data[Blend(base, l, mask)]);
    }
  }

  lemma SecondFactorStep(data: Table, mask: set<nat>, base: Label, done: set<Label>, w: Table, l: Label)
    requires NoZeros(data) && base in data && l in data && Crossed(data, mask, base, l)
    requires SecondFactor(data, mask, base, done, w)
    ensures SecondFactor(data, mask, base, done + {l},
              if l - mask in w then w else w[l - mask := Over(data[l], data[Blend(l, base, mask)])])
  {
    hide Times, Over;
    assert Seconds(done + {l}, mask) == Seconds(done, mask) + {l - mask};
    if l - mask in w {
      var m :| m in done && m - mask == l - mask;
      assert Blend(base, m, mask) == Blend(base, l, mask);
    } else {
      TimesComm(data[Blend(l, base, mask)], data[Blend(base, l, mask)]);
      QuotientOfCross(data[l], data[base], data[Blend(base, l, mask)], data[Blend(l, base, mask)]);
    }
  }

  lemma FactorsStart(data: Table, mask: set<nat>, base: Label)
    requires base in data
    ensures FirstFactor(data, mask, base, {base}, map[base * mask := ONE])
    ensures SecondFactor(data, mask, base, {base}, map[base - mask := ONE])
    ensures Crossed(data, mask, base, base)
  {
    hide Times;
    BlendParts(base, base, mask);
    OneTimes(data[base]);
  }

  // ---------------------------------------------------------------- counting the support

  /** All mixtures of a masked part and another part. */
  function Grid(xs: set<Label>, ys: set<Label>): set<Label> { set x, y | x in xs && y in ys :: x + y }

  predicate PartsOf(xs: set<Label>, ys: set<Label>, mask: set<nat>) {
    (forall x :: x in xs ==> x <= mask) && (forall y :: y in ys ==> y !! mask)
  }

  lemma {:induction false} RowSize(x: Label, ys: set<Label>, mask: set<nat>)
    requires PartsOf({x}, ys, mask)
    ensures |Grid({x}, ys)| == |ys|
  {
    hide Grid, PartsOf;
    if ys == {} {
      EmptyRow(x);
    } else {
      var y :| y in ys;
      var rest := ys - {y};
      FewerParts({x}, ys, {x}, rest, mask);
      RowSize(x, rest, mask);
      assert rest + {y} == ys;
      NewInRow(x, rest, y, mask);
    }
  }

  lemma FewerParts(xs: set<Label>, ys: set<Label>, xs2: set<Label>, ys2: set<Label>, mask: set<nat>)
    requires PartsOf(xs, ys, mask) && xs2 <= xs && ys2 <= ys
    ensures PartsOf(xs2, ys2, mask)
  {
  }

  lemma EmptyRow(x: Label)
    ensures Grid({x}, {}) == {}
  {
  }

  lemma NewInRow(x: Label, ys: set<Label>, y: Label, mask: set<nat>)
    requires PartsOf({x}, ys + {y}, mask) && y !in ys
    ensures Grid({x}, ys + {y}) == Grid({x}, ys) + {x + y} && x + y !in Grid({x}, ys)
  {
    assert x in {x} && y in ys + {y};
    forall z | z in ys ensures x + z != x + y {
      assert z in ys + {y};
      assert (x + z) - mask == z && (x + y) - mask == y;
    }
    forall l ensures l in Grid({x}, ys + {y}) <==> l in Grid({x}, ys) + {x + y} {
    }
  }

  lemma GridSplit(xs: set<Label>, x: Label, ys: set<Label>)
    requires x in xs
    ensures Grid(xs, ys) == Grid(xs - {x}, ys) + Grid({x}, ys)
  {
    forall l ensures l in Grid(xs, ys) <==> l in Grid(xs - {x}, ys) + Grid({x}, ys) {
    }
  }

  lemma RowsApart(xs: set<Label>, x: Label, ys: set<Label>, mask: set<nat>)
    requires PartsOf(xs, ys, mask) && x in xs
    ensures Grid(xs - {x}, ys) !! Grid({x}, ys)
  {
    forall l | l in Grid(xs - {x}, ys) ensures l !in Grid({x}, ys) {
      var z, w :| z in xs - {x} && w in ys && l == z + w;
      assert l * mask == z;
      forall y | y in ys ensures l != x + y {
        assert (x + y) * mask == x;
      }
    }
  }

  /** A grid has as many labels as its sides multiplied. */
  lemma {:induction false} GridSize(xs: set<Label>, ys: set<Label>, mask: set<nat>)
    requires PartsOf(xs, ys, mask)
    ensures |Grid(xs, ys)| == |xs| * |ys|
  {
    hide Grid, PartsOf;
    if xs == {} {
      EmptyGrid(ys);
    } else {
      var x :| x in xs;
      FewerParts(xs, ys, xs - {x}, ys, mask);
      FewerParts(xs, ys, {x}, ys, mask);
      GridSize(xs - {x}, ys, mask);
      RowSize(x, ys, mask);
      GridSplit(xs, x, ys);
      RowsApart(xs, x, ys, mask);
      assert |xs| == |xs - {x}| + 1;
      assert (|xs - {x}| + 1) * |ys| == |xs - {x}| * |ys| + |ys|;
    }
  }

  lemma EmptyGrid(ys: set<Label>)
    ensures Grid({}, ys) == {}
  {
  }

  lemma {:induction false} SameSize(a: set<Label>, b: set<Label>)
    requires a <= b && |a| == |b|
    ensures a == b
  {
    assert |b - a| == |b| - |a|;
  }

  lemma PartsApart(labels: set<Label>, mask: set<nat>)
    ensures PartsOf(Firsts(labels, mask), Seconds(labels, mask), mask)
  {
  }

  lemma InOwnGrid(labels: set<Label>, mask: set<nat>, l: Label)
    requires l in labels
    ensures l in Grid(Firsts(labels, mask), Seconds(labels, mask))
  {
    assert l * mask in Firsts(labels, mask) && l - mask in Seconds(labels, mask) && l * mask + (l - mask) == l;
  }

  /** The labels lie in the grid of their parts, and fill it exactly when the sizes agree. */
  lemma GridFilled(labels: set<Label>, mask: set<nat>)
    ensures labels <= Grid(Firsts(labels, mask), Seconds(labels, mask))
    ensures |labels| == |Firsts(labels, mask)| * |Seconds(labels, mask)|
      <==> labels == Grid(Firsts(labels, mask), Seconds(labels, mask))
  {
    hide Grid, Firsts, Seconds;
    var xs, ys := Firsts(labels, mask), Seconds(labels, mask);
    PartsApart(labels, mask);
    GridSize(xs, ys, mask);
    forall l | l in labels ensures l in Grid(xs, ys) {
      InOwnGrid(labels, mask, l);
    }
    if |labels| == |xs| * |ys| {
      SameSize(labels, Grid(xs, ys));
    }
  }

  /** A product has a full grid. */
  lemma ProductFillsGrid(data: Table, mask: set<nat>)
    requires Separable(data, mask) && NoZeros(data)
    ensures data.Keys == Grid(Firsts(data.Keys, mask), Seconds(data.Keys, mask))
  {
    hide Separable, NoZeros, Firsts, Seconds;
    var xs, ys := Firsts(data.Keys, mask), Seconds(data.Keys, mask);
    GridFilled(data.Keys, mask);
    forall l | l in Grid(xs, ys) ensures l in data.Keys {
      var x, y :| x in xs && y in ys && l == x + y;
      ProductHasPair(data, mask, x, y);
    }
  }

  lemma ProductHasPair(data: Table, mask: set<nat>, x: Label, y: Label)
    requires Separable(data, mask) && NoZeros(data)
    requires x in Firsts(data.Keys, mask) && y in Seconds(data.Keys, mask)
    ensures x + y in data.Keys
  {
    hide Separable, NoZeros, Times;
    var l :| l in data.Keys && l * mask == x;
    var m :| m in data.Keys && m - mask == y;
    ProductIsCrossed(data, mask, m, l);
  }

  // ---------------------------------------------------------------- the verdict

  /**
   When the factors cover the whole state and the grid is full, the
   state is their product times the base amplitude.
   */
  lemma FactorsMultiply(data: Table, mask: set<nat>, base: Label, w1: Table, w2: Table)
    requires base in data && NoZeros(data) && forall l :: l in data ==> Crossed(data, mask, base, l)
    requires FirstFactor(data, mask, base, data.Keys, w1) && SecondFactor(data, mask, base, data.Keys, w2)
    requires data.Keys == Grid(Firsts(data.Keys, mask), Seconds(data.Keys, mask))
    ensures ProductOf(data, mask, data[base], WaveOf(w1), WaveOf(w2))
  {
    hide Times, Crossed, FirstFactor, SecondFactor, NoZeros, Grid, Firsts, Seconds;
    forall l: Label
      ensures AmplitudeOf(data, l) == Times(data[base], Times(AmplitudeOf(w1, l * mask), AmplitudeOf(w2, l - mask)))
    {
      if l in data {
        StoredProduct(data, mask, base, w1, w2, l);
      } else {
        AbsentProduct(data, mask, base, w1, w2, l);
      }
    }
  }

  lemma StoredProduct(data: Table, mask: set<nat>, base: Label, w1: Table, w2: Table, l: Label)
    requires base in data && NoZeros(data) && l in data && Crossed(data, mask, base, l)
    requires FirstFactor(data, mask, base, data.Keys, w1) && SecondFactor(data, mask, base, data.Keys, w2)
    ensures data[l] == Times(data[base], Times(AmplitudeOf(w1, l * mask), AmplitudeOf(w2, l - mask)))
  {
    hide Times, Crossed;
    CrossedValues(data, mask, base, l);
    assert l in data.Keys;
    ProductFromCross(data[base], data[l], AmplitudeOf(w1, l * mask), AmplitudeOf(w2, l - mask));
  }

  lemma AbsentProduct(data: Table, mask: set<nat>, base: Label, w1: Table, w2: Table, l: Label)
    requires base in data && l !in Grid(Firsts(data.Keys, mask), Seconds(data.Keys, mask))
    requires FirstFactor(data, mask, base, data.Keys, w1) && SecondFactor(data, mask, base, data.Keys, w2)
    ensures Times(data[base], Times(AmplitudeOf(w1, l * mask), AmplitudeOf(w2, l - mask))) == ZERO
  {
    hide Times, Grid;
    var u, v := AmplitudeOf(w1, l * mask), AmplitudeOf(w2, l - mask);
    NotInGrid(data.Keys, mask, l);
    assert u == ZERO || v == ZERO;
    TimesZero(u, v);
    TimesZero(data[base], Times(u, v));
  }

  lemma NotInGrid(labels: set<Label>, mask: set<nat>, l: Label)
    requires l !in Grid(Firsts(labels, mask), Seconds(labels, mask))
    ensures l * mask !in Firsts(labels, mask) || l - mask !in Seconds(labels, mask)
  {
    assert l * mask + (l - mask) == l;
  }

  lemma CrossedValues(data: Table, mask: set<nat>, base: Label, l: Label)
    requires base in data && l in data && Crossed(data, mask, base, l)
    ensures Times(AmplitudeOf(data, Blend(l, base, mask)), AmplitudeOf(data, Blend(base, l, mask)))
      == Times(data[base], data[l])
  {
    hide Times;
  }

  lemma ProductFromCross(c: Complex, x: Complex, u: Complex, v: Complex)
    requires c != ZERO && Times(Times(u, c), Times(v, c)) == Times(c, x)
    ensures x == Times(c, Times(u, v))
  {
    hide Times;
    CrossTimes(c, u, c, v);
    TimesComm(v, c);
    TimesAssoc(c, c, Times(u, v));
    TimesComm(c, x);
    TimesComm(c, Times(c, Times(u, v)));
    Cancel(x, Times(c, Times(u, v)), c);
  }

  /** The size comparison at the end decides whether the state is a product, and then it is that of the factors. */
  lemma SizesDecide(data: Table, mask: set<nat>, base: Label, w1: Table, w2: Table)
    requires base in data && NoZeros(data) && forall l :: l in data ==> Crossed(data, mask, base, l)
    requires FirstFactor(data, mask, base, data.Keys, w1) && SecondFactor(data, mask, base, data.Keys, w2)
    ensures |data| == |w1| * |w2| <==> Separable(data, mask)
    ensures |data| == |w1| * |w2| ==> ProductOf(data, mask, data[base], WaveOf(w1), WaveOf(w2))
  {
    hide Times, Crossed, Grid, ProductOf, Separable;
    GridFilled(data.Keys, mask);
    assert |data| == |data.Keys| && |w1| == |w1.Keys| && |w2| == |w2.Keys|;
    if |data| == |w1| * |w2| {
      FactorsMultiply(data, mask, base, w1, w2);
      ScaledProduct(data, mask, data[base], WaveOf(w1), WaveOf(w2));
    }
    if Separable(data, mask) {
      ProductFillsGrid(data, mask);
    }
  }
}
