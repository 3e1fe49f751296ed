/** Queueing gates lazily preserves meaning: the proofs about LazyQueue. */
module LazyMeaning {
  import opened Amplitudes
  import opened Operators
  import opened Gates
  import opened LazyQueue

  // ---------------------------------------------------------------- states up to a phase

  lemma ScaledOne(w: Wave)
    ensures Scaled(ONE, w) == w
  {
    forall l: Label ensures Scaled(ONE, w)[l] == w[l] {
      TimesUnit(w[l]);
    }
    hide *;
    SameWave(Scaled(ONE, w), w);
  }

  lemma ScaledScaled(u: Complex, v: Complex, w: Wave)
    ensures Scaled(u, Scaled(v, w)) == Scaled(Times(u, v), w)
  {
    forall l: Label ensures Scaled(u, Scaled(v, w))[l] == Scaled(Times(u, v), w)[l] {
      TimesAssoc(u, v, w[l]);
    }
    hide *;
    SameWave(Scaled(u, Scaled(v, w)), Scaled(Times(u, v), w));
  }

  lemma SameRefl(w: Wave)
    ensures SameState(w, w)
  {
    ScaledOne(w);
    assert Norm(ONE) == 1.0;
  }

  lemma SameByPhase(u: Complex, w: Wave)
    requires Norm(u) == 1.0
    ensures SameState(Scaled(u, w), w)
  {
  }

  lemma SameTrans(a: Wave, b: Wave, c: Wave)
    requires SameState(a, b) && SameState(b, c)
    ensures SameState(a, c)
  {
    var u: Complex :| Norm(u) == 1.0 && a == Scaled(u, b);
    var v: Complex :| Norm(v) == 1.0 && b == Scaled(v, c);
    ScaledScaled(u, v, c);
    NormTimes(u, v);
    assert Norm(Times(u, v)) == 1.0;
  }

  lemma SameSym(a: Wave, b: Wave)
    requires SameState(a, b)
    ensures SameState(b, a)
  {
    var u: Complex :| Norm(u) == 1.0 && a == Scaled(u, b);
    var v := Complex(u.re, -u.im);
    Conjugate(u);
    ScaledScaled(v, u, b);
    ScaledOne(b);
    hide *;
    SameByPhase(v, a);
  }

  lemma Conjugate(u: Complex)
    requires Norm(u) == 1.0
    ensures Times(Complex(u.re, -u.im), u) == ONE && Norm(Complex(u.re, -u.im)) == 1.0
  {
    NegatedSquare(u.im, -u.im, u.im * u.im);
  }

  lemma SameApply(g: Operator, a: Wave, b: Wave)
    requires SameState(a, b)
    ensures SameState(Apply(g, a), Apply(g, b))
  {
    var u: Complex :| Norm(u) == 1.0 && a == Scaled(u, b);
    ApplyScaled(g, u, b);
  }

  lemma OnIsApply(u: Mat, q: nat, w: Wave)
    ensures Apply(OnQubit({}, u, q), w) == On(u, q, w)
  {
    UncontrolledIsOn(u, q, w);
  }

  lemma SameOn(u: Mat, q: nat, a: Wave, b: Wave)
    requires SameState(a, b)
    ensures SameState(On(u, q, a), On(u, q, b))
  {
    SameApply(OnQubit({}, u, q), a, b);
    OnIsApply(u, q, a);
    OnIsApply(u, q, b);
  }

  lemma OnCommute(u: Mat, q: nat, v: Mat, r: nat, w: Wave)
    requires q != r
    ensures On(u, q, On(v, r, w)) == On(v, r, On(u, q, w))
  {
    CommuteOutside(OnQubit({}, u, q), v, r, w);
    OnIsApply(u, q, On(v, r, w));
    OnIsApply(u, q, w);
  }

  // ---------------------------------------------------------------- the layer of pending gates

  lemma LayerStep(r: real, pend: seq<Pending>, k: nat, w: Wave)
    requires 0 < k <= |pend|
    ensures Layer(r, pend, k, w) == On(PendingMat(r, pend[k - 1]), k - 1, Layer(r, pend, k - 1, w))
  {
    hide On, PendingMat;
  }

  lemma LayerNone(r: real, pend: seq<Pending>, w: Wave)
    ensures Layer(r, pend, 0, w) == w
  {
    hide On, PendingMat;
  }

  lemma SameLayer(r: real, pend: seq<Pending>, k: nat, a: Wave, b: Wave)
    requires k <= |pend| && SameState(a, b)
    ensures SameState(Layer(r, pend, k, a), Layer(r, pend, k, b))
  {
    hide *;
    if k == 0 {
      LayerNone(r, pend, a);
      LayerNone(r, pend, b);
    } else {
      LayerStep(r, pend, k, a);
      LayerStep(r, pend, k, b);
      SameLayer(r, pend, k - 1, a, b);
      SameOn(PendingMat(r, pend[k - 1]), k - 1, Layer(r, pend, k - 1, a), Layer(r, pend, k - 1, b));
    }
  }

  lemma LayerFrame(r: real, pend: seq<Pending>, pend': seq<Pending>, k: nat, w: Wave)
    requires k <= |pend| && k <= |pend'| && pend[..k] == pend'[..k]
    ensures Layer(r, pend, k, w) == Layer(r, pend', k, w)
  {
    hide *;
    if k == 0 {
      LayerNone(r, pend, w);
      LayerNone(r, pend', w);
    } else {
      LayerStep(r, pend, k, w);
      LayerStep(r, pend', k, w);
      assert pend[..k - 1] == pend[..k][..k - 1] == pend'[..k - 1];
      assert pend[k - 1] == pend[..k][k - 1] == pend'[k - 1];
      LayerFrame(r, pend, pend', k - 1, w);
    }
  }

  lemma NothingIsIdentity(r: real, p: Pending)
    requires p.Nothing()
    ensures PendingMat(r, p) == ID
  {
    MatTimesIdentity(ID);
  }

  lemma NothingHasNothing()
    ensures NOTHING.Nothing() && NOTHING.Tidy()
  {
  }

  /** The matrix pending on one qubit may be applied last. */
  lemma Extract(r: real, pend: seq<Pending>, k: nat, q: nat, w: Wave)
    requires q < k <= |pend|
    ensures Layer(r, pend, k, w) == On(PendingMat(r, pend[q]), q, Layer(r, pend[q := NOTHING], k, w))
  {
    hide *;
    var cleared := pend[q := NOTHING];
    LayerStep(r, pend, k, w);
    LayerStep(r, cleared, k, w);
    if k - 1 == q {
      NothingHasNothing();
      NothingIsIdentity(r, NOTHING);
      OnIdentity(q, Layer(r, cleared, q, w));
      LayerFrame(r, pend, cleared, q, w);
    } else {
      Extract(r, pend, k - 1, q, w);
      OnCommute(PendingMat(r, pend[k - 1]), k - 1, PendingMat(r, pend[q]), q, Layer(r, cleared, k - 1, w));
    }
  }

  predicate Untouched(pend: seq<Pending>, g: Operator) {
    forall j :: 0 <= j < |pend| && j in Support(g) ==> pend[j].Nothing()
  }

  /** An operator passes the layer when nothing is pending on the qubits it touches. */
  lemma LayerCommute(r: real, pend: seq<Pending>, k: nat, g: Operator, w: Wave)
    requires k <= |pend| && Untouched(pend, g)
    ensures Layer(r, pend, k, Apply(g, w)) == Apply(g, Layer(r, pend, k, w))
  {
    hide On, PendingMat, Apply, Support, Layer, Pending.Nothing;
    if k == 0 {
      LayerNone(r, pend, w);
      LayerNone(r, pend, Apply(g, w));
    } else {
      LayerStep(r, pend, k, w);
      LayerStep(r, pend, k, Apply(g, w));
      LayerCommute(r, pend, k - 1, g, w);
      if k - 1 in Support(g) {
        NothingIsIdentity(r, pend[k - 1]);
        OnIdentity(k - 1, Layer(r, pend, k - 1, Apply(g, w)));
        OnIdentity(k - 1, Layer(r, pend, k - 1, w));
      } else {
        CommuteOutside(g, PendingMat(r, pend[k - 1]), k - 1, Layer(r, pend, k - 1, w));
      }
    }
  }

  /** The whole layer. */
  ghost function All(r: real, pend: seq<Pending>, w: Wave): Wave { Layer(r, pend, |pend|, w) }

  lemma Focus(r: real, pend: seq<Pending>, q: nat, w: Wave)
    requires q < |pend|
    ensures All(r, pend, w) == On(PendingMat(r, pend[q]), q, All(r, pend[q := NOTHING], w))
  {
    Extract(r, pend, |pend|, q, w);
  }

  lemma PassAll(r: real, pend: seq<Pending>, g: Operator, w: Wave)
    requires Untouched(pend, g)
    ensures All(r, pend, Apply(g, w)) == Apply(g, All(r, pend, w))
  {
    LayerCommute(r, pend, |pend|, g, w);
  }

  /** A matrix on one qubit enters the layer as `u2`, leaving `p2` pending there. */
  lemma Absorb(r: real, pend: seq<Pending>, q: nat, u: Mat, p2: Pending, u2: Mat, w: Wave)
    requires q < |pend|
    requires MatTimes(u, PendingMat(r, pend[q])) == MatTimes(PendingMat(r, p2), u2)
    ensures On(u, q, All(r, pend, w)) == All(r, pend[q := p2], On(u2, q, w))
  {
    hide All, PendingMat, On, Apply, MatTimes, Controlled, Mixed, Pending.Nothing;
    var rest := pend[q := NOTHING];
    var m, m2 := PendingMat(r, pend[q]), PendingMat(r, p2);
    Focus(r, pend, q, w);
    OnOn(u, m, q, All(r, rest, w));
    OnOn(m2, u2, q, All(r, rest, w));
    OnIsApply(u2, q, w);
    OnIsApply(u2, q, All(r, rest, w));
    NothingHasNothing();
    PassAll(r, rest, OnQubit({}, u2, q), w);
    assert pend[q := p2][q := NOTHING] == rest;
    Focus(r, pend[q := p2], q, On(u2, q, w));
  }

  /** A controlled matrix passes the layer when nothing is pending on its controls. */
  lemma PassTargetLayer(r: real, pend: seq<Pending>, cs: set<nat>, q: nat, u: Mat, u2: Mat, w: Wave)
    requires q < |pend| && q !in cs
    requires forall c :: 0 <= c < |pend| && c in cs ==> pend[c].Nothing()
    requires MatTimes(u, PendingMat(r, pend[q])) == MatTimes(PendingMat(r, pend[q]), u2)
    ensures Controlled(cs, u, q, All(r, pend, w)) == All(r, pend, Controlled(cs, u2, q, w))
  {
    hide All, PendingMat, On, MatTimes, Controlled, Mixed, Pending.Nothing;
    var rest := pend[q := NOTHING];
    var m := PendingMat(r, pend[q]);
    NothingHasNothing();
    Focus(r, pend, q, w);
    PassTarget(cs, u, m, u2, q, All(r, rest, w));
    PassAll(r, rest, OnQubit(cs, u2, q), w);
    Focus(r, pend, q, Controlled(cs, u2, q, w));
  }

  // ---------------------------------------------------------------- flushing keeps the meaning

  /** The stored rotation kernel is the rotation, up to a global phase. */
  lemma RotatedIsRotation(axisY: bool, a: Angle, q: nat, w: Wave)
    ensures SameState(Rotated(axisY, a, q, w), On(if axisY then RyMat(a) else RxMat(a), q, w))
  {
    if a.c == 0.0 {
      assert Norm(Complex(0.0, -a.s)) == 1.0 by { NegatedSquare(a.s, -a.s, a.s * a.s); }
      HalfTurn(axisY, a);
      MultipleIsSame(Complex(0.0, -a.s), if axisY then Y_MAT else X_MAT, q, w);
    } else if a.s == 0.0 {
      FullTurn(axisY, a);
      assert Norm(Real(a.c)) == 1.0;
      MultipleIsSame(Real(a.c), ID, q, w);
      OnIdentity(q, w);
    } else {
      SameRefl(On(if axisY then RyMat(a) else RxMat(a), q, w));
    }
    hide On, SameState;
  }

  lemma HalfTurn(axisY: bool, a: Angle)
    requires a.c == 0.0
    ensures MatScaled(Complex(0.0, -a.s), if axisY then Y_MAT else X_MAT) == if axisY then RyMat(a) else RxMat(a)
  {
  }

  lemma FullTurn(axisY: bool, a: Angle)
    requires a.s == 0.0
    ensures MatScaled(Real(a.c), ID) == if axisY then RyMat(a) else RxMat(a)
  {
  }

  lemma MultipleIsSame(k: Complex, u: Mat, q: nat, w: Wave)
    requires Norm(k) == 1.0
    ensures SameState(On(u, q, w), On(MatScaled(k, u), q, w))
  {
    OnScaled(k, u, q, w);
    hide *;
    SameByPhase(k, On(u, q, w));
    SameSym(Scaled(k, On(u, q, w)), On(u, q, w));
  }

  lemma DenotedIsAll(s: Sim)
    ensures Denoted(s) == All(s.r, s.pend, RunQueue(s.queue, s.psi))
    ensures s.queue == [] ==> RunQueue(s.queue, s.psi) == s.psi
  {
    hide Layer;
  }

  lemma RunPush(ops: seq<Operation>, op: Operation, w: Wave)
    ensures RunQueue(ops + [op], w) == Apply(AsOperator(op), RunQueue(ops, w))
  {
    assert (ops + [op])[..|ops + [op]| - 1] == ops;
    hide Apply, AsOperator;
  }

  lemma FlushQueueKeeps(s: Sim)
    ensures Denoted(FlushQueue(s)) == Denoted(s)
    ensures Valid(s) ==> Valid(FlushQueue(s))
  {
    DenotedIsAll(s);
    DenotedIsAll(FlushQueue(s));
    hide Denoted, RunQueue, All;
  }

  /** What is left pending on a qubit after a flush up to `level`. */
  function Flushed(p: Pending, level: Level): Pending {
    match level
    case LevelQueue => p
    case LevelH => p.(h := false)
    case LevelRx => p.(h := false, x := false, ax := if p.x then NO_ANGLE else p.ax)
    case LevelRy =>
      p.(h := false, x := false, ax := if p.x then NO_ANGLE else p.ax, y := false, ay := if p.y then NO_ANGLE else p.ay)
  }

  lemma TakeH(r: real, p: Pending)
    requires p.h
    ensures MatTimes(ID, PendingMat(r, p)) == MatTimes(PendingMat(r, p.(h := false)), HMat(r))
  {
    hide MatTimes, RxMat, RyMat, HMat;
    var x, y := XPart(p), YPart(p);
    MatTimesIdentity(PendingMat(r, p));
    MatTimesIdentity(x);
    MatTimesAssoc(y, x, HMat(r));
  }

  lemma TakeRx(r: real, p: Pending)
    requires p.x && !p.h
    ensures MatTimes(ID, PendingMat(r, p)) == MatTimes(PendingMat(r, p.(x := false, ax := NO_ANGLE)), RxMat(p.ax))
  {
    hide MatTimes, RxMat, RyMat, HMat;
    MatTimesIdentity(PendingMat(r, p));
    MatTimesIdentity(RxMat(p.ax));
    MatTimesIdentity(ID);
    MatTimesIdentity(YPart(p));
  }

  lemma TakeRy(r: real, p: Pending)
    requires p.y && !p.h && !p.x
    ensures MatTimes(ID, PendingMat(r, p)) == MatTimes(PendingMat(r, p.(y := false, ay := NO_ANGLE)), RyMat(p.ay))
  {
    hide MatTimes, RxMat, RyMat, HMat;
    MatTimesIdentity(PendingMat(r, p));
    MatTimesIdentity(ID);
    MatTimesIdentity(RyMat(p.ay));
  }

  /** A matrix may move from the layer into the state below it. */
  lemma Release(r: real, pend: seq<Pending>, q: nat, p2: Pending, u: Mat, w: Wave)
    requires q < |pend|
    requires MatTimes(ID, PendingMat(r, pend[q])) == MatTimes(PendingMat(r, p2), u)
    ensures All(r, pend, w) == All(r, pend[q := p2], On(u, q, w))
  {
    hide *;
    Absorb(r, pend, q, ID, p2, u, w);
    OnIdentity(q, All(r, pend, w));
  }

  lemma FlushHKeeps(s: Sim, q: nat)
    requires q < |s.pend| && s.queue == []
    ensures Denoted(FlushH(s, q)) == Denoted(s)
  {
    hide Denoted, On, All, HMat, PendingMat, MatTimes;
    var t := FlushH(s, q);
    if s.pend[q].h {
      DenotedIsAll(s);
      DenotedIsAll(t);
      TakeH(s.r, s.pend[q]);
      Release(s.r, s.pend, q, s.pend[q].(h := false), HMat(s.r), s.psi);
    }
  }

  lemma SameAll(r: real, pend: seq<Pending>, a: Wave, b: Wave)
    requires SameState(a, b)
    ensures SameState(All(r, pend, a), All(r, pend, b))
  {
    SameLayer(r, pend, |pend|, a, b);
    hide SameState, Layer;
  }

  lemma FlushRxKeeps(s: Sim, q: nat)
    requires q < |s.pend| && s.queue == [] && !s.pend[q].h
    ensures SameState(Denoted(FlushRx(s, q)), Denoted(s))
  {
    hide Denoted, On, All, RxMat, PendingMat, MatTimes, Rotated, SameState, PendingMat;
    var t := FlushRx(s, q);
    DenotedIsAll(s);
    DenotedIsAll(t);
    if s.pend[q].x {
      TakeRx(s.r, s.pend[q]);
      Release(s.r, s.pend, q, t.pend[q], RxMat(s.pend[q].ax), s.psi);
      RotatedIsRotation(false, s.pend[q].ax, q, s.psi);
      SameAll(s.r, t.pend, t.psi, On(RxMat(s.pend[q].ax), q, s.psi));
    } else {
      SameRefl(Denoted(s));
    }
  }

  lemma FlushRyKeeps(s: Sim, q: nat)
    requires q < |s.pend| && s.queue == [] && !s.pend[q].h && !s.pend[q].x
    ensures SameState(Denoted(FlushRy(s, q)), Denoted(s))
  {
    hide Denoted, On, All, RyMat, PendingMat, MatTimes, Rotated, SameState, PendingMat;
    var t := FlushRy(s, q);
    DenotedIsAll(s);
    DenotedIsAll(t);
    if s.pend[q].y {
      TakeRy(s.r, s.pend[q]);
      Release(s.r, s.pend, q, t.pend[q], RyMat(s.pend[q].ay), s.psi);
      RotatedIsRotation(true, s.pend[q].ay, q, s.psi);
      SameAll(s.r, t.pend, t.psi, On(RyMat(s.pend[q].ay), q, s.psi));
    } else {
      SameRefl(Denoted(s));
    }
  }

  /** `t` denotes what `s` does, with `pend` left pending and an empty queue. */
  ghost predicate FlushedTo(s: Sim, t: Sim, pend: seq<Pending>) {
    t.queue == [] && t.r == s.r && t.occ == s.occ && t.pend == pend && SameState(Denoted(t), Denoted(s))
  }

  lemma FlushQubitKeeps(s: Sim, q: nat, level: Level)
    requires q < |s.pend| && s.queue == []
    ensures FlushedTo(s, FlushQubit(s, q, level), s.pend[q := Flushed(s.pend[q], level)])
  {
    hide Denoted, On, HMat, Rotated, SameState;
    var t0, t1, t2 := FlushH(s, q), FlushRx(FlushH(s, q), q), FlushRy(FlushRx(FlushH(s, q), q), q);
    SameRefl(Denoted(s));
    FlushHKeeps(s, q);
    FlushRxKeeps(t0, q);
    FlushRyKeeps(t1, q);
    SameTrans(Denoted(t2), Denoted(t1), Denoted(s));
    assert s.pend == s.pend[q := s.pend[q]];
    assert level.LevelH? ==> t0.pend == s.pend[q := Flushed(s.pend[q], level)];
    assert level.LevelRx? ==> t1.pend == s.pend[q := Flushed(s.pend[q], level)];
    assert level.LevelRy? ==> t2.pend == s.pend[q := Flushed(s.pend[q], level)];
  }

  /** The pending gates after the qubits `qs` were flushed. */
  function FlushedOn(pend: seq<Pending>, qs: seq<nat>, level: Level): seq<Pending> {
    seq(|pend|, j requires 0 <= j < |pend| => if j in qs then Flushed(pend[j], level) else pend[j])
  }

  lemma FlushQubitsKeeps(s: Sim, qs: seq<nat>, level: Level)
    requires Within(qs, |s.pend|) && s.queue == []
    ensures FlushedTo(s, FlushQubits(s, qs, level), FlushedOn(s.pend, qs, level))
  {
    hide Denoted, SameState, FlushQubit, IsAngle;
    if qs == [] {
      SameRefl(Denoted(s));
      assert FlushedOn(s.pend, qs, level) == s.pend;
    } else {
      var rest, q := qs[..|qs| - 1], qs[|qs| - 1];
      var t := FlushQubits(s, rest, level);
      FlushQubitsKeeps(s, rest, level);
      FlushQubitKeeps(t, q, level);
      SameTrans(Denoted(FlushQubit(t, q, level)), Denoted(t), Denoted(s));
      assert qs == rest + [q];
      assert t.pend[q := Flushed(t.pend[q], level)] == FlushedOn(s.pend, qs, level);
    }
  }

  lemma FlushKeeps(s: Sim, qs: seq<nat>, level: Level)
    requires Within(qs, |s.pend|)
    ensures FlushedTo(s, Flush(s, qs, level), FlushedOn(s.pend, qs, level))
  {
    FlushQueueKeeps(s);
    FlushQubitsKeeps(FlushQueue(s), qs, level);
    hide Denoted, SameState, FlushQubits, FlushedOn;
  }

  lemma FlushBelowKeeps(s: Sim, k: nat)
    requires k <= |s.pend| && s.queue == []
    ensures FlushedTo(s, FlushBelow(s, k), FlushBelow(s, k).pend)
    ensures forall j :: 0 <= j < k ==> FlushBelow(s, k).pend[j].Nothing()
  {
    hide Denoted, SameState, FlushQubit, IsAngle;
    if k == 0 {
      SameRefl(Denoted(s));
    } else {
      var t := FlushBelow(s, k - 1);
      FlushBelowKeeps(s, k - 1);
      FlushQubitKeeps(t, k - 1, LevelRy);
      SameTrans(Denoted(FlushQubit(t, k - 1, LevelRy)), Denoted(t), Denoted(s));
    }
  }

  lemma NothingLayer(r: real, pend: seq<Pending>, k: nat, w: Wave)
    requires k <= |pend| && forall j :: 0 <= j < |pend| ==> pend[j].Nothing()
    ensures Layer(r, pend, k, w) == w
  {
    hide On, PendingMat, Layer, Pending.Nothing;
    if k == 0 {
      LayerNone(r, pend, w);
    } else {
      LayerStep(r, pend, k, w);
      NothingLayer(r, pend, k - 1, w);
      NothingIsIdentity(r, pend[k - 1]);
      OnIdentity(k - 1, w);
    }
  }

  /** Running everything stores the denoted state, up to a global phase, and leaves nothing pending. */
  lemma FlushAllStores(s: Sim)
    ensures SameState(FlushAll(s).psi, Denoted(s))
    ensures FlushAll(s).queue == [] && |FlushAll(s).pend| == |s.pend|
    ensures forall j :: 0 <= j < |s.pend| ==> FlushAll(s).pend[j].Nothing()
  {
    hide Denoted, SameState, FlushBelow, Layer, RunQueue, All;
    var t := FlushAll(s);
    FlushQueueKeeps(s);
    FlushBelowKeeps(FlushQueue(s), |s.pend|);
    DenotedIsAll(t);
    AllIsLayer(t.r, t.pend, t.psi);
    NothingLayer(t.r, t.pend, |t.pend|, t.psi);
    hide Denoted, SameState, FlushBelow, Layer, RunQueue, IsAngle;
  }

  lemma AllIsLayer(r: real, pend: seq<Pending>, w: Wave)
    ensures All(r, pend, w) == Layer(r, pend, |pend|, w)
  {
    hide Layer;
  }
}
