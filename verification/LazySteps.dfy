/** Every gate queued lazily acts as its textbook operator on the denoted state. */
module LazySteps {
  import opened Amplitudes
  import opened Operators
  import opened Gates
  import opened LazyQueue
  import opened LazyMeaning

  /** `t` is a valid state denoting what the operator `g` makes of the state `s` denotes. */
  ghost predicate Performs(s: Sim, t: Sim, g: Operator) {
    Valid(t) && t.r == s.r && |t.pend| == |s.pend| && SameState(Denoted(t), Apply(g, Denoted(s)))
  }

  // ---------------------------------------------------------------- matrices passing what is pending

  lemma PassThree(u: Mat, y: Mat, x: Mat, h: Mat, y2: Mat, x2: Mat, h2: Mat, u1: Mat, u2: Mat, u3: Mat)
    requires MatTimes(u, y) == MatTimes(y2, u1)
    requires MatTimes(u1, x) == MatTimes(x2, u2)
    requires MatTimes(u2, h) == MatTimes(h2, u3)
    ensures MatTimes(u, MatTimes(y, MatTimes(x, h))) == MatTimes(MatTimes(y2, MatTimes(x2, h2)), u3)
  {
    hide *;
    MatTimesAssoc(u, y, MatTimes(x, h));
    MatTimesAssoc(y2, u1, MatTimes(x, h));
    MatTimesAssoc(u1, x, h);
    MatTimesAssoc(x2, u2, h);
    MatTimesAssoc(x2, h2, u3);
    MatTimesAssoc(y2, MatTimes(x2, h2), u3);
  }

  lemma XPasses(r: real, p: Pending)
    ensures MatTimes(X_MAT, PendingMat(r, p))
         == MatTimes(PendingMat(r, if p.y then p.(ay := Negated(p.ay)) else p), if p.h then Z_MAT else X_MAT)
  {
    hide MatTimes, Negated, HMat, RxMat, RyMat;
    MatTimesIdentity(X_MAT);
    PassRy(p.ay, r);
    PassRx(p.ax);
    XPassH(r);
    ZPassH(r);
    YPassH(r);
    PassThree(X_MAT, YPart(p), XPart(p), HPart(r, p),
              if p.y then RyMat(Negated(p.ay)) else ID, XPart(p), HPart(r, p),
              X_MAT, X_MAT, if p.h then Z_MAT else X_MAT);
  }

  lemma YPasses(r: real, p: Pending)
    ensures MatTimes(Y_MAT, PendingMat(r, p))
         == MatTimes(PendingMat(r, if p.x then p.(ax := Negated(p.ax)) else p),
                     if p.h then MatScaled(MINUS_ONE, Y_MAT) else Y_MAT)
  {
    hide MatTimes, Negated, HMat, RxMat, RyMat, MatScaled;
    MatTimesIdentity(Y_MAT);
    PassRy(p.ay, r);
    PassRx(p.ax);
    XPassH(r);
    ZPassH(r);
    YPassH(r);
    PassThree(Y_MAT, YPart(p), XPart(p), HPart(r, p),
              YPart(p), if p.x then RxMat(Negated(p.ax)) else ID, HPart(r, p), Y_MAT, Y_MAT,
              if p.h then MatScaled(MINUS_ONE, Y_MAT) else Y_MAT);
  }

  function NegatedBoth(p: Pending): Pending {
    p.(ax := if p.x then Negated(p.ax) else p.ax, ay := if p.y then Negated(p.ay) else p.ay)
  }

  lemma ZPasses(r: real, p: Pending)
    ensures MatTimes(Z_MAT, PendingMat(r, p))
         == MatTimes(PendingMat(r, NegatedBoth(p)), if p.h then X_MAT else Z_MAT)
  {
    hide MatTimes, Negated, HMat, RxMat, RyMat;
    MatTimesIdentity(Z_MAT);
    PassRy(p.ay, r);
    PassRx(p.ax);
    XPassH(r);
    ZPassH(r);
    YPassH(r);
    PassThree(Z_MAT, YPart(p), XPart(p), HPart(r, p),
              if p.y then RyMat(Negated(p.ay)) else ID, if p.x then RxMat(Negated(p.ax)) else ID, HPart(r, p),
              Z_MAT, Z_MAT, if p.h then X_MAT else Z_MAT);
  }

  lemma HPasses(r: real, p: Pending)
    requires 2.0 * r * r == 1.0 && !p.x
    ensures MatTimes(HMat(r), PendingMat(r, p))
         == MatTimes(PendingMat(r, p.(h := !p.h, ay := if p.y then Negated(p.ay) else p.ay)), ID)
  {
    hide MatTimes, Negated, HMat, RxMat, RyMat;
    MatTimesIdentity(HMat(r));
    MatTimesIdentity(ID);
    PassRy(p.ay, r);
    HSquared(r);
    PassThree(HMat(r), YPart(p), XPart(p), HPart(r, p),
              if p.y then RyMat(Negated(p.ay)) else ID, ID, if p.h then ID else HMat(r), HMat(r), HMat(r), ID);
  }

  /** A further rotation adds to the pending angle; an unflagged angle is zero. */
  lemma RyJoins(r: real, p: Pending, a: Angle)
    requires p.Tidy()
    ensures MatTimes(RyMat(a), PendingMat(r, p)) == MatTimes(PendingMat(r, p.(y := true, ay := Sum(p.ay, a))), ID)
  {
    RyAdd(a, p.ay);
    SumZero(a);
    hide MatTimes, HMat, RxMat, RyMat, Sum;
    MatTimesIdentity(RyMat(a));
    MatTimesIdentity(XPart(p));
    MatTimesIdentity(HPart(r, p));
    MatTimesIdentity(RyMat(Sum(p.ay, a)));
    MatTimesIdentity(ID);
    PassThree(RyMat(a), YPart(p), XPart(p), HPart(r, p), RyMat(Sum(p.ay, a)), XPart(p), HPart(r, p), ID, ID, ID);
  }

  lemma RxJoins(r: real, p: Pending, a: Angle)
    requires p.Tidy() && !p.y
    ensures MatTimes(RxMat(a), PendingMat(r, p)) == MatTimes(PendingMat(r, p.(x := true, ax := Sum(p.ax, a))), ID)
  {
    RxAdd(a, p.ax);
    SumZero(a);
    hide MatTimes, HMat, RxMat, RyMat, Sum;
    MatTimesIdentity(RxMat(a));
    MatTimesIdentity(HPart(r, p));
    MatTimesIdentity(RxMat(Sum(p.ax, a)));
    PassThree(RxMat(a), ID, XPart(p), HPart(r, p), ID, RxMat(Sum(p.ax, a)), HPart(r, p), RxMat(a), ID, ID);
  }

  lemma SumZero(a: Angle)
    ensures Sum(NO_ANGLE, a) == a
  {
  }

  // ---------------------------------------------------------------- queued operations as matrices

  lemma OpXIs(q: nat, w: Wave)
    ensures Apply(AsOperator(OpX(q)), w) == On(X_MAT, q, w)
  {
    hide On;
    OnIsApply(X_MAT, q, w);
  }

  lemma OpYIs(q: nat, w: Wave)
    ensures Apply(AsOperator(OpY(q)), w) == On(Y_MAT, q, w)
  {
    hide On;
    OnIsApply(Y_MAT, q, w);
  }

  lemma OpZIs(q: nat, w: Wave)
    ensures Apply(AsOperator(OpZ(q)), w) == On(Z_MAT, q, w)
  {
    hide On, Diagonal, Controlled;
    ControlledPhase({}, MINUS_ONE, q, w);
    OnIsApply(Z_MAT, q, w);
    assert {} + {q} == {q};
  }

  lemma PushedDenotes(s: Sim, op: Operation)
    ensures Denoted(Push(s, op)) == All(s.r, s.pend, Apply(AsOperator(op), RunQueue(s.queue, s.psi)))
    ensures forall q: nat :: Denoted(Occupy(Push(s, op), q)) == Denoted(Push(s, op))
  {
    hide All, RunQueue, Apply, AsOperator;
    RunPush(s.queue, op, s.psi);
    DenotedIsAll(Push(s, op));
  }

  lemma Occupied(s: Sim, t: Sim, g: Operator, q: nat)
    requires Performs(s, t, g)
    ensures Performs(s, Occupy(t, q), g)
  {
    hide SameState, Apply, Layer;
  }

  /** A flush may come first. */
  lemma AfterFlush(s: Sim, s1: Sim, t: Sim, g: Operator)
    requires s1.r == s.r && |s1.pend| == |s.pend| && SameState(Denoted(s1), Denoted(s))
    requires Performs(s1, t, g)
    ensures Performs(s, t, g)
  {
    hide SameState, Apply, Denoted;
    SameApply(g, Denoted(s1), Denoted(s));
    SameTrans(Denoted(t), Apply(g, Denoted(s1)), Apply(g, Denoted(s)));
  }

  /** A queued matrix `u2` with `p2` left pending performs the matrix `u`. */
  lemma QueuedPerforms(s: Sim, q: nat, u: Mat, p2: Pending, op: Operation, u2: Mat)
    requires Valid(s) && q < |s.pend| && p2.Tidy()
    requires MatTimes(u, PendingMat(s.r, s.pend[q])) == MatTimes(PendingMat(s.r, p2), u2)
    requires Apply(AsOperator(op), RunQueue(s.queue, s.psi)) == On(u2, q, RunQueue(s.queue, s.psi))
           || SameState(On(u2, q, RunQueue(s.queue, s.psi)), Apply(AsOperator(op), RunQueue(s.queue, s.psi)))
    ensures Performs(s, Push(s.(pend := s.pend[q := p2]), op), OnQubit({}, u, q))
  {
    hide Apply, AsOperator, MatTimes, PendingMat, On, All, Layer, RunQueue, SameState, Denoted;
    var w := RunQueue(s.queue, s.psi);
    var pend2 := s.pend[q := p2];
    DenotedIsAll(s);
    PushedDenotes(s.(pend := pend2), op);
    Absorb(s.r, s.pend, q, u, p2, u2, w);
    OnIsApply(u, q, Denoted(s));
    if Apply(AsOperator(op), w) == On(u2, q, w) {
      SameRefl(All(s.r, pend2, On(u2, q, w)));
    } else {
      SameSym(On(u2, q, w), Apply(AsOperator(op), w));
      SameAll(s.r, pend2, Apply(AsOperator(op), w), On(u2, q, w));
    }
  }

  lemma XPerforms(s: Sim, q: nat)
    requires Valid(s) && q < |s.pend|
    ensures Performs(s, StepX(s, q), Ideal(X(q), s.r))
  {
    hide Apply, Denoted, MatTimes, PendingMat, On, AsOperator, RunQueue, SameState, Negated, Performs;
    var p := s.pend[q];
    var p2 := if p.y then p.(ay := Negated(p.ay)) else p;
    var op := if p.h then OpZ(q) else OpX(q);
    var w := RunQueue(s.queue, s.psi);
    XPasses(s.r, p);
    OpXIs(q, w);
    OpZIs(q, w);
    QueuedPerforms(s, q, X_MAT, p2, op, if p.h then Z_MAT else X_MAT);
    assert s.pend[q := p] == s.pend;
    Occupied(s, Push(s.(pend := s.pend[q := p2]), op), OnQubit({}, X_MAT, q), q);
  }

  lemma YPerforms(s: Sim, q: nat)
    requires Valid(s) && q < |s.pend|
    ensures Performs(s, StepY(s, q), Ideal(Y(q), s.r))
  {
    hide Apply, Denoted, MatTimes, PendingMat, On, AsOperator, RunQueue, SameState, Negated, Performs, MatScaled,
         Scaled;
    var p := s.pend[q];
    var p2 := if p.x then p.(ax := Negated(p.ax)) else p;
    var w := RunQueue(s.queue, s.psi);
    var u2 := if p.h then MatScaled(MINUS_ONE, Y_MAT) else Y_MAT;
    YPasses(s.r, p);
    OpYIs(q, w);
    OnScaled(MINUS_ONE, Y_MAT, q, w);
    assert Norm(MINUS_ONE) == 1.0;
    SameByPhase(MINUS_ONE, On(Y_MAT, q, w));
    QueuedPerforms(s, q, Y_MAT, p2, OpY(q), u2);
    assert s.pend[q := p] == s.pend;
    Occupied(s, Push(s.(pend := s.pend[q := p2]), OpY(q)), OnQubit({}, Y_MAT, q), q);
  }

  lemma ZPerforms(s: Sim, q: nat)
    requires Valid(s) && q < |s.pend|
    ensures Performs(s, StepZ(s, q), Ideal(Z(q), s.r))
  {
    hide Apply, Denoted, MatTimes, PendingMat, On, AsOperator, RunQueue, SameState, Negated, Performs;
    var p := s.pend[q];
    var op := if p.h then OpX(q) else OpZ(q);
    var w := RunQueue(s.queue, s.psi);
    ZPasses(s.r, p);
    OpXIs(q, w);
    OpZIs(q, w);
    QueuedPerforms(s, q, Z_MAT, NegatedBoth(p), op, if p.h then X_MAT else Z_MAT);
    Occupied(s, Push(s.(pend := s.pend[q := NegatedBoth(p)]), op), OnQubit({}, Z_MAT, q), q);
  }

  /** The matrix `u` done by leaving `p2` pending. */
  lemma PendingPerforms(s: Sim, q: nat, u: Mat, p2: Pending)
    requires Valid(s) && q < |s.pend| && p2.Tidy()
    requires MatTimes(u, PendingMat(s.r, s.pend[q])) == MatTimes(PendingMat(s.r, p2), ID)
    ensures Performs(s, s.(pend := s.pend[q := p2]), OnQubit({}, u, q))
  {
    hide Apply, MatTimes, PendingMat, On, All, Layer, RunQueue, SameState, Denoted;
    var w := RunQueue(s.queue, s.psi);
    var t := s.(pend := s.pend[q := p2]);
    DenotedIsAll(s);
    DenotedIsAll(t);
    Absorb(s.r, s.pend, q, u, p2, ID, w);
    OnIdentity(q, w);
    OnIsApply(u, q, Denoted(s));
    SameRefl(Denoted(t));
  }

  lemma FlushedFacts(s: Sim, qs: seq<nat>, level: Level)
    requires Valid(s) && Within(qs, |s.pend|)
    ensures Valid(Flush(s, qs, level)) && Flush(s, qs, level).r == s.r
    ensures SameState(Denoted(Flush(s, qs, level)), Denoted(s))
    ensures Flush(s, qs, level).queue == [] && Flush(s, qs, level).occ == s.occ
    ensures forall j :: 0 <= j < |s.pend| ==>
      Flush(s, qs, level).pend[j] == if j in qs then Flushed(s.pend[j], level) else s.pend[j]
  {
    hide Flush, Denoted, SameState;
    FlushKeeps(s, qs, level);
  }

  lemma HPerforms(s: Sim, q: nat)
    requires Valid(s) && q < |s.pend|
    ensures Performs(s, StepH(s, q), Ideal(H(q), s.r))
  {
    hide Apply, Denoted, MatTimes, PendingMat, On, RunQueue, SameState, Negated, Performs, FlushQueue, Rotated, Scaled;
    var p := s.pend[q];
    if !p.x {
      HPasses(s.r, p);
      var p2 := p.(h := !p.h, ay := if p.y then Negated(p.ay) else p.ay);
      PendingPerforms(s, q, HMat(s.r), p2);
      Occupied(s, s.(pend := s.pend[q := p2]), OnQubit({}, HMat(s.r), q), q);
      assert s.pend[q := p.(ay := Negated(p.ay))][q := p2] == s.pend[q := p2];
      assert s.pend[q := p] == s.pend;
    } else {
      var f := Flush(s, [q], LevelRx);
      FlushedFacts(s, [q], LevelRx);
      StepHAfterRx(s, q);
      var p1 := f.pend[q];
      var p2 := p1.(h := !p1.h, ay := if p1.y then Negated(p1.ay) else p1.ay);
      HPasses(f.r, p1);
      PendingPerforms(f, q, HMat(s.r), p2);
      Occupied(f, f.(pend := f.pend[q := p2]), OnQubit({}, HMat(s.r), q), q);
      AfterFlush(s, f, StepH(s, q), OnQubit({}, HMat(s.r), q));
    }
  }

  /** With Rx pending, H runs it first; the order with the negation of Ry does not matter. */
  lemma StepHAfterRx(s: Sim, q: nat)
    requires q < |s.pend| && s.pend[q].x
    ensures var f := Flush(s, [q], LevelRx);
      var p1 := f.pend[q];
      StepH(s, q)
      == Occupy(f.(pend := f.pend[q := p1.(h := !p1.h, ay := if p1.y then Negated(p1.ay) else p1.ay)]), q)
  {
    hide FlushQueue, Rotated, On, Negated, Flush, Denoted, SameState, FlushQubit;
    var p := s.pend[q];
    var s1 := if p.y then s.(pend := s.pend[q := p.(ay := Negated(p.ay))]) else s;
    var f, f1 := Flush(s, [q], LevelRx), Flush(s1, [q], LevelRx);
    FlushKeepsRy(s, s1, q);
    FlushKeeps(s, [q], LevelRx);
    var p1 := f.pend[q];
    assert p1 == Flushed(p, LevelRx);
    var p2 := p1.(h := !p1.h, ay := s1.pend[q].ay);
    assert f1.pend[q := f1.pend[q].(h := !f1.pend[q].h)] == f.pend[q := p2];
  }

  /** A flush of H and Rx does not look at the Ry angle. */
  lemma FlushKeepsRy(s: Sim, s1: Sim, q: nat)
    requires q < |s.pend|
    requires s1 == if s.pend[q].y then s.(pend := s.pend[q := s.pend[q].(ay := Negated(s.pend[q].ay))]) else s
    ensures Flush(s1, [q], LevelRx)
         == var f := Flush(s, [q], LevelRx); f.(pend := f.pend[q := f.pend[q].(ay := s1.pend[q].ay)])
  {
    hide RunQueue, Rotated, On, Negated;
    var a, b := FlushQueue(s), FlushQueue(s1);
    assert [q][..0] == [];
    assert Flush(s, [q], LevelRx) == FlushQubit(FlushQubits(a, [], LevelRx), q, LevelRx) == FlushRx(FlushH(a, q), q);
    assert Flush(s1, [q], LevelRx) == FlushQubit(FlushQubits(b, [], LevelRx), q, LevelRx) == FlushRx(FlushH(b, q), q);
    var x, y := FlushH(a, q), FlushH(b, q);
    assert y == x.(pend := x.pend[q := x.pend[q].(ay := s1.pend[q].ay)]);
    var x2, y2 := FlushRx(x, q), FlushRx(y, q);
    assert y2 == x2.(pend := x2.pend[q := x2.pend[q].(ay := s1.pend[q].ay)]);
  }

  // ---------------------------------------------------------------- controlled gates

  lemma ExecuteIfFacts(s: Sim, qs: seq<nat>)
    requires Valid(s) && Within(qs, |s.pend|)
    ensures Valid(ExecuteIf(s, qs)) && ExecuteIf(s, qs).r == s.r && ExecuteIf(s, qs).occ == s.occ
    ensures SameState(Denoted(ExecuteIf(s, qs)), Denoted(s))
    ensures forall i :: 0 <= i < |qs| ==> ExecuteIf(s, qs).pend[qs[i]].Nothing()
    ensures forall j :: 0 <= j < |s.pend| ==>
      ExecuteIf(s, qs).pend[j] == s.pend[j] || ExecuteIf(s, qs).pend[j].Nothing()
  {
    hide Denoted, SameState, Flush;
    if AnyPending(s.pend, qs) {
      FlushedFacts(s, qs, LevelRy);
    } else {
      SameRefl(Denoted(s));
    }
  }

  /** An operation on qubits with nothing pending performs its own operator. */
  lemma UntouchedPerforms(s: Sim, op: Operation, g: Operator)
    requires Valid(s) && Untouched(s.pend, AsOperator(op))
    requires Apply(AsOperator(op), Denoted(s)) == Apply(g, Denoted(s))
    ensures Performs(s, Push(s, op), g)
  {
    hide Apply, AsOperator, All, Layer, RunQueue, SameState, Denoted, Untouched;
    PushedDenotes(s, op);
    DenotedIsAll(s);
    PassAll(s.r, s.pend, AsOperator(op), RunQueue(s.queue, s.psi));
    SameRefl(Denoted(Push(s, op)));
  }

  /** A controlled matrix with clear controls is queued as `u2` on the same target. */
  lemma ControlledPerforms(s: Sim, cs: set<nat>, q: nat, u: Mat, op: Operation, u2: Mat)
    requires Valid(s) && q < |s.pend| && q !in cs
    requires forall c :: 0 <= c < |s.pend| && c in cs ==> s.pend[c].Nothing()
    requires MatTimes(u, PendingMat(s.r, s.pend[q])) == MatTimes(PendingMat(s.r, s.pend[q]), u2)
    requires Apply(AsOperator(op), RunQueue(s.queue, s.psi)) == Controlled(cs, u2, q, RunQueue(s.queue, s.psi))
    ensures Performs(s, Push(s, op), OnQubit(cs, u, q))
  {
    hide AsOperator, All, Layer, RunQueue, SameState, Denoted, Controlled, MatTimes, PendingMat, Pending.Nothing;
    PushedDenotes(s, op);
    DenotedIsAll(s);
    PassTargetLayer(s.r, s.pend, cs, q, u, u2, RunQueue(s.queue, s.psi));
    SameRefl(Denoted(Push(s, op)));
  }

  lemma OpMCZIs(cs: set<nat>, q: nat, w: Wave)
    requires q !in cs
    ensures Apply(AsOperator(OpMCZ(cs, q)), w) == Controlled(cs, Z_MAT, q, w)
  {
    hide Diagonal, Controlled;
    ControlledPhase(cs, MINUS_ONE, q, w);
  }

  /** With only H pending on both qubits, a CNOT passes the layer with its roles exchanged. */
  lemma CnotTurnsAround(r: real, pend: seq<Pending>, c: nat, t: nat, w: Wave)
    requires c < |pend| && t < |pend| && c != t
    requires pend[c].h && !pend[c].x && !pend[c].y && pend[t].h && !pend[t].y
    ensures Controlled({c}, X_MAT, t, All(r, pend, w)) == All(r, pend, Controlled({t}, X_MAT, c, w))
  {
    hide All, Controlled, On, MatTimes, PendingMat, Diagonal, HMat, Apply, Support, Mixed;
    var one, both := pend[t := NOTHING], pend[t := NOTHING][c := NOTHING];
    var mt, mc := PendingMat(r, pend[t]), PendingMat(r, pend[c]);
    var v := Controlled({t}, X_MAT, c, w);
    Focus(r, pend, t, w);
    Focus(r, one, c, w);
    XPasses(r, pend[t]);
    PassTarget({c}, X_MAT, mt, Z_MAT, t, All(r, one, w));
    ControlledPhase({c}, MINUS_ONE, t, All(r, one, w));
    ControlledPhase({t}, MINUS_ONE, c, All(r, one, w));
    assert {c} + {t} == {t} + {c};
    ZPasses(r, pend[c]);
    assert NegatedBoth(pend[c]) == pend[c];
    PassTarget({t}, Z_MAT, mc, X_MAT, c, All(r, both, w));
    ClearPass(r, both, c, t, w);
    Focus(r, pend, t, v);
    Focus(r, one, c, v);
  }

  lemma ClearPass(r: real, pend: seq<Pending>, c: nat, t: nat, w: Wave)
    requires c < |pend| && t < |pend| && pend[c] == NOTHING && pend[t] == NOTHING
    ensures All(r, pend, Controlled({t}, X_MAT, c, w)) == Controlled({t}, X_MAT, c, All(r, pend, w))
  {
    hide All, Controlled;
    PassAll(r, pend, OnQubit({t}, X_MAT, c), w);
  }

  lemma CnotPerforms(s: Sim, c: nat, t: nat)
    requires Valid(s) && c < |s.pend| && t < |s.pend| && c != t
    requires s.pend[c].h && !s.pend[c].x && !s.pend[c].y && s.pend[t].h && !s.pend[t].y
    ensures Performs(s, Push(s, OpMCX({t}, c)), OnQubit({c}, X_MAT, t))
  {
    hide All, Controlled, RunQueue, Layer, SameState, Denoted;
    PushedDenotes(s, OpMCX({t}, c));
    DenotedIsAll(s);
    CnotTurnsAround(s.r, s.pend, c, t, RunQueue(s.queue, s.psi));
    SameRefl(Denoted(Push(s, OpMCX({t}, c))));
  }

  /**
   The one situation MCX mishandles: a single control with only H pending, and a target with both
   H and Ry pending. Only the target is run, and the operation is queued under the control's H.
   */
  predicate McxTrap(s: Sim, cs: seq<nat>, t: nat)
    requires t < |s.pend| && Within(cs, |s.pend|)
  {
    && |cs| == 1
    && s.pend[cs[0]].h && !s.pend[cs[0]].x && !s.pend[cs[0]].y
    && s.pend[t].h && s.pend[t].y
  }

  /** What is known once the controls of MCX were looked at. */
  lemma ClearedForMCX(s: Sim, cs: seq<nat>, t: nat)
    requires Valid(s) && t < |s.pend| && Within(cs, |s.pend|) && cs != [] && t !in cs
    ensures var s1 := ClearControlsOfMCX(s, cs, t);
      && Valid(s1) && s1.r == s.r && SameState(Denoted(s1), Denoted(s))
      && s1.pend[t] == (if |cs| == 1 then s.pend[t] else s1.pend[t])
      && (forall i :: 0 <= i < |cs| ==>
            (s1.pend[cs[i]].Nothing()
             || (|cs| == 1 && s1 == s && s.pend[cs[i]].h && !s.pend[cs[i]].x && !s.pend[cs[i]].y && s.pend[t].h)))
  {
    hide Flush, Denoted, SameState, ExecuteIf;
    SameRefl(Denoted(s));
    ExecuteIfFacts(s, cs);
    FlushedFacts(s, cs, LevelRy);
    assert cs[0] in cs;
  }

  lemma McxTargetCleared(s: Sim, cs: seq<nat>, t: nat) returns (s2: Sim)
    requires Valid(s) && t < |s.pend| && Within(cs, |s.pend|) && cs != [] && t !in cs
    requires !McxTrap(s, cs, t)
    ensures s2 == var s1 := ClearControlsOfMCX(s, cs, t); if s1.pend[t].y then Flush(s1, [t], LevelRy) else s1
    ensures Valid(s2) && s2.r == s.r && |s2.pend| == |s.pend| && SameState(Denoted(s2), Denoted(s))
    ensures !s2.pend[t].y
    ensures (forall i :: 0 <= i < |cs| ==> s2.pend[cs[i]].Nothing())
         || (|cs| == 1 && s2.pend[cs[0]].h && !s2.pend[cs[0]].x && !s2.pend[cs[0]].y && s2.pend[t].h)
  {
    hide Flush, Denoted, SameState, ClearControlsOfMCX;
    ClearedForMCX(s, cs, t);
    var s1 := ClearControlsOfMCX(s, cs, t);
    FlushedFacts(s1, [t], LevelRy);
    s2 := if s1.pend[t].y then Flush(s1, [t], LevelRy) else s1;
    SameTrans(Denoted(Flush(s1, [t], LevelRy)), Denoted(s1), Denoted(s));
  }

  lemma MCXPerforms(s: Sim, cs: seq<nat>, t: nat)
    requires Valid(s) && Legal(MCX(cs, t), |s.pend|) && !McxTrap(s, cs, t)
    ensures Performs(s, StepMCX(s, cs, t), Ideal(MCX(cs, t), s.r))
  {
    hide Denoted, SameState, ClearControlsOfMCX, RunQueue, MatTimes, PendingMat, Flush, Apply, Controlled, Performs,
         StepX;
    if cs == [] {
      assert SetOf(cs) == {};
      XPerforms(s, t);
    } else {
      var s2 := McxTargetCleared(s, cs, t);
      var g := OnQubit(SetOf(cs), X_MAT, t);
      XPasses(s2.r, s2.pend[t]);
      var w := RunQueue(s2.queue, s2.psi);
      if s2.pend[t].h && |cs| == 1 && s2.pend[cs[0]].h {
        assert SetOf(cs) == {cs[0]};
        CnotPerforms(s2, cs[0], t);
        Occupied(s2, Push(s2, OpMCX({t}, cs[0])), g, cs[0]);
      } else if s2.pend[t].h {
        OpMCZIs(SetOf(cs), t, w);
        ControlledPerforms(s2, SetOf(cs), t, X_MAT, OpMCZ(SetOf(cs), t), Z_MAT);
      } else {
        McxIs(SetOf(cs), t, w);
        ControlledPerforms(s2, SetOf(cs), t, X_MAT, OpMCX(SetOf(cs), t), X_MAT);
        Occupied(s2, Push(s2, OpMCX(SetOf(cs), t)), g, t);
      }
      AfterFlush(s, s2, StepMCX(s, cs, t), g);
    }
  }

  lemma McxIs(cs: set<nat>, t: nat, w: Wave)
    ensures Apply(AsOperator(OpMCX(cs, t)), w) == Controlled(cs, X_MAT, t, w)
    ensures Apply(AsOperator(OpMCY(cs, t)), w) == Controlled(cs, Y_MAT, t, w)
  {
    hide Controlled;
  }

  lemma MCYPerforms(s: Sim, cs: seq<nat>, t: nat)
    requires Valid(s) && Legal(MCY(cs, t), |s.pend|)
    ensures Performs(s, StepMCY(s, cs, t), Ideal(MCY(cs, t), s.r))
  {
    hide Denoted, SameState, ExecuteIf, RunQueue, MatTimes, PendingMat, Flush, Apply, Controlled, Performs, StepY,
         MatScaled, Diagonal, AsOperator;
    if cs == [] {
      assert SetOf(cs) == {};
      YPerforms(s, t);
    } else {
      var g := OnQubit(SetOf(cs), Y_MAT, t);
      var s1 := ExecuteIf(s, cs);
      ExecuteIfFacts(s, cs);
      FlushedFacts(s1, [t], LevelRx);
      var s2 := if s1.pend[t].x then Flush(s1, [t], LevelRx) else s1;
      SameTrans(Denoted(Flush(s1, [t], LevelRx)), Denoted(s1), Denoted(s));
      YPasses(s2.r, s2.pend[t]);
      var w := RunQueue(s2.queue, s2.psi);
      if s2.pend[t].h {
        var op := if |cs| == 1 then OpZ(cs[0]) else OpMCZ(SetOf(cs), cs[0]);
        SignOnControls(cs, w);
        ControlledMinus(SetOf(cs), Y_MAT, t, w);
        McxIs(SetOf(cs), t, Diagonal(SetOf(cs), MINUS_ONE, w));
        RunPush(s2.queue, op, s2.psi);
        TwoOperations(s2, SetOf(cs), t, op);
        Occupied(s2, Push(Push(s2, op), OpMCY(SetOf(cs), t)), g, t);
      } else {
        McxIs(SetOf(cs), t, w);
        ControlledPerforms(s2, SetOf(cs), t, Y_MAT, OpMCY(SetOf(cs), t), Y_MAT);
        Occupied(s2, Push(s2, OpMCY(SetOf(cs), t)), g, t);
      }
      AfterFlush(s, s2, StepMCY(s, cs, t), g);
    }
  }

  lemma SignOnControls(cs: seq<nat>, w: Wave)
    requires cs != []
    ensures |cs| == 1 ==> Apply(AsOperator(OpZ(cs[0])), w) == Diagonal(SetOf(cs), MINUS_ONE, w)
    ensures Apply(AsOperator(OpMCZ(SetOf(cs), cs[0])), w) == Diagonal(SetOf(cs), MINUS_ONE, w)
  {
    hide Diagonal;
    assert SetOf(cs) + {cs[0]} == SetOf(cs);
    assert |cs| == 1 ==> SetOf(cs) == {cs[0]};
  }

  /** A sign on the controls followed by a controlled Y, under a pending H, is a controlled Y. */
  lemma TwoOperations(s: Sim, cs: set<nat>, t: nat, op: Operation)
    requires Valid(s) && t < |s.pend| && t !in cs
    requires forall c :: 0 <= c < |s.pend| && c in cs ==> s.pend[c].Nothing()
    requires s.pend[t].h && !s.pend[t].x
    requires Apply(AsOperator(op), RunQueue(s.queue, s.psi)) == Diagonal(cs, MINUS_ONE, RunQueue(s.queue, s.psi))
    ensures Performs(s, Push(Push(s, op), OpMCY(cs, t)), OnQubit(cs, Y_MAT, t))
  {
    hide AsOperator, All, Layer, RunQueue, SameState, Denoted, Controlled, MatTimes, PendingMat, Pending.Nothing,
         MatScaled, Diagonal;
    var w := RunQueue(s.queue, s.psi);
    var s1 := Push(s, op);
    YPasses(s.r, s.pend[t]);
    PushedDenotes(s1, OpMCY(cs, t));
    RunPush(s.queue, op, s.psi);
    McxIs(cs, t, Diagonal(cs, MINUS_ONE, w));
    ControlledMinus(cs, Y_MAT, t, w);
    DenotedIsAll(s);
    PassTargetLayer(s.r, s.pend, cs, t, Y_MAT, MatScaled(MINUS_ONE, Y_MAT), w);
    SameRefl(Denoted(Push(s1, OpMCY(cs, t))));
  }

  lemma NoObstacles(pend: seq<Pending>, qs: seq<nat>)
    requires Within(qs, |pend|) && CountObstacles(pend, qs) == 0
    ensures forall i :: 0 <= i < |qs| ==> pend[qs[i]].Nothing()
  {
    if qs != [] {
      var rest := qs[..|qs| - 1];
      NoObstacles(pend, rest);
      assert forall i :: 0 <= i < |rest| ==> qs[i] == rest[i];
    }
  }

  /** A count of one means exactly one position holds an H, and nothing else is pending. */
  lemma OneObstacle(pend: seq<Pending>, qs: seq<nat>) returns (i: nat)
    requires Within(qs, |pend|) && CountObstacles(pend, qs) == 1
    ensures i < |qs| && pend[qs[i]].h && !pend[qs[i]].x && !pend[qs[i]].y
    ensures forall j :: 0 <= j < |qs| && j != i ==> pend[qs[j]].Nothing()
  {
    var rest := qs[..|qs| - 1];
    assert forall i :: 0 <= i < |rest| ==> qs[i] == rest[i];
    if CountObstacles(pend, rest) == 0 {
      NoObstacles(pend, rest);
      i := |qs| - 1;
    } else {
      i := OneObstacle(pend, rest);
    }
  }

  /** With a single H pending among the qubits of a controlled Z, it becomes a controlled X there. */
  lemma CzPerforms(s: Sim, cs: set<nat>, q: nat, c2: set<nat>, t: nat)
    requires Valid(s) && q < |s.pend| && q !in cs && t !in c2 && cs + {q} == c2 + {t}
    requires s.pend[q].h && !s.pend[q].x && !s.pend[q].y
    requires forall c :: 0 <= c < |s.pend| && c in cs ==> s.pend[c].Nothing()
    ensures Performs(s, Push(s, OpMCX(cs, q)), OnQubit(c2, Z_MAT, t))
  {
    hide All, RunQueue, Layer, SameState, Denoted, Controlled, MatTimes, PendingMat, Diagonal;
    ZPasses(s.r, s.pend[q]);
    assert NegatedBoth(s.pend[q]) == s.pend[q];
    McxIs(cs, q, RunQueue(s.queue, s.psi));
    ControlledPerforms(s, cs, q, Z_MAT, OpMCX(cs, q), X_MAT);
    ControlledPhase(cs, MINUS_ONE, q, Denoted(s));
    ControlledPhase(c2, MINUS_ONE, t, Denoted(s));
  }

  lemma MCZPerforms(s: Sim, cs: seq<nat>, t: nat)
    requires Valid(s) && Legal(MCZ(cs, t), |s.pend|)
    ensures Performs(s, StepMCZ(s, cs, t), Ideal(MCZ(cs, t), s.r))
  {
    hide Denoted, SameState, RunQueue, MatTimes, PendingMat, Flush, Apply, Controlled, Performs, StepZ, CountObstacles,
         AsOperator, FirstH;
    var g := OnQubit(SetOf(cs) - {t}, Z_MAT, t);
    if cs == [] {
      assert SetOf(cs) - {t} == {};
      ZPerforms(s, t);
    } else {
      var count := CountObstacles(s.pend, cs) + Obstacles(s.pend[t]);
      if count == 1 {
        var i := FirstH(s.pend, cs);
        if CountObstacles(s.pend, cs) == 1 {
          var k := OneObstacle(s.pend, cs);
          FirstIsOnly(s.pend, cs, k);
          var c2 := SetOf(cs[k := t]);
          SetWithout(cs, k, t);
          CzPerforms(s, c2, cs[k], SetOf(cs) - {t}, t);
          Occupied(s, Push(s, OpMCX(c2, cs[k])), g, cs[k]);
        } else {
          NoObstacles(s.pend, cs);
          NoneFirst(s.pend, cs);
          assert SetOf(cs) - {t} == SetOf(cs);
          CzPerforms(s, SetOf(cs), t, SetOf(cs), t);
          Occupied(s, Push(s, OpMCX(SetOf(cs), t)), g, t);
        }
      } else {
        var f := Flush(s, cs, LevelRy);
        var s1 := if count > 1 then Flush(f, [t], LevelRy) else s;
        FlushedFacts(s, cs, LevelRy);
        FlushedFacts(f, [t], LevelRy);
        SameRefl(Denoted(s));
        SameTrans(Denoted(Flush(f, [t], LevelRy)), Denoted(f), Denoted(s));
        if count == 0 {
          NoObstacles(s.pend, cs);
        }
        PlainMcz(s1, cs, t);
        AfterFlush(s, s1, StepMCZ(s, cs, t), g);
      }
    }
  }

  lemma PlainMcz(s: Sim, cs: seq<nat>, t: nat)
    requires Valid(s) && t < |s.pend| && Within(cs, |s.pend|)
    requires s.pend[t].Nothing() && forall i :: 0 <= i < |cs| ==> s.pend[cs[i]].Nothing()
    ensures Performs(s, Push(s, OpMCZ(SetOf(cs), t)), OnQubit(SetOf(cs) - {t}, Z_MAT, t))
  {
    hide Denoted, Controlled, Diagonal, Performs;
    ControlledPhase(SetOf(cs) - {t}, MINUS_ONE, t, Denoted(s));
    assert SetOf(cs) - {t} + {t} == SetOf(cs) + {t};
    UntouchedPerforms(s, OpMCZ(SetOf(cs), t), OnQubit(SetOf(cs) - {t}, Z_MAT, t));
  }

  lemma FirstIsOnly(pend: seq<Pending>, qs: seq<nat>, k: nat)
    requires Within(qs, |pend|) && k < |qs| && pend[qs[k]].h
    requires forall j :: 0 <= j < |qs| && j != k ==> pend[qs[j]].Nothing()
    ensures FirstH(pend, qs) == k
  {
  }

  lemma NoneFirst(pend: seq<Pending>, qs: seq<nat>)
    requires Within(qs, |pend|) && forall j :: 0 <= j < |qs| ==> pend[qs[j]].Nothing()
    ensures FirstH(pend, qs) == |qs|
  {
  }

  lemma SetWithout(cs: seq<nat>, k: nat, t: nat)
    requires k < |cs| && cs[k] != t && forall j :: 0 <= j < |cs| && j != k ==> cs[j] != cs[k]
    ensures SetOf(cs[k := t]) == SetOf(cs) - {cs[k]} + {t}
  {
    forall q ensures q in SetOf(cs[k := t]) <==> q in SetOf(cs) - {cs[k]} + {t} {
      if q in SetOf(cs) - {cs[k]} {
        var j :| 0 <= j < |cs| && cs[j] == q;
        assert cs[k := t][j] == q;
      }
      assert cs[k := t][k] == t;
      if q in cs[k := t] {
        var j :| 0 <= j < |cs| && cs[k := t][j] == q;
        assert j == k || cs[j] == q;
      }
    }
  }

  lemma PhasePerforms(s: Sim, p: Complex, q: nat)
    requires Valid(s) && q < |s.pend|
    ensures Performs(s, StepPhase(s, p, q), Ideal(Phase(p, q), s.r))
  {
    hide Denoted, SameState, ExecuteIf, Controlled, Diagonal, Performs;
    var s1 := ExecuteIf(s, [q]);
    ExecuteIfFacts(s, [q]);
    assert s1.pend[[q][0]].Nothing();
    ControlledPhase({}, p, q, Denoted(s1));
    assert {} + {q} == {q};
    UntouchedPerforms(s1, OpPhase(q, p), OnQubit({}, PhaseMat(p), q));
    AfterFlush(s, s1, StepPhase(s, p, q), OnQubit({}, PhaseMat(p), q));
  }

  lemma MCPhasePerforms(s: Sim, cs: seq<nat>, p: Complex, t: nat)
    requires Valid(s) && Legal(MCPhase(cs, p, t), |s.pend|)
    ensures Performs(s, StepMCPhase(s, cs, p, t), Ideal(MCPhase(cs, p, t), s.r))
  {
    hide Denoted, SameState, ExecuteIf, Controlled, Diagonal, Performs, StepPhase;
    var g := OnQubit(SetOf(cs) - {t}, PhaseMat(p), t);
    if cs == [] {
      assert SetOf(cs) - {t} == {};
      PhasePerforms(s, p, t);
    } else {
      var s1 := ExecuteIf(s, cs);
      var s2 := ExecuteIf(s1, [t]);
      ExecuteIfFacts(s, cs);
      ExecuteIfFacts(s1, [t]);
      assert s2.pend[[t][0]].Nothing();
      SameTrans(Denoted(s2), Denoted(s1), Denoted(s));
      ClearPhasePerforms(s2, cs, p, t);
      AfterFlush(s, s2, StepMCPhase(s, cs, p, t), g);
    }
  }

  /** A controlled phase on qubits with nothing pending. */
  lemma ClearPhasePerforms(s: Sim, cs: seq<nat>, p: Complex, t: nat)
    requires Valid(s) && Within(cs, |s.pend|) && t < |s.pend| && s.pend[t].Nothing()
    requires forall i :: 0 <= i < |cs| ==> s.pend[cs[i]].Nothing()
    ensures Performs(s, Push(s, OpMCPhase(SetOf(cs), t, p)), OnQubit(SetOf(cs) - {t}, PhaseMat(p), t))
  {
    hide Denoted, SameState, Controlled, Diagonal, Performs, Pending.Nothing;
    ControlledPhase(SetOf(cs) - {t}, p, t, Denoted(s));
    assert SetOf(cs) - {t} + {t} == SetOf(cs) + {t};
    UntouchedPerforms(s, OpMCPhase(SetOf(cs), t, p), OnQubit(SetOf(cs) - {t}, PhaseMat(p), t));
  }

  // ---------------------------------------------------------------- exchanges

  /** An exchange of two qubits passes the layer by exchanging what is pending on them. */
  lemma SwapLayer(r: real, pend: seq<Pending>, a: nat, b: nat, w: Wave)
    requires a < |pend| && b < |pend| && a != b
    ensures Exchange2({}, a, b, All(r, pend, w))
         == All(r, pend[a := pend[b]][b := pend[a]], Exchange2({}, a, b, w))
  {
    hide All, On, Exchange2, PendingMat, Apply, Support;
    var swapped := pend[a := pend[b]][b := pend[a]];
    var one, both := pend[a := NOTHING], pend[a := NOTHING][b := NOTHING];
    var ma, mb := PendingMat(r, pend[a]), PendingMat(r, pend[b]);
    var v := Exchange2({}, a, b, w);
    Focus(r, pend, a, w);
    Focus(r, one, b, w);
    ExchangeOn(a, b, ma, All(r, one, w));
    ExchangeSame({}, a, b, On(mb, b, All(r, both, w)));
    ExchangeSame({}, a, b, All(r, both, w));
    ExchangeOn(b, a, mb, All(r, both, w));
    ClearSwap(r, both, a, b, w);
    Focus(r, swapped, b, v);
    Focus(r, swapped[b := NOTHING], a, v);
    assert swapped[b := NOTHING][a := NOTHING] == both;
  }

  lemma ClearSwap(r: real, pend: seq<Pending>, a: nat, b: nat, w: Wave)
    requires a < |pend| && b < |pend| && pend[a] == NOTHING && pend[b] == NOTHING
    ensures All(r, pend, Exchange2({}, a, b, w)) == Exchange2({}, a, b, All(r, pend, w))
  {
    hide All, Exchange2;
    PassAll(r, pend, Swapping({}, a, b), w);
  }

  lemma SWAPPerforms(s: Sim, a: nat, b: nat)
    requires Valid(s) && a < |s.pend| && b < |s.pend|
    ensures Performs(s, StepSWAP(s, a, b), Ideal(SWAP(a, b), s.r))
  {
    hide Denoted, SameState, Exchange2, StepSWAP;
    SwapDenotes(s, a, b);
    SwapValid(s, a, b);
    SameRefl(Denoted(StepSWAP(s, a, b)));
  }

  lemma SwapValid(s: Sim, a: nat, b: nat)
    requires Valid(s) && a < |s.pend| && b < |s.pend|
    ensures Valid(StepSWAP(s, a, b)) && StepSWAP(s, a, b).r == s.r
  {
  }

  lemma SwapDenotes(s: Sim, a: nat, b: nat)
    requires Valid(s) && a < |s.pend| && b < |s.pend|
    ensures Denoted(StepSWAP(s, a, b)) == Exchange2({}, a, b, Denoted(s))
  {
    hide Denoted, All, Exchange2, RunQueue;
    var lo, hi := if a > b then b else a, if a > b then a else b;
    var t := s.(pend := s.pend[a := s.pend[b]][b := s.pend[a]], occ := s.occ[a := s.occ[b]][b := s.occ[a]]);
    var w := RunQueue(s.queue, s.psi);
    PushedDenotes(t, OpSwap(lo, hi));
    DenotedIsAll(s);
    SwapIs(lo, hi, w);
    ExchangeSame({}, a, b, w);
    if a != b {
      SwapLayer(s.r, s.pend, a, b, w);
    } else {
      ExchangeNothing({}, a, w);
      ExchangeNothing({}, a, Denoted(s));
      assert t.pend == s.pend;
    }
  }

  lemma SwapIs(a: nat, b: nat, w: Wave)
    ensures Apply(AsOperator(OpSwap(a, b)), w) == Exchange2({}, a, b, w)
  {
    hide Exchange2;
  }

  lemma CSWAPPerforms(s: Sim, cs: seq<nat>, a: nat, b: nat)
    requires Valid(s) && Legal(CSWAP(cs, a, b), |s.pend|)
    ensures Performs(s, StepCSWAP(s, cs, a, b), Ideal(CSWAP(cs, a, b), s.r))
  {
    hide Denoted, SameState, ExecuteIf, Exchange2, Performs, StepSWAP, Apply, Untouched;
    var g := Swapping(SetOf(cs), a, b);
    if cs == [] {
      assert SetOf(cs) == {};
      SWAPPerforms(s, a, b);
    } else {
      var lo, hi := if a > b then b else a, if a > b then a else b;
      var s3 := ExecuteIf(ExecuteIf(ExecuteIf(s, cs), [lo]), [hi]);
      AllClear(s, cs, lo, hi);
      ExchangeBothWays(SetOf(cs), a, b, lo, hi, Denoted(s3));
      var t := Push(s3, OpMCSwap(SetOf(cs), lo, hi));
      UntouchedPerforms(s3, OpMCSwap(SetOf(cs), lo, hi), g);
      Occupied(s3, t, g, lo);
      Occupied(s3, Occupy(t, lo), g, hi);
      AfterFlush(s, s3, StepCSWAP(s, cs, a, b), g);
    }
  }

  lemma ExchangeBothWays(cs: set<nat>, a: nat, b: nat, lo: nat, hi: nat, w: Wave)
    requires lo == (if a > b then b else a) && hi == if a > b then a else b
    ensures Apply(AsOperator(OpMCSwap(cs, lo, hi)), w) == Apply(Swapping(cs, a, b), w)
  {
    hide Exchange2;
    ExchangeSame(cs, a, b, w);
  }

  lemma AllClear(s: Sim, cs: seq<nat>, lo: nat, hi: nat)
    requires Valid(s) && Within(cs, |s.pend|) && lo < |s.pend| && hi < |s.pend|
    ensures var s3 := ExecuteIf(ExecuteIf(ExecuteIf(s, cs), [lo]), [hi]);
      && Valid(s3) && s3.r == s.r && s3.occ == s.occ && |s3.pend| == |s.pend|
      && SameState(Denoted(s3), Denoted(s))
      && Untouched(s3.pend, AsOperator(OpMCSwap(SetOf(cs), lo, hi)))
  {
    hide Denoted, SameState, ExecuteIf, Valid;
    var s1 := ExecuteIf(s, cs);
    var s2 := ExecuteIf(s1, [lo]);
    var s3 := ExecuteIf(s2, [hi]);
    ExecuteIfFacts(s, cs);
    ExecuteIfFacts(s1, [lo]);
    ExecuteIfFacts(s2, [hi]);
    assert s2.pend[[lo][0]].Nothing() && s3.pend[[hi][0]].Nothing();
    SameTrans(Denoted(s2), Denoted(s1), Denoted(s));
    SameTrans(Denoted(s3), Denoted(s2), Denoted(s));
  }

  // ---------------------------------------------------------------- controlled H and rotations

  lemma HWithH(r: real, p: Pending)
    requires !p.x && !p.y
    ensures MatTimes(HMat(r), PendingMat(r, p)) == MatTimes(PendingMat(r, p), HMat(r))
  {
    hide MatTimes, HMat;
    MatTimesIdentity(HMat(r));
    MatTimesIdentity(ID);
  }

  lemma MCHPerforms(s: Sim, cs: seq<nat>, t: nat)
    requires Valid(s) && Legal(MCH(cs, t), |s.pend|)
    ensures Performs(s, StepMCH(s, cs, t), Ideal(MCH(cs, t), s.r))
  {
    hide Denoted, SameState, ExecuteIf, RunQueue, MatTimes, PendingMat, Flush, Controlled, Performs, StepH, All, HMat;
    var g := OnQubit(SetOf(cs), HMat(s.r), t);
    if cs == [] {
      assert SetOf(cs) == {};
      HPerforms(s, t);
    } else {
      var s1 := ExecuteIf(s, cs);
      ExecuteIfFacts(s, cs);
      FlushedFacts(s1, [t], LevelRy);
      var f := if s1.pend[t].y || s1.pend[t].x then Flush(s1, [t], LevelRy) else s1;
      SameTrans(Denoted(Flush(s1, [t], LevelRy)), Denoted(s1), Denoted(s));
      var s2 := FlushQueue(f);
      FlushQueueKeeps(f);
      var s3 := s2.(psi := Controlled(SetOf(cs), HMat(s.r), t, s2.psi));
      KernelMchPerforms(s2, SetOf(cs), t);
      Occupied(s2, s3, g, t);
      AfterFlush(s, s2, StepMCH(s, cs, t), g);
    }
  }

  lemma KernelMchPerforms(s: Sim, cs: set<nat>, t: nat)
    requires Valid(s) && s.queue == [] && t < |s.pend| && t !in cs && !s.pend[t].x && !s.pend[t].y
    requires forall c :: 0 <= c < |s.pend| && c in cs ==> s.pend[c].Nothing()
    ensures Performs(s, s.(psi := Controlled(cs, HMat(s.r), t, s.psi)), OnQubit(cs, HMat(s.r), t))
  {
    hide Denoted, SameState, RunQueue, MatTimes, PendingMat, Controlled, All, HMat, Layer, Pending.Nothing;
    var s2 := s.(psi := Controlled(cs, HMat(s.r), t, s.psi));
    DenotedIsAll(s);
    DenotedIsAll(s2);
    HWithH(s.r, s.pend[t]);
    PassTargetLayer(s.r, s.pend, cs, t, HMat(s.r), HMat(s.r), s.psi);
    SameRefl(Denoted(s2));
  }

  lemma RxRyPerforms(s: Sim, axis: Axis, a: Angle, q: nat)
    requires Valid(s) && q < |s.pend| && (axis.PauliX? || axis.PauliY?)
    ensures Performs(s, StepR(s, axis, a, q), Ideal(R(axis, a, q), s.r))
  {
    hide Denoted, SameState, MatTimes, PendingMat, Flush, Performs, RxMat, RyMat, Sum;
    if axis.PauliY? {
      var p := s.pend[q];
      var p2 := p.(y := true, ay := Sum(p.ay, a));
      RyJoins(s.r, p, a);
      PendingPerforms(s, q, RyMat(a), p2);
      Occupied(s, s.(pend := s.pend[q := p2]), OnQubit({}, RyMat(a), q), q);
    } else {
      var f := if s.pend[q].y then Flush(s, [q], LevelRy) else s;
      FlushedFacts(s, [q], LevelRy);
      SameRefl(Denoted(s));
      var p := f.pend[q];
      var p2 := p.(x := true, ax := Sum(p.ax, a));
      RxJoins(f.r, p, a);
      PendingPerforms(f, q, RxMat(a), p2);
      Occupied(f, f.(pend := f.pend[q := p2]), OnQubit({}, RxMat(a), q), q);
      AfterFlush(s, f, StepR(s, axis, a, q), OnQubit({}, RxMat(a), q));
    }
  }

  /** The state a flush to `level` leaves, when `c` asks for it. */
  lemma MaybeFlush(c: bool, s: Sim, q: nat, level: Level)
    requires Valid(s) && q < |s.pend|
    ensures var f := if c then Flush(s, [q], level) else s;
      Valid(f) && f.r == s.r && |f.pend| == |s.pend| && SameState(Denoted(f), Denoted(s))
  {
    hide Denoted, SameState, Flush;
    FlushedFacts(s, [q], level);
    SameRefl(Denoted(s));
  }

  lemma RzPerforms(s: Sim, a: Angle, q: nat)
    requires Valid(s) && q < |s.pend|
    ensures Performs(s, StepR(s, PauliZ, a, q), Ideal(R(PauliZ, a, q), s.r))
  {
    hide Denoted, SameState, Flush, Performs, StepPhase, RzMat, PhaseMat, Times, On;
    var k := Complex(a.c, a.s);
    var f1 := if s.pend[q].y then Flush(s, [q], LevelRy) else s;
    var f2 := if f1.pend[q].x then Flush(f1, [q], LevelQueue) else f1;
    var f3 := if f2.pend[q].h then Flush(f2, [q], LevelH) else f2;
    MaybeFlush(s.pend[q].y, s, q, LevelRy);
    MaybeFlush(f1.pend[q].x, f1, q, LevelQueue);
    MaybeFlush(f2.pend[q].h, f2, q, LevelH);
    SameTrans(Denoted(f2), Denoted(f1), Denoted(s));
    SameTrans(Denoted(f3), Denoted(f2), Denoted(s));
    PhasePerforms(f3, Times(k, k), q);
    var t := StepPhase(f3, Times(k, k), q);
    AfterFlush(s, f3, t, OnQubit({}, PhaseMat(Times(k, k)), q));
    PhaseForRz(s, t, a, q);
  }

  lemma PhaseForRz(s: Sim, t: Sim, a: Angle, q: nat)
    requires Performs(s, t, OnQubit({}, PhaseMat(Times(Complex(a.c, a.s), Complex(a.c, a.s))), q))
    ensures Performs(s, t, OnQubit({}, RzMat(a), q))
  {
    hide Denoted, SameState, Valid, RzMat, PhaseMat, Times, On, Scaled, MatScaled, Norm;
    var k := Complex(a.c, a.s);
    var w := Denoted(s);
    RzIsPhase(a);
    OnScaled(k, RzMat(a), q, w);
    OnIsApply(RzMat(a), q, w);
    OnIsApply(PhaseMat(Times(k, k)), q, w);
    SameByPhase(k, On(RzMat(a), q, w));
    SameTrans(Denoted(t), On(PhaseMat(Times(k, k)), q, w), On(RzMat(a), q, w));
  }

  lemma RiPerforms(s: Sim, a: Angle, q: nat)
    requires Valid(s)
    ensures Performs(s, s, Ideal(R(PauliI, a, q), s.r))
  {
    hide Denoted, SameState, Diagonal;
    SamePhased(a, Denoted(s));
  }

  lemma SamePhased(a: Angle, w: Wave)
    ensures SameState(w, Diagonal({}, Complex(a.c, -a.s), w))
  {
    hide *;
    var k := Complex(a.c, -a.s);
    UnitAngle(a);
    GlobalPhase(k, w);
    SameByPhase(k, w);
    SameSym(Scaled(k, w), w);
  }

  lemma UnitAngle(a: Angle)
    ensures Norm(Complex(a.c, -a.s)) == 1.0
  {
    NegatedSquare(a.s, -a.s, a.s * a.s);
  }

  lemma GlobalPhase(k: Complex, w: Wave)
    ensures Diagonal({}, k, w) == Scaled(k, w)
  {
    hide Times;
    forall l: Label ensures Diagonal({}, k, w)[l] == Scaled(k, w)[l] {
    }
    SameWave(Diagonal({}, k, w), Scaled(k, w));
  }

  // ---------------------------------------------------------------- every gate, every run

  /** Where a gate is queued faithfully: everywhere but in the trap of MCX. */
  predicate Faithful(s: Sim, g: Gate)
    requires Legal(g, |s.pend|)
  {
    g.MCX? ==> !McxTrap(s, g.controls, g.q)
  }

  /** One queued gate acts as its textbook operator on the denoted state, up to a global phase. */
  lemma StepPerforms(s: Sim, g: Gate)
    requires Valid(s) && Legal(g, |s.pend|) && Faithful(s, g)
    ensures Performs(s, Step(s, g), Ideal(g, s.r))
  {
    hide Performs, StepX, StepY, StepZ, StepH, StepMCX, StepMCY, StepMCZ, StepMCH, StepPhase, StepMCPhase, StepSWAP,
         StepCSWAP, McxTrap;
    match g
    case X(q) => XPerforms(s, q);
    case Y(q) => YPerforms(s, q);
    case Z(q) => ZPerforms(s, q);
    case H(q) => HPerforms(s, q);
    case MCX(cs, q) => MCXPerforms(s, cs, q);
    case MCY(cs, q) => MCYPerforms(s, cs, q);
    case MCZ(cs, q) => MCZPerforms(s, cs, q);
    case MCH(cs, q) => MCHPerforms(s, cs, q);
    case Phase(p, q) => PhasePerforms(s, p, q);
    case MCPhase(cs, p, q) => MCPhasePerforms(s, cs, p, q);
    case SWAP(a, b) => SWAPPerforms(s, a, b);
    case CSWAP(cs, a, b) => CSWAPPerforms(s, cs, a, b);
    case R(PauliI, a, q) => RiPerforms(s, a, q);
    case R(PauliX, a, q) => RxRyPerforms(s, PauliX, a, q);
    case R(PauliY, a, q) => RxRyPerforms(s, PauliY, a, q);
    case R(PauliZ, a, q) => RzPerforms(s, a, q);
  }

  /** The textbook state after a list of gates. */
  ghost function RunIdeal(gates: seq<Gate>, r: real, w: Wave): Wave {
    if gates == [] then w
    else Apply(Ideal(gates[|gates| - 1], r), RunIdeal(gates[..|gates| - 1], r, w))
  }

  /** The simulator's state after a list of gates. */
  ghost function Run(s: Sim, gates: seq<Gate>): (t: Sim)
    requires |s.occ| == |s.pend| && forall i :: 0 <= i < |gates| ==> Legal(gates[i], |s.pend|)
    ensures |t.occ| == |t.pend| == |s.pend|
  {
    if gates == [] then s
    else
      var t := Run(s, gates[..|gates| - 1]);
      Step(t, gates[|gates| - 1])
  }

  /** Gate `i` of the run does not meet the trap of MCX. */
  ghost predicate FaithfulAfter(s: Sim, gates: seq<Gate>, i: nat)
    requires |s.occ| == |s.pend| && i < |gates| && forall k :: 0 <= k < |gates| ==> Legal(gates[k], |s.pend|)
  {
    Faithful(Run(s, gates[..i]), gates[i])
  }

  /** No gate of the run meets the trap of MCX. */
  ghost predicate FaithfulRun(s: Sim, gates: seq<Gate>)
    requires |s.occ| == |s.pend| && forall k :: 0 <= k < |gates| ==> Legal(gates[k], |s.pend|)
  {
    forall i :: 0 <= i < |gates| ==> FaithfulAfter(s, gates, i)
  }

  /**
   Lazy execution preserves meaning: whatever gates were queued, in whatever order, running
   everything stores the state the gates make one after the other, up to a global phase.
   */
  lemma RunPerforms(s: Sim, gates: seq<Gate>)
    requires Valid(s) && forall i :: 0 <= i < |gates| ==> Legal(gates[i], |s.pend|)
    requires FaithfulRun(s, gates)
    ensures Valid(Run(s, gates)) && Run(s, gates).r == s.r
    ensures SameState(FlushAll(Run(s, gates)).psi, RunIdeal(gates, s.r, Denoted(s)))
  {
    hide Denoted, SameState, FlushAll, Run, RunIdeal, FaithfulRun;
    RunDenotes(s, gates);
    FlushAllStores(Run(s, gates));
    SameTrans(FlushAll(Run(s, gates)).psi, Denoted(Run(s, gates)), RunIdeal(gates, s.r, Denoted(s)));
  }

  lemma RunDenotes(s: Sim, gates: seq<Gate>)
    requires Valid(s) && forall i :: 0 <= i < |gates| ==> Legal(gates[i], |s.pend|)
    requires FaithfulRun(s, gates)
    ensures Valid(Run(s, gates)) && Run(s, gates).r == s.r
    ensures SameState(Denoted(Run(s, gates)), RunIdeal(gates, s.r, Denoted(s)))
  {
    hide Denoted, SameState, Step, Apply, Ideal, Legal, Faithful, FaithfulRun;
    if gates == [] {
      SameRefl(Denoted(s));
    } else {
      var n := |gates| - 1;
      EarlierFaithful(s, gates);
      RunDenotes(s, gates[..n]);
      PerformsNext(Run(s, gates[..n]), gates[n], s.r, RunIdeal(gates[..n], s.r, Denoted(s)));
    }
  }

  lemma EarlierFaithful(s: Sim, gates: seq<Gate>)
    requires gates != [] && |s.occ| == |s.pend| && forall k :: 0 <= k < |gates| ==> Legal(gates[k], |s.pend|)
    requires FaithfulRun(s, gates)
    ensures FaithfulRun(s, gates[..|gates| - 1])
    ensures Faithful(Run(s, gates[..|gates| - 1]), gates[|gates| - 1])
  {
    hide Run, Legal, Faithful, FaithfulAfter;
    var n := |gates| - 1;
    FaithfulBefore(s, gates, n, n);
    forall i | 0 <= i < n ensures FaithfulAfter(s, gates[..n], i) {
      FaithfulBefore(s, gates, n, i);
    }
  }

  lemma FaithfulBefore(s: Sim, gates: seq<Gate>, n: nat, i: nat)
    requires |s.occ| == |s.pend| && forall k :: 0 <= k < |gates| ==> Legal(gates[k], |s.pend|)
    requires i <= n < |gates| && FaithfulAfter(s, gates, i)
    ensures if i < n then FaithfulAfter(s, gates[..n], i) else Faithful(Run(s, gates[..n]), gates[n])
  {
    hide Run, Legal, Faithful;
    assert gates[..n][..i] == gates[..i];
  }

  lemma PerformsNext(t: Sim, g: Gate, r: real, w: Wave)
    requires Valid(t) && t.r == r && Legal(g, |t.pend|) && Faithful(t, g) && SameState(Denoted(t), w)
    ensures Valid(Step(t, g)) && Step(t, g).r == r
    ensures SameState(Denoted(Step(t, g)), Apply(Ideal(g, r), w))
  {
    hide Denoted, SameState, Step, Apply, Ideal, Faithful;
    StepPerforms(t, g);
    SameApply(Ideal(g, r), Denoted(t), w);
    SameTrans(Denoted(Step(t, g)), Apply(Ideal(g, r), Denoted(t)), Apply(Ideal(g, r), w));
  }
}
