/**
 What the times of the optimised depth counter mean: a qubit's end is the time of the heaviest chain of gates that
 ends on it, and its start is where its own gates must begin to meet the first gate it shares.
 */
module DepthChains {
  import opened ComplexTimes
  import opened GateSchedule
  import opened DepthCounting
  import opened DepthRuns

  /** The gates a run applied, on the places of the traced qubits. */
  function GatesOf(events: seq<Event>): seq<Gate> {
    if events == [] then []
    else
      var before, e := GatesOf(events[..|events| - 1]), events[|events| - 1];
      if e.Applying? then before + [Gate(e.qs, e.duration)] else before
  }

  /** The gates of no duration that end a chain. */
  function Trailing(gates: seq<Gate>, c: seq<nat>): nat
    requires forall i :: 0 <= i < |c| ==> c[i] < |gates|
  {
    if c == [] || gates[c[|c| - 1]].duration != 0.0 then 0 else 1 + Trailing(gates, c[..|c| - 1])
  }

  /** The time a chain takes: its weight, and the gates of no duration that end it. */
  function ChainTime(gates: seq<Gate>, c: seq<nat>): ComplexTime
    requires forall i :: 0 <= i < |c| ==> c[i] < |gates|
  {
    Time(Weight(gates, c), Trailing(gates, c))
  }

  /** No chain that ends on the qubit takes longer, and one takes just as long. */
  ghost predicate Heaviest(gates: seq<Gate>, q: nat, end: ComplexTime) {
    && (forall c :: ChainTo(gates, c, q) ==> Le(ChainTime(gates, c), end))
    && (exists c :: ChainTo(gates, c, q) && ChainTime(gates, c) == end)
  }

  /** The gates are on qubits traced so far, with durations that are not negative. */
  predicate Within(gates: seq<Gate>, n: nat) {
    forall i :: 0 <= i < |gates| ==> gates[i].duration >= 0.0 && forall q :: q in gates[i].qubits ==> q < n
  }

  // ---------------------------------------------------------------- chains and one gate more

  lemma {:induction false} TrailingPrefix(gates: seq<Gate>, n: nat, c: seq<nat>)
    requires n <= |gates| && forall i :: 0 <= i < |c| ==> c[i] < n
    ensures Trailing(gates[..n], c) == Trailing(gates, c)
  {
    if c != [] && gates[c[|c| - 1]].duration == 0.0 {
      TrailingPrefix(gates, n, c[..|c| - 1]);
    }
  }

  /** A chain of the gates before is one of all gates, and takes as long. */
  lemma SameChain(gates: seq<Gate>, n: nat, c: seq<nat>, q: nat)
    requires n <= |gates| && ChainTo(gates[..n], c, q)
    ensures ChainTo(gates, c, q) && ChainTime(gates, c) == ChainTime(gates[..n], c)
  {
    hide Shares;
    WeightPrefix(gates, n, c);
    TrailingPrefix(gates, n, c);
  }

  /** A chain that does not use the last gate is one of the gates before. */
  lemma EarlierChain(gates: seq<Gate>, c: seq<nat>, q: nat)
    requires ChainTo(gates, c, q) && gates != [] && (c == [] || c[|c| - 1] < |gates| - 1)
    ensures ChainTo(gates[..|gates| - 1], c, q)
    ensures ChainTime(gates[..|gates| - 1], c) == ChainTime(gates, c)
  {
    hide Shares;
    var n := |gates| - 1;
    forall i | 0 <= i < |c| ensures c[i] < n {
      Increasing(gates, c, q, i);
    }
    ChainPrefix(gates, n, c, q);
    SameChain(gates, n, c, q);
  }

  /** The time of a chain that ends with the last gate, from that of the chain before it. */
  lemma ChainAdvances(gates: seq<Gate>, c: seq<nat>)
    requires c != [] && forall i :: 0 <= i < |c| ==> c[i] < |gates|
    ensures var d := gates[c[|c| - 1]].duration;
      ChainTime(gates, c) == AdvanceBy(ChainTime(gates, c[..|c| - 1]), d)
  {
  }

  lemma AdvanceKeepsOrder(a: ComplexTime, b: ComplexTime, d: real)
    requires a.Time? && b.Time? && Le(a, b) && d >= 0.0
    ensures Le(AdvanceBy(a, d), AdvanceBy(b, d))
  {
  }

  /** The ends of the gate's qubits, and the latest of them, which a gate on them waits for. */
  predicate WaitsFor(ends: seq<ComplexTime>, latest: ComplexTime) {
    && Reachable(latest) && (forall i :: 0 <= i < |ends| ==> Le(ends[i], latest))
    && (latest == ZERO_TIME || latest in ends)
  }

  ghost predicate AllHeaviest(gates: seq<Gate>, qs: seq<nat>, ends: seq<ComplexTime>) {
    |ends| == |qs| && forall i :: 0 <= i < |qs| ==> Heaviest(gates, qs[i], ends[i])
  }

  /** A chain through the new gate takes no longer than what the gate waits for, and the gate. */
  lemma NewGateBound(gates: seq<Gate>, g: Gate, ends: seq<ComplexTime>, latest: ComplexTime, c: seq<nat>, q: nat)
    requires NonNegative(gates) && g.duration >= 0.0 && AllHeaviest(gates, g.qubits, ends) && WaitsFor(ends, latest)
    requires ChainTo(gates + [g], c, q) && c != [] && c[|c| - 1] == |gates|
    ensures Le(ChainTime(gates + [g], c), AdvanceBy(latest, g.duration))
  {
    hide Shares, Compare, ChainTime, AdvanceBy, Heaviest;
    var all, m := gates + [g], |c| - 1;
    assert all[..|gates|] == gates;
    ChainAdvances(all, c);
    if m == 0 {
      assert c[..m] == [];
      NoChainTime(all, latest);
    } else {
      var i := Joint(all, c, q);
      var p := g.qubits[i];
      ChainFront(all, c, q, p);
      assert c[..m][m - 1] == c[m - 1];
      EarlierChain(all, c[..m], p);
      HeaviestAt(gates, p, ends[i], c[..m]);
      TotalOrder(ChainTime(gates, c[..m]), ends[i], latest);
    }
    AdvanceKeepsOrder(ChainTime(all, c[..m]), latest, g.duration);
  }

  /** The qubit on which the last two gates of a chain meet, by its place in the last one. */
  lemma Joint(gates: seq<Gate>, c: seq<nat>, q: nat) returns (i: nat)
    requires ChainTo(gates, c, q) && |c| > 1
    ensures i < |gates[c[|c| - 1]].qubits| && gates[c[|c| - 1]].qubits[i] in gates[c[|c| - 2]].qubits
    ensures c[|c| - 2] < c[|c| - 1] < |gates|
  {
    var m := |c| - 1;
    assert c[m - 1] < c[m] && Shares(gates[c[m - 1]], gates[c[m]]);
    var j :| 0 <= j < |gates[c[m - 1]].qubits| && gates[c[m - 1]].qubits[j] in gates[c[m]].qubits;
    i :| 0 <= i < |gates[c[m]].qubits| && gates[c[m]].qubits[i] == gates[c[m - 1]].qubits[j];
  }

  lemma NoChainTime(gates: seq<Gate>, latest: ComplexTime)
    requires Reachable(latest)
    ensures ChainTime(gates, []) == ZERO_TIME && Le(ChainTime(gates, []), latest)
  {
  }

  lemma HeaviestAt(gates: seq<Gate>, q: nat, end: ComplexTime, c: seq<nat>)
    requires Heaviest(gates, q, end) && ChainTo(gates, c, q)
    ensures Le(ChainTime(gates, c), end) && ChainTime(gates, c).Time?
  {
    hide Le, ChainTo;
  }

  /** A gate moves the ends of its qubits to the time of the heaviest chain again. */
  lemma NewGateHeaviest(gates: seq<Gate>, g: Gate, ends: seq<ComplexTime>, latest: ComplexTime, q: nat)
    requires NonNegative(gates) && g.duration >= 0.0 && AllHeaviest(gates, g.qubits, ends) && WaitsFor(ends, latest)
    requires q in g.qubits
    ensures Heaviest(gates + [g], q, AdvanceBy(latest, g.duration))
  {
    hide Shares, Compare, ChainTime, AdvanceBy, Heaviest;
    var all, end := gates + [g], AdvanceBy(latest, g.duration);
    assert all[..|gates|] == gates;
    forall c | ChainTo(all, c, q) ensures Le(ChainTime(all, c), end) {
      if c != [] && c[|c| - 1] == |gates| {
        NewGateBound(gates, g, ends, latest, c, q);
      } else {
        if c != [] {
          LastInside(all, c, q);
        }
        EarlierChain(all, c, q);
        var i :| 0 <= i < |g.qubits| && g.qubits[i] == q;
        HeaviestAt(gates, q, ends[i], c);
        AdvanceLater(latest, g.duration);
        TotalOrder(ChainTime(gates, c), ends[i], latest);
        TotalOrder(ChainTime(gates, c), latest, end);
        TotalOrder(latest, end, end);
      }
    }
    var c := LatestChain(gates, g, ends, latest, q);
    HeaviestBy(all, q, end, c);
  }

  lemma LastInside(gates: seq<Gate>, c: seq<nat>, q: nat)
    requires ChainTo(gates, c, q) && c != []
    ensures c[|c| - 1] < |gates|
  {
    hide Shares;
  }

  lemma HeaviestBy(gates: seq<Gate>, q: nat, end: ComplexTime, c: seq<nat>)
    requires ChainTo(gates, c, q) && ChainTime(gates, c) == end
    requires forall d :: ChainTo(gates, d, q) ==> Le(ChainTime(gates, d), end)
    ensures Heaviest(gates, q, end)
  {
    hide ChainTo, ChainTime, Le;
  }

  /** A chain to what the gate waits for, and the gate behind it. */
  lemma LatestChain(gates: seq<Gate>, g: Gate, ends: seq<ComplexTime>, latest: ComplexTime, q: nat)
    returns (c: seq<nat>)
    requires AllHeaviest(gates, g.qubits, ends) && WaitsFor(ends, latest) && q in g.qubits
    ensures ChainTo(gates + [g], c, q) && ChainTime(gates + [g], c) == AdvanceBy(latest, g.duration)
  {
    hide Shares, Compare, ChainTime, AdvanceBy, Le;
    var all := gates + [g];
    assert all[..|gates|] == gates;
    var rest: seq<nat> := [];
    if latest == ZERO_TIME {
      NoChain(all, q);
    } else {
      var i :| 0 <= i < |ends| && ends[i] == latest;
      rest :| ChainTo(gates, rest, g.qubits[i]) && ChainTime(gates, rest) == latest;
      SameChain(all, |gates|, rest, g.qubits[i]);
      ChainLonger(all, rest, g.qubits[i], q);
    }
    c := rest + [|gates|];
    assert c[..|c| - 1] == rest;
    ChainInside(all, c, q);
    ChainAdvances(all, c);
  }

  lemma NoChain(gates: seq<Gate>, q: nat)
    requires gates != [] && q in gates[|gates| - 1].qubits
    ensures ChainTime(gates, []) == ZERO_TIME && ChainTo(gates, [] + [|gates| - 1], q)
  {
    hide Shares;
  }

  lemma ChainInside(gates: seq<Gate>, c: seq<nat>, q: nat)
    requires ChainTo(gates, c, q)
    ensures forall i :: 0 <= i < |c| ==> c[i] < |gates|
  {
    hide Shares;
  }

  /** A gate on other qubits changes no chain. */
  lemma OtherGateHeaviest(gates: seq<Gate>, g: Gate, q: nat, end: ComplexTime)
    requires Heaviest(gates, q, end) && q !in g.qubits
    ensures Heaviest(gates + [g], q, end)
  {
    hide Shares, Compare, ChainTime, Le;
    var all := gates + [g];
    assert all[..|gates|] == gates;
    forall c | ChainTo(all, c, q) ensures Le(ChainTime(all, c), end) {
      LastElsewhere(all, c, q);
      EarlierChain(all, c, q);
    }
    var c :| ChainTo(gates, c, q) && ChainTime(gates, c) == end;
    SameChain(all, |gates|, c, q);
  }

  lemma LastElsewhere(gates: seq<Gate>, c: seq<nat>, q: nat)
    requires ChainTo(gates, c, q) && gates != [] && q !in gates[|gates| - 1].qubits
    ensures c == [] || c[|c| - 1] < |gates| - 1
  {
    hide Shares;
  }

  /** On a qubit that no gate is on there is no chain but the empty one. */
  lemma NoGateHeaviest(gates: seq<Gate>, q: nat)
    requires Within(gates, q)
    ensures Heaviest(gates, q, ZERO_TIME)
  {
    hide Shares;
    assert ChainTo(gates, [], q) && ChainTime(gates, []) == ZERO_TIME;
  }

  // ---------------------------------------------------------------- ends over whole runs

  lemma LegalBefore(optimize: bool, events: seq<Event>)
    requires LegalRun(optimize, events) && events != []
    ensures var (before, e) := (events[..|events| - 1], events[|events| - 1]);
      && LegalRun(optimize, before) && LegalEvent(Run(optimize, before), e)
      && Run(optimize, events) == Step(optimize, Run(optimize, before), e)
  {
    hide Step, LegalEvent, Shaped;
    var n := |events| - 1;
    RunNext(optimize, events, n);
    assert events[..n + 1] == events;
    forall i | 0 <= i < n ensures LegalEvent(Run(optimize, events[..n][..i]), events[..n][i]) {
      assert events[..n][..i] == events[..i];
    }
  }

  function EndsIn(m: Trace, qs: seq<nat>): (r: seq<ComplexTime>)
    requires Shaped(m) && Known(m, qs)
    ensures |r| == |qs| && forall i :: 0 <= i < |qs| ==> r[i] == m.spans[qs[i]].end
  {
    seq(|qs|, i requires 0 <= i < |qs| => m.spans[qs[i]].end)
  }

  lemma {:induction false} LatestInIs(m: Trace, qs: seq<nat>)
    requires Shaped(m) && Known(m, qs)
    ensures LatestIn(m, qs) == ZERO_TIME || LatestIn(m, qs) in EndsIn(m, qs)
  {
    hide InTime, Le, Compare;
    if qs != [] {
      var n := |qs| - 1;
      LatestInIs(m, qs[..n]);
      assert EndsIn(m, qs)[..n] == EndsIn(m, qs[..n]);
      assert EndsIn(m, qs)[n] == m.spans[qs[n]].end;
      LaterOf(LatestIn(m, qs[..n]), m.spans[qs[n]].end);
    }
  }

  /** What a gate waits for: the end of its only qubit, or the latest end of its qubits. */
  function Awaited(m: Trace, qs: seq<nat>): (latest: ComplexTime)
    requires Shaped(m) && Known(m, qs)
    ensures WaitsFor(EndsIn(m, qs), latest)
  {
    hide Compare;
    if |qs| == 1 then
      OwnEnd(m, qs[0]);
      assert EndsIn(m, qs)[0] == m.spans[qs[0]].end;
      m.spans[qs[0]].end
    else
      LatestInIs(m, qs);
      LatestIn(m, qs)
  }

  lemma OwnEnd(m: Trace, q: nat)
    requires Shaped(m) && q < |m.ids|
    ensures Reachable(m.spans[q].end) && Le(m.spans[q].end, m.spans[q].end)
  {
  }

  /** Where a gate leaves the ends of the qubits. */
  lemma AppliedEnd(m: Trace, qs: seq<nat>, d: real, q: nat)
    requires Shaped(m) && Known(m, qs) && d >= 0.0 && q < |m.ids|
    ensures var t := Apply(true, m, qs, d);
      |t.spans| == |m.spans| && t.spans[q].end == if q in qs then AdvanceBy(Awaited(m, qs), d) else m.spans[q].end
  {
    hide InTime, Compare, AdvanceBy, Reachable;
    if q in qs {
      var i :| 0 <= i < |qs| && qs[i] == q;
    }
  }

  /** Every other event leaves the ends of the qubits, and gives a new one the end zero. */
  lemma OtherEnd(m: Trace, e: Event, q: nat)
    requires Shaped(m) && LegalEvent(m, e) && !e.Applying?
    ensures var t := Step(true, m, e);
      && |t.spans| == |t.ids| == (if e.Tracing? then |m.ids| + 1 else |m.ids|)
      && (q < |t.ids| ==> t.spans[q].end == if q < |m.ids| then m.spans[q].end else ZERO_TIME)
  {
    hide InTime, Compare, LargestOf, SmallestOf, TimesIn;
  }

  ghost predicate EndsHeaviest(events: seq<Event>) {
    var (m, gates) := (Run(true, events), GatesOf(events));
    Within(gates, |m.ids|) && forall q: nat :: q < |m.ids| ==> Heaviest(gates, q, m.spans[q].end)
  }

  /**
   With depth optimisation, in every run the end of every traced qubit is the time of the heaviest chain of the gates
   applied so far, linked by shared qubits, that ends on it.
   */
  lemma {:induction false} EndIsHeaviest(events: seq<Event>)
    requires LegalRun(true, events)
    ensures EndsHeaviest(events)
  {
    hide Step, LegalEvent, Run, LegalRun, Heaviest;
    if events == [] {
      RunNothing(true);
    } else {
      var (before, e) := (events[..|events| - 1], events[|events| - 1]);
      LegalBefore(true, events);
      EndIsHeaviest(before);
      NextHeaviest(Run(true, before), GatesOf(before), e);
    }
  }

  ghost predicate Explained(gates: seq<Gate>, m: Trace) {
    && Shaped(m) && Within(gates, |m.ids|)
    && forall q: nat :: q < |m.ids| ==> Heaviest(gates, q, m.spans[q].end)
  }

  lemma NextHeaviest(m: Trace, gates: seq<Gate>, e: Event)
    requires Explained(gates, m) && LegalEvent(m, e)
    ensures Explained(if e.Applying? then gates + [Gate(e.qs, e.duration)] else gates, Step(true, m, e))
  {
    hide InTime, Heaviest, Start, Release, Return, End, Apply, AdvanceBy, Compare;
    StepShaped(true, m, e);
    var t := Step(true, m, e);
    if e.Applying? {
      var g := Gate(e.qs, e.duration);
      AppliedIds(m, e.qs, e.duration);
      forall q: nat | q < |t.ids| ensures Heaviest(gates + [g], q, t.spans[q].end) {
        AppliedEnd(m, e.qs, e.duration, q);
        if q in e.qs {
          NewGateHeaviest(gates, g, EndsIn(m, e.qs), Awaited(m, e.qs), q);
        } else {
          OtherGateHeaviest(gates, g, q, m.spans[q].end);
        }
      }
      GateWithin(m, gates, g);
    } else {
      OtherEnd(m, e, 0);
      forall q: nat | q < |t.ids| ensures Heaviest(gates, q, t.spans[q].end) {
        OtherEnd(m, e, q);
        if q == |m.ids| {
          NoGateHeaviest(gates, q);
        }
      }
    }
  }

  lemma AppliedIds(m: Trace, qs: seq<nat>, d: real)
    requires Shaped(m) && Known(m, qs) && d >= 0.0
    ensures Apply(true, m, qs, d).ids == m.ids
  {
  }

  lemma GateWithin(m: Trace, gates: seq<Gate>, g: Gate)
    requires Within(gates, |m.ids|) && Known(m, g.qubits) && g.duration >= 0.0
    ensures Within(gates + [g], |m.ids|)
  {
  }

  // ---------------------------------------------------------------- starts over whole runs

  /** The durations of the gates on a qubit, added up. */
  function Alone(gates: seq<Gate>, q: nat): real {
    if gates == [] then 0.0
    else
      var g := gates[|gates| - 1];
      Alone(gates[..|gates| - 1], q) + if q in g.qubits then g.duration else 0.0
  }

  /** A qubit that starts at `start` and has its own gates up to `own` behind that is ready just at `latest`. */
  predicate Meets(start: ComplexTime, own: ComplexTime, latest: ComplexTime) {
    && start.Time? && own.Time? && latest.Time? && start.depth + own.depth == latest.depth
    && (if start.depth == 0.0 then start.trailing + own.trailing == latest.trailing else start.trailing == 0)
  }

  /** The subtraction is the start that meets the gate. */
  lemma SubtractMeets(latest: ComplexTime, own: ComplexTime)
    requires Reachable(latest) && Reachable(own) && Le(own, latest)
    ensures Subtract(latest, own).Positive? && Meets(Subtract(latest, own).time, own, latest)
    ensures forall start :: Meets(start, own, latest) ==> start == Subtract(latest, own).time
  {
  }

  /**
   What fixed the start of a qubit, which until then had only gates alone: a gate on several qubits, which it meets
   with what it did on its own, or its release.
   */
  ghost predicate FixedBy(events: seq<Event>, k: nat, q: nat, start: ComplexTime)
    requires k < |events|
  {
    var (m, e) := (Run(true, events[..k]), events[k]);
    && LegalEvent(m, e) && q < |m.ids| && m.spans[q].start == Least
    && m.spans[q].end.Time? && m.spans[q].end.depth == Alone(GatesOf(events[..k]), q)
    && ((e.Releasing? && q in e.qs && start == ZERO_TIME)
        || (e.Applying? && |e.qs| != 1 && q in e.qs && Meets(start, m.spans[q].end, Awaited(m, e.qs))))
  }

  /** A qubit without a start had gates alone; any other has been fixed. */
  ghost predicate Accounted(events: seq<Event>, q: nat, span: Span) {
    if span.start == Least then span.end.Time? && span.end.depth == Alone(GatesOf(events), q)
    else exists k :: 0 <= k < |events| && FixedBy(events, k, q, span.start)
  }

  ghost predicate StartExplained(events: seq<Event>, q: nat) {
    var m := Run(true, events);
    q < |m.ids| ==> Accounted(events, q, m.spans[q])
  }

  lemma FixedLater(events: seq<Event>, k: nat, q: nat, start: ComplexTime)
    requires k < |events| - 1 && FixedBy(events[..|events| - 1], k, q, start)
    ensures FixedBy(events, k, q, start)
  {
    hide Run, GatesOf, LegalEvent;
    assert events[..|events| - 1][..k] == events[..k];
  }

  /** Where a gate on several qubits starts a qubit of it that is not fixed. */
  lemma AppliedStart(m: Trace, qs: seq<nat>, d: real, q: nat)
    requires Shaped(m) && Known(m, qs) && d >= 0.0 && q < |m.ids|
    ensures var t := Apply(true, m, qs, d);
      && |t.spans| == |m.spans|
      && (m.spans[q].start != Least || |qs| == 1 || q !in qs ==> t.spans[q].start == m.spans[q].start)
      && (m.spans[q].start == Least && |qs| != 1 && q in qs ==>
            t.spans[q].start != Least && Meets(t.spans[q].start, m.spans[q].end, Awaited(m, qs)))
  {
    hide InTime, Compare, AdvanceBy, Reachable, Subtract, Meets;
    if m.spans[q].start == Least && |qs| != 1 && q in qs {
      var i :| 0 <= i < |qs| && qs[i] == q;
      EndReachable(m, q);
      SubtractMeets(LatestIn(m, qs), m.spans[q].end);
    }
  }

  lemma EndReachable(m: Trace, q: nat)
    requires Shaped(m) && q < |m.ids|
    ensures Reachable(m.spans[q].end)
  {
    hide Reachable, Le;
  }

  /** A release fixes at zero what is not fixed; the events but gates fix nothing else. */
  lemma OtherStart(m: Trace, e: Event, q: nat)
    requires Shaped(m) && LegalEvent(m, e) && !e.Applying?
    ensures var t := Step(true, m, e);
      && |t.spans| == |t.ids| == (if e.Tracing? then |m.ids| + 1 else |m.ids|)
      && (q < |m.ids| ==>
            t.spans[q].start
            == if e.Releasing? && q in e.qs && m.spans[q].start == Least then ZERO_TIME else m.spans[q].start)
      && (q == |m.ids| && e.Tracing? ==> t.spans[q].start == Least)
  {
    hide InTime, Compare, LargestOf, SmallestOf, TimesIn;
  }

  lemma AloneMore(gates: seq<Gate>, g: Gate, q: nat)
    ensures Alone(gates + [g], q) == Alone(gates, q) + if q in g.qubits then g.duration else 0.0
  {
    assert (gates + [g])[..|gates|] == gates;
  }

  lemma {:induction false} NothingAlone(gates: seq<Gate>, q: nat)
    requires Within(gates, q)
    ensures Alone(gates, q) == 0.0
  {
    if gates != [] {
      NothingAlone(gates[..|gates| - 1], q);
    }
  }

  /**
   With depth optimisation, in every run: a qubit without a start had gates alone, and its end is as deep as they
   are together; a start is where a gate on several qubits found it, less what it had done on its own, or zero.
   */
  lemma {:induction false} StartsExplained(events: seq<Event>, q: nat)
    requires LegalRun(true, events)
    ensures StartExplained(events, q)
  {
    hide Step, LegalEvent, Run, LegalRun, FixedBy, Alone, GatesOf, Heaviest;
    if events == [] {
      RunNothing(true);
    } else {
      var n := |events| - 1;
      LegalBefore(true, events);
      EndIsHeaviest(events[..n]);
      StartsExplained(events[..n], q);
      StartNext(events, q);
    }
  }

  lemma StartNext(events: seq<Event>, q: nat)
    requires events != [] && LegalRun(true, events) && StartExplained(events[..|events| - 1], q)
    requires LegalEvent(Run(true, events[..|events| - 1]), events[|events| - 1])
    requires Run(true, events) == Step(true, Run(true, events[..|events| - 1]), events[|events| - 1])
    requires EndsHeaviest(events[..|events| - 1])
    ensures StartExplained(events, q)
  {
    hide Step, LegalEvent, Run, LegalRun, Alone, Heaviest, Meets, Apply;
    var n := |events| - 1;
    var (m, e) := (Run(true, events[..n]), events[n]);
    if q < |m.ids| {
      StartStays(events, q);
    } else if q < |Run(true, events).ids| {
      NewStart(m, GatesOf(events[..n]), e, q);
    }
  }

  lemma AdvanceDepth(t: ComplexTime, d: real)
    requires t.Time?
    ensures AdvanceBy(t, d).Time? && AdvanceBy(t, d).depth == t.depth + d
  {
  }

  /** The gates of a run and one event more. */
  lemma GatesNext(events: seq<Event>)
    requires events != []
    ensures var (before, e) := (GatesOf(events[..|events| - 1]), events[|events| - 1]);
      GatesOf(events) == if e.Applying? then before + [Gate(e.qs, e.duration)] else before
  {
  }

  /** The last event keeps what is known of the start of a qubit, or fixes it. */
  lemma StartStays(events: seq<Event>, q: nat)
    requires events != [] && StartExplained(events[..|events| - 1], q)
    requires LegalEvent(Run(true, events[..|events| - 1]), events[|events| - 1])
    requires Run(true, events) == Step(true, Run(true, events[..|events| - 1]), events[|events| - 1])
    requires q < |Run(true, events[..|events| - 1]).ids|
    ensures StartExplained(events, q)
  {
    hide Run, Alone, Meets, Apply, Release, Start, Return, End, GatesOf, AdvanceBy, InTime;
    var n := |events| - 1;
    var (m, e, t) := (Run(true, events[..n]), events[n], Run(true, events));
    GatesNext(events);
    if e.Applying? {
      AppliedIds(m, e.qs, e.duration);
      AppliedStart(m, e.qs, e.duration, q);
      AppliedEnd(m, e.qs, e.duration, q);
      AloneMore(GatesOf(events[..n]), Gate(e.qs, e.duration), q);
      EndReachable(m, q);
      AdvanceDepth(m.spans[q].end, e.duration);
    } else {
      OtherStart(m, e, q);
      OtherEnd(m, e, q);
      EndReachable(m, q);
    }
    if m.spans[q].start != Least {
      var k :| 0 <= k < n && FixedBy(events[..n], k, q, m.spans[q].start);
      FixedLater(events, k, q, m.spans[q].start);
    } else if t.spans[q].start != Least {
      assert FixedBy(events, n, q, t.spans[q].start);
    }
  }

  /** A qubit traced by the last event has no start, and no gates. */
  lemma NewStart(m: Trace, gates: seq<Gate>, e: Event, q: nat)
    requires Shaped(m) && LegalEvent(m, e) && |m.ids| <= q < |Step(true, m, e).ids| && Within(gates, |m.ids|)
    ensures var t := Step(true, m, e);
      && !e.Applying? && q < |t.spans| && t.spans[q].start == Least && t.spans[q].end == ZERO_TIME
      && Alone(gates, q) == 0.0
  {
    hide Alone, Apply, InTime, Within;
    if e.Applying? {
      AppliedIds(m, e.qs, e.duration);
    } else {
      OtherStart(m, e, q);
      OtherEnd(m, e, q);
      NothingAlone(gates, q);
    }
  }
}
