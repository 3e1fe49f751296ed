/**
 Whole runs of the depth counter: for any events of a properly nested program, the counter's times, samples
 and placements are those of a machine over values, and busy intervals on one underlying qubit stay apart.
 */
module DepthRuns {
  import opened ComplexTimes
  import opened GateSchedule
  import opened DepthCounting

  /** What the listener is told; a qubit is named by its place among those traced. */
  datatype Event =
    | Tracing(qubitId: nat)
    | Allocating(qs: seq<nat>)
    | Starting(qs: seq<nat>)
    | Applying(qs: seq<nat>, duration: real)
    | Returning(qs: seq<nat>)
    | Releasing(qs: seq<nat>)
    | Ending(qs: seq<nat>)

  /** An operation that has not ended. */
  datatype Frame = Frame(inputs: seq<nat>, earliest: real, latest: real, released: real, returned: real, top: int)

  /**
   The times as values: the traced qubits and their spans, the gates so far, the largest id allocated, the operations
   running, the samples, and the spans released.
   */
  datatype Trace = Trace(ids: seq<nat>, spans: seq<Span>, gates: seq<Gate>, top: int, frames: seq<Frame>,
                         samples: seq<Sample>, released: seq<Span>)

  const EMPTY_TRACE := Trace([], [], [], -1, [Frame([], 0.0, 0.0, 0.0, 0.0, -1)], [], [])

  predicate Known(m: Trace, qs: seq<nat>) { forall i :: 0 <= i < |qs| ==> qs[i] < |m.ids| }

  predicate InTime(s: Span) { Reachable(s.end) && (s.start == Least || (Reachable(s.start) && Le(s.start, s.end))) }

  /** A span for every qubit, in order, and an operation that runs. */
  predicate Shaped(m: Trace) {
    && |m.ids| == |m.spans| && (forall i :: 0 <= i < |m.spans| ==> InTime(m.spans[i]))
    && m.frames != [] && forall f :: f in m.frames ==> Known(m, f.inputs)
  }

  predicate LegalEvent(m: Trace, e: Event) {
    match e
    case Tracing(_) => true
    case Applying(qs, duration) => Known(m, qs) && duration >= 0.0
    case Ending(qs) => Known(m, qs) && |m.frames| > 1
    case _ => Known(m, e.qs)
  }

  // ---------------------------------------------------------------- the machine

  /** When a qubit is available: at its own end, or when the gates on its id leave it. */
  function TimeIn(optimize: bool, m: Trace, q: nat): real
    requires Shaped(m) && q < |m.ids|
  {
    if optimize then m.spans[q].end.depth else Available(m.gates, m.ids[q])
  }

  function TimesIn(optimize: bool, m: Trace, qs: seq<nat>): (r: seq<real>)
    requires Shaped(m) && Known(m, qs)
    ensures |r| == |qs| && forall i :: 0 <= i < |qs| ==> r[i] == TimeIn(optimize, m, qs[i])
  {
    seq(|qs|, i requires 0 <= i < |qs| => TimeIn(optimize, m, qs[i]))
  }

  function SmallestOf(times: seq<real>): (r: real)
    ensures times != [] ==> r in times && forall t :: t in times ==> r <= t
  {
    if times == [] then 0.0
    else
      var n := |times| - 1;
      assert times == times[..n] + [times[n]];
      if n == 0 || times[n] < SmallestOf(times[..n]) then times[n] else SmallestOf(times[..n])
  }

  function IdsIn(m: Trace, qs: seq<nat>): (r: seq<nat>)
    requires Shaped(m) && Known(m, qs)
    ensures |r| == |qs| && forall i :: 0 <= i < |qs| ==> r[i] == m.ids[qs[i]]
  {
    seq(|qs|, i requires 0 <= i < |qs| => m.ids[qs[i]])
  }

  /** The latest end of some spans, and zero. */
  function LatestIn(m: Trace, qs: seq<nat>): (r: ComplexTime)
    requires Shaped(m) && Known(m, qs)
    ensures Reachable(r) && forall i :: 0 <= i < |qs| ==> Le(m.spans[qs[i]].end, r)
  {
    if qs == [] then ZERO_TIME
    else
      var n := |qs| - 1;
      var before, last := LatestIn(m, qs[..n]), m.spans[qs[n]].end;
      assert forall i :: 0 <= i < n ==> Le(m.spans[qs[..n][i]].end, before);
      LaterOf(before, last);
      assert forall i :: 0 <= i < n ==> Le(m.spans[qs[i]].end, Max(before, last)) by {
        forall i | 0 <= i < n ensures Le(m.spans[qs[i]].end, Max(before, last)) {
          TotalOrder(m.spans[qs[..n][i]].end, before, Max(before, last));
        }
      }
      Max(before, last)
  }

  lemma LaterOf(a: ComplexTime, b: ComplexTime)
    ensures Le(a, Max(a, b)) && Le(b, Max(a, b)) && (Max(a, b) == a || Max(a, b) == b)
  {
  }

  /** A gate alone on a qubit moves its end only. */
  function Advanced(s: Span, duration: real): (r: Span)
    requires InTime(s) && duration >= 0.0
    ensures InTime(r)
  {
    AdvanceLater(s.end, duration);
    TotalOrder(s.start, s.end, AdvanceBy(s.end, duration));
    Span(s.start, AdvanceBy(s.end, duration))
  }

  /** A gate on several qubits fixes a start that is not fixed; the subtraction never throws. */
  function Joined(s: Span, latest: ComplexTime, duration: real): (r: Span)
    requires InTime(s) && Reachable(latest) && Le(s.end, latest) && duration >= 0.0
    ensures InTime(r) && r.start != Least
  {
    FixedStarts(s.start, s.end, latest, duration);
    Span(if s.start == Least then Subtract(latest, s.end).time else s.start, AdvanceBy(latest, duration))
  }

  /** A release fixes at zero what is not fixed. */
  function Settled(s: Span): (r: Span)
    requires InTime(s)
    ensures InTime(r) && InOrder(r)
  {
    ZeroBefore(s.end);
    if s.start == Least then Span(ZERO_TIME, s.end) else s
  }

  function SpansIn(m: Trace, qs: seq<nat>): (r: seq<Span>)
    requires Shaped(m) && Known(m, qs)
    ensures |r| == |qs| && forall i :: 0 <= i < |qs| ==> r[i] == Settled(m.spans[qs[i]])
  {
    seq(|qs|, i requires 0 <= i < |qs| => Settled(m.spans[qs[i]]))
  }

  function Apply(optimize: bool, m: Trace, qs: seq<nat>, duration: real): Trace
    requires Shaped(m) && Known(m, qs) && duration >= 0.0
  {
    if !optimize then m.(gates := m.gates + [Gate(IdsIn(m, qs), duration)])
    else if |qs| == 1 then
      assert qs[0] in qs;
      m.(spans := m.spans[qs[0] := Advanced(m.spans[qs[0]], duration)])
    else
      var latest := LatestIn(m, qs);
      m.(spans := seq(|m.spans|, i requires 0 <= i < |m.spans| =>
                      if i in qs then Joined(m.spans[i], latest, duration) else m.spans[i]))
  }

  function Release(optimize: bool, m: Trace, qs: seq<nat>): Trace
    requires Shaped(m) && Known(m, qs)
  {
    var n := |m.frames| - 1;
    var time := Larger(m.frames[n].released, LargestOf(TimesIn(optimize, m, qs)));
    var t := m.(frames := m.frames[n := m.frames[n].(released := time)]);
    if !optimize then t
    else
      t.(spans := seq(|m.spans|, i requires 0 <= i < |m.spans| =>
                      if i in qs then Settled(m.spans[i]) else m.spans[i]),
         released := m.released + SpansIn(m, qs))
  }

  function Return(optimize: bool, m: Trace, qs: seq<nat>): Trace
    requires Shaped(m) && Known(m, qs)
  {
    var n := |m.frames| - 1;
    var time := Larger(m.frames[n].returned, LargestOf(TimesIn(optimize, m, qs)));
    m.(frames := m.frames[n := m.frames[n].(returned := time)])
  }

  function Start(optimize: bool, m: Trace, qs: seq<nat>): Trace
    requires Shaped(m) && Known(m, qs)
  {
    var times := TimesIn(optimize, m, qs);
    m.(frames := m.frames + [Frame(qs, SmallestOf(times), LargestOf(times), 0.0, 0.0, m.top)])
  }

  /** The operation that ends is sampled, and what it released and returned counts for its caller. */
  function End(optimize: bool, m: Trace, qs: seq<nat>): Trace
    requires Shaped(m) && Known(m, qs) && |m.frames| > 1
  {
    var n := |m.frames| - 2;
    var f, caller := m.frames[n + 1], m.frames[n];
    assert f in m.frames;
    var end := Larger(Larger(LargestOf(TimesIn(optimize, m, qs)), f.returned),
                      Larger(f.released, LargestOf(TimesIn(optimize, m, f.inputs))));
    m.(frames := m.frames[..n] + [caller.(released := Larger(f.released, caller.released),
                                          returned := Larger(f.returned, caller.returned))],
       samples := m.samples + [Sample(end - f.latest, f.latest - f.earliest, m.top - f.top)])
  }

  /** The largest of the ids allocated. */
  function Topped(m: Trace, qs: seq<nat>): (r: int)
    requires Shaped(m) && Known(m, qs)
    ensures r >= m.top && (forall i :: 0 <= i < |qs| ==> m.ids[qs[i]] <= r)
    ensures r == m.top || exists i :: 0 <= i < |qs| && m.ids[qs[i]] == r
  {
    if qs == [] then m.top
    else
      var n := |qs| - 1;
      assert qs == qs[..n] + [qs[n]];
      if m.ids[qs[n]] > Topped(m, qs[..n]) then m.ids[qs[n]] else Topped(m, qs[..n])
  }

  function Step(optimize: bool, m: Trace, e: Event): Trace
    requires Shaped(m) && LegalEvent(m, e)
  {
    match e
    case Tracing(id) => m.(ids := m.ids + [id], spans := m.spans + [Span(Least, ZERO_TIME)])
    case Allocating(qs) => if optimize then m else m.(top := Topped(m, qs))
    case Starting(qs) => Start(optimize, m, qs)
    case Applying(qs, duration) => Apply(optimize, m, qs, duration)
    case Returning(qs) => Return(optimize, m, qs)
    case Releasing(qs) => Release(optimize, m, qs)
    case Ending(qs) => End(optimize, m, qs)
  }

  /** Every event keeps the spans in order. */
  lemma StepShaped(optimize: bool, m: Trace, e: Event)
    requires Shaped(m) && LegalEvent(m, e)
    ensures Shaped(Step(optimize, m, e))
  {
    hide Le, TimesIn, LargestOf, SmallestOf, IdsIn, Advanced, Joined, Settled, Reachable;
    var t := Step(optimize, m, e);
    assert InTime(Span(Least, ZERO_TIME)) by {
      hide *;
      NewInTime();
    }
    forall f | f in t.frames ensures Known(t, f.inputs) {
      KnownFrame(optimize, m, e, f);
    }
  }

  lemma NewInTime()
    ensures InTime(Span(Least, ZERO_TIME))
  {
  }

  lemma KnownFrame(optimize: bool, m: Trace, e: Event, f: Frame)
    requires Shaped(m) && LegalEvent(m, e) && f in Step(optimize, m, e).frames
    ensures Known(Step(optimize, m, e), f.inputs)
  {
    hide InTime, TimesIn, LargestOf, SmallestOf, IdsIn, Advanced, Joined, Settled;
    assert m.frames[|m.frames| - 1] in m.frames;
    if |m.frames| > 1 {
      assert m.frames[|m.frames| - 2] in m.frames;
    }
    assert e.Starting? || exists g :: g in m.frames && g.inputs == f.inputs;
  }

  lemma NothingTraced()
    ensures Shaped(EMPTY_TRACE)
  {
  }

  /** The events of a run in order; one that is not legal is passed over. */
  ghost function Run(optimize: bool, events: seq<Event>): (m: Trace)
    ensures Shaped(m)
  {
    hide Step, LegalEvent, InTime, Known;
    if events == [] then
      NothingTraced();
      EMPTY_TRACE
    else
      var m, e := Run(optimize, events[..|events| - 1]), events[|events| - 1];
      if LegalEvent(m, e) then
        StepShaped(optimize, m, e);
        Step(optimize, m, e)
      else m
  }

  ghost predicate LegalRun(optimize: bool, events: seq<Event>) {
    forall i {:trigger events[i]} :: 0 <= i < |events| ==> LegalEvent(Run(optimize, events[..i]), events[i])
  }

  // ---------------------------------------------------------------- the counter follows the machine

  function Pick(data: seq<QubitTimeMetrics>, qs: seq<nat>): (r: seq<QubitTimeMetrics>)
    requires forall i :: 0 <= i < |qs| ==> qs[i] < |data|
    ensures |r| == |qs| && forall i :: 0 <= i < |qs| ==> r[i] == data[qs[i]]
  {
    seq(|qs|, i requires 0 <= i < |qs| => data[qs[i]])
  }

  predicate Distinct(data: seq<QubitTimeMetrics>) { forall i, j :: 0 <= i < j < |data| ==> data[i] != data[j] }

  /** The qubits traced are those of the machine, with their times. */
  ghost predicate SameQubits(ids: seq<nat>, spans: seq<Span>, data: seq<QubitTimeMetrics>)
    reads data
  {
    && |data| == |ids| == |spans| && Distinct(data)
    && forall i :: 0 <= i < |data| ==>
      data[i].qubitId == ids[i] && Span(data[i].startTime, data[i].endTime) == spans[i]
  }

  ghost predicate SameFrame(r: OperationCallRecord, f: Frame, data: seq<QubitTimeMetrics>, optimize: bool) {
    && (forall i :: 0 <= i < |f.inputs| ==> f.inputs[i] < |data|) && r.inputs == Pick(data, f.inputs)
    && r.minOperationStartTime == f.earliest && r.maxOperationStartTime == f.latest
    && r.releasedQubitsAvailableTime == f.released && r.returnedQubitsAvailableTime == f.returned
    && (!optimize ==> r.maxQubitIdAtStart == f.top)
  }

  ghost predicate SameStack(stack: seq<OperationCallRecord>, frames: seq<Frame>, data: seq<QubitTimeMetrics>,
                            optimize: bool)
  {
    |stack| == |frames| && forall i :: 0 <= i < |stack| ==> SameFrame(stack[i], frames[i], data, optimize)
  }

  /** The samples agree, but for the width with depth optimisation, where only its sign is stated. */
  ghost predicate SameSamples(stats: seq<Sample>, samples: seq<Sample>, optimize: bool) {
    && |stats| == |samples|
    && forall i :: 0 <= i < |stats| ==>
      && stats[i].depth == samples[i].depth >= 0.0
      && stats[i].startTimeDifference == samples[i].startTimeDifference >= 0.0
      && stats[i].width >= 0 && (!optimize ==> stats[i].width == samples[i].width)
  }

  ghost predicate Follows(c: DepthCounter, m: Trace, data: seq<QubitTimeMetrics>)
    reads c, data
  {
    && (forall q :: q in data ==> q in c.traced)
    && SameQubits(m.ids, m.spans, data)
    && SameStack(c.operationCallStack, m.frames, data, c.optimizeDepth)
    && SameSamples(c.stats, m.samples, c.optimizeDepth)
    && c.gates == m.gates && (!c.optimizeDepth ==> c.maxQubitId == m.top)
    && PlacedSpans(c.schedule.placed) == Used(m.released)
  }

  lemma InPick(data: seq<QubitTimeMetrics>, qs: seq<nat>, i: nat)
    requires Distinct(data) && i < |data| && forall j :: 0 <= j < |qs| ==> qs[j] < |data|
    ensures data[i] in Pick(data, qs) <==> i in qs
  {
    if data[i] in Pick(data, qs) {
      var j :| 0 <= j < |qs| && Pick(data, qs)[j] == data[i];
      assert qs[j] == i;
    }
    if i in qs {
      var j :| 0 <= j < |qs| && qs[j] == i;
      assert Pick(data, qs)[j] == data[i];
    }
  }

  /** The counter's times of some qubits are the machine's. */
  lemma TimesPicked(c: DepthCounter, m: Trace, data: seq<QubitTimeMetrics>, qs: seq<nat>)
    requires c.Tracked() && Shaped(m) && Known(m, qs) && SameQubits(m.ids, m.spans, data) && c.gates == m.gates
    requires forall q :: q in Pick(data, qs) ==> q.endTime.Time?
    ensures c.AvailableTimes(Pick(data, qs)) == TimesIn(c.optimizeDepth, m, qs)
  {
    hide InTime, Available;
    var times := c.AvailableTimes(Pick(data, qs));
    forall i | 0 <= i < |qs| ensures times[i] == TimesIn(c.optimizeDepth, m, qs)[i] {
      assert data[qs[i]] == Pick(data, qs)[i];
    }
  }

  lemma PickedTimed(c: DepthCounter, m: Trace, data: seq<QubitTimeMetrics>, qs: seq<nat>)
    requires Shaped(m) && Known(m, qs) && SameQubits(m.ids, m.spans, data) && forall q :: q in data ==> q in c.traced
    ensures forall q :: q in Pick(data, qs) ==> q in c.traced && q.endTime.Time?
  {
  }

  lemma {:induction false} LatestPicked(m: Trace, data: seq<QubitTimeMetrics>, qs: seq<nat>)
    requires Shaped(m) && Known(m, qs) && SameQubits(m.ids, m.spans, data)
    ensures LatestEnd(Pick(data, qs)) == LatestIn(m, qs)
  {
    hide InTime, Compare;
    if qs != [] {
      var n := |qs| - 1;
      LatestPicked(m, data, qs[..n]);
      assert Pick(data, qs)[..n] == Pick(data, qs[..n]);
      assert Span(data[qs[n]].startTime, data[qs[n]].endTime) == m.spans[qs[n]];
    }
  }

  lemma SpansPicked(m: Trace, data: seq<QubitTimeMetrics>, qs: seq<nat>)
    requires Shaped(m) && Known(m, qs) && SameQubits(m.ids, m.spans, data)
    ensures SpansOf(Pick(data, qs)) == SpansIn(m, qs)
  {
    hide InTime, Le;
    forall i | 0 <= i < |qs| ensures SpansOf(Pick(data, qs))[i] == SpansIn(m, qs)[i] {
      assert Span(data[qs[i]].startTime, data[qs[i]].endTime) == m.spans[qs[i]];
    }
  }

  function UsedOne(q: Span): multiset<Span> { if q.end != ZERO_TIME then multiset{q} else multiset{} }

  lemma UsedMore(spans: seq<Span>, q: Span)
    ensures Used(spans + [q]) == Used(spans) + UsedOne(q)
  {
    assert (spans + [q])[..|spans|] == spans;
  }

  lemma BagTogether(x: multiset<Span>, y: multiset<Span>, z: multiset<Span>)
    ensures x + y + z == x + (y + z)
  {
  }

  lemma {:induction false} UsedBoth(a: seq<Span>, b: seq<Span>)
    ensures Used(a + b) == Used(a) + Used(b)
  {
    hide Used, UsedOne;
    if b == [] {
      assert a + b == a && Used([]) == multiset{} by { UsedNone(); }
    } else {
      var n := |b| - 1;
      UsedBoth(a, b[..n]);
      UsedMore(a + b[..n], b[n]);
      UsedMore(b[..n], b[n]);
      BagTogether(Used(a), Used(b[..n]), UsedOne(b[n]));
      assert a + b[..n] + [b[n]] == a + b && b[..n] + [b[n]] == b;
    }
  }

  lemma UsedNone()
    ensures Used([]) == multiset{}
  {
  }

  lemma SmallestIs(times: seq<real>, x: real)
    requires times != [] ==> x in times && forall t :: t in times ==> x <= t
    requires times == [] ==> x == 0.0
    ensures x == SmallestOf(times)
  {
  }

  lemma SizesSame(m: Trace, data: seq<QubitTimeMetrics>)
    requires SameQubits(m.ids, m.spans, data)
    ensures |data| == |m.ids|
  {
  }

  method HandleStart(c: DepthCounter, data: seq<QubitTimeMetrics>, qs: seq<nat>, ghost m: Trace)
    requires c.Valid() && Shaped(m) && Follows(c, m, data) && Known(m, qs)
    modifies c`operationCallStack
    ensures c.Valid() && Follows(c, Start(c.optimizeDepth, m, qs), data)
  {
    hide InTime, LargestOf, SmallestOf, DepthCounter.Pooled, DepthCounter.Tracked, DepthCounter.Nested, Used,
         PlacedSpans, SameSamples, SameQubits, DepthCounter.AvailableTimes, Shaped;
    SizesSame(m, data);
    PickedTimed(c, m, data, qs);
    TimesPicked(c, m, data, qs);
    c.OnOperationStart(Pick(data, qs));
    var n := |c.operationCallStack| - 1;
    SmallestIs(TimesIn(c.optimizeDepth, m, qs), c.operationCallStack[n].minOperationStartTime);
    ghost var frames := Start(c.optimizeDepth, m, qs).frames;
    forall i | 0 <= i < |frames| ensures SameFrame(c.operationCallStack[i], frames[i], data, c.optimizeDepth) {
      if i < n {
        assert c.operationCallStack[..n][i] == old(c.operationCallStack)[i];
      }
    }
  }

  /** A change of the running operation's record only. */
  lemma TopChanged(before: seq<OperationCallRecord>, after: seq<OperationCallRecord>, frames: seq<Frame>, f: Frame,
                   data: seq<QubitTimeMetrics>, optimize: bool)
    requires SameStack(before, frames, data, optimize) && |after| == |before| > 0
    requires after[..|after| - 1] == before[..|before| - 1] && SameFrame(after[|after| - 1], f, data, optimize)
    ensures SameStack(after, frames[|frames| - 1 := f], data, optimize)
  {
    hide SameFrame;
    forall i | 0 <= i < |after| ensures SameFrame(after[i], frames[|frames| - 1 := f][i], data, optimize) {
      if i < |after| - 1 {
        assert after[..|after| - 1][i] == before[..|before| - 1][i];
      }
    }
  }

  method HandleReturn(c: DepthCounter, data: seq<QubitTimeMetrics>, qs: seq<nat>, ghost m: Trace)
    requires c.Valid() && Shaped(m) && Follows(c, m, data) && Known(m, qs)
    modifies c`operationCallStack
    ensures c.Valid() && Follows(c, Return(c.optimizeDepth, m, qs), data)
  {
    hide InTime, LargestOf, DepthCounter.Pooled, DepthCounter.Tracked, DepthCounter.Started, Used, PlacedSpans,
         SameSamples, SameQubits, DepthCounter.AvailableTimes;
    SizesSame(m, data);
    PickedTimed(c, m, data, qs);
    TimesPicked(c, m, data, qs);
    ghost var n := |m.frames| - 1;
    c.OnReturn(Pick(data, qs));
    TopChanged(old(c.operationCallStack), c.operationCallStack, m.frames,
               Return(c.optimizeDepth, m, qs).frames[n], data, c.optimizeDepth);
  }

  method HandleEnd(c: DepthCounter, data: seq<QubitTimeMetrics>, qs: seq<nat>, ghost m: Trace)
    requires c.Valid() && Shaped(m) && Follows(c, m, data) && Known(m, qs) && |m.frames| > 1
    modifies c`operationCallStack, c`stats
    ensures c.Valid() && Follows(c, End(c.optimizeDepth, m, qs), data)
  {
    hide InTime, LargestOf, DepthCounter.Pooled, DepthCounter.Tracked, DepthCounter.Started, Used, PlacedSpans,
         SameQubits, DepthCounter.AvailableTimes;
    SizesSame(m, data);
    PickedTimed(c, m, data, qs);
    TimesPicked(c, m, data, qs);
    ghost var n := |m.frames| - 2;
    assert m.frames[n + 1] in m.frames;
    PickedTimed(c, m, data, m.frames[n + 1].inputs);
    TimesPicked(c, m, data, m.frames[n + 1].inputs);
    c.OnOperationEnd(Pick(data, qs));
    ghost var t := End(c.optimizeDepth, m, qs);
    assert SameStack(c.operationCallStack, t.frames, data, c.optimizeDepth) by {
          assert old(c.operationCallStack)[..n] == c.operationCallStack[..n];
    }
  }

  method HandleAllocate(c: DepthCounter, data: seq<QubitTimeMetrics>, qs: seq<nat>, ghost m: Trace)
    requires c.Valid() && Shaped(m) && Follows(c, m, data) && Known(m, qs)
    modifies c`maxQubitId
    ensures c.Valid() && Follows(c, Step(c.optimizeDepth, m, Allocating(qs)), data)
  {
    hide InTime, DepthCounter.Pooled, DepthCounter.Tracked, DepthCounter.Started, Used, PlacedSpans, SameSamples,
         SameStack;
    SizesSame(m, data);
    c.OnAllocate(Pick(data, qs));
  }

  lemma IdsPicked(m: Trace, data: seq<QubitTimeMetrics>, qs: seq<nat>)
    requires Shaped(m) && Known(m, qs) && SameQubits(m.ids, m.spans, data)
    ensures Ids(Pick(data, qs)) == IdsIn(m, qs)
  {
    hide InTime;
  }

  /** What a gate on several qubits makes of one of them, as the counter and as the machine see it. */
  lemma JoinedIs(s: Span, start: ComplexTime, end: ComplexTime, latest: ComplexTime, duration: real)
    requires InTime(s) && Reachable(latest) && Le(s.end, latest) && duration >= 0.0
    requires Fixed(start, end, s.start, s.end, latest, duration)
    ensures Span(start, end) == Joined(s, latest, duration)
  {
  }

  method HandleApply(c: DepthCounter, data: seq<QubitTimeMetrics>, qs: seq<nat>, duration: real, ghost m: Trace)
    requires c.Valid() && Shaped(m) && Follows(c, m, data) && Known(m, qs) && duration >= 0.0
    modifies c`gates, data, c.qubitAvailabilityTime
    ensures c.Valid() && Follows(c, Apply(c.optimizeDepth, m, qs, duration), data)
  {
    hide InTime, DepthCounter.Pooled, DepthCounter.Tracked, DepthCounter.Nested, Used, PlacedSpans, SameSamples,
         SameStack, LatestEnd, Compare, AdvanceBy, Reachable, Fixed, Joined, Advanced;
    SizesSame(m, data);
    PickedTimed(c, m, data, qs);
    IdsPicked(m, data, qs);
    LatestPicked(m, data, qs);
    ghost var picked := Pick(data, qs);
    c.OnPrimitiveOperation(Pick(data, qs), duration);
    ghost var spans := Apply(c.optimizeDepth, m, qs, duration).spans;
    forall i | 0 <= i < |data| ensures Span(data[i].startTime, data[i].endTime) == spans[i] {
      InPick(data, qs, i);
      assert m.spans[i] == Span(old(data[i].startTime), old(data[i].endTime));
      if c.optimizeDepth && |qs| == 1 {
        AdvancedIs(m.spans[i], duration);
      } else if c.optimizeDepth && i in qs {
        var j :| 0 <= j < |qs| && qs[j] == i;
        JoinedIs(m.spans[i], data[i].startTime, data[i].endTime, LatestIn(m, qs), duration);
      }
    }
  }

  lemma AdvancedIs(s: Span, duration: real)
    requires InTime(s) && duration >= 0.0
    ensures s.end.Time? && Advanced(s, duration) == Span(s.start, AdvanceBy(s.end, duration))
  {
  }

  method HandleRelease(c: DepthCounter, data: seq<QubitTimeMetrics>, qs: seq<nat>, ghost m: Trace)
    requires c.Valid() && Shaped(m) && Follows(c, m, data) && Known(m, qs)
    modifies c`operationCallStack, c`maxQubitId, c`schedule, data
    modifies c.qubitStartTimes, c.qubitEndTimes, c.qubitStartTimes.nodeComparer, c.qubitEndTimes.nodeComparer
    ensures c.Valid() && Follows(c, Release(c.optimizeDepth, m, qs), data)
  {
    hide InTime, LargestOf, DepthCounter.Pooled, DepthCounter.Tracked, DepthCounter.Started, Used, PlacedSpans,
         SameSamples, SameStack, Shaped, Known, DepthCounter.AvailableTimes, Compare, Reachable, InOrderOfStart,
         SpansOf, Settled;
    SizesSame(m, data);
    ShapedSpans(m);
    KnownIds(m, qs);
    PickedTimed(c, m, data, qs);
    TimesPicked(c, m, data, qs);
    SpansPicked(m, data, qs);
    UsedBoth(m.released, SpansIn(m, qs));
    c.OnRelease(Pick(data, qs));
    ghost var t := Release(c.optimizeDepth, m, qs);
    forall i | 0 <= i < |data| ensures Span(data[i].startTime, data[i].endTime) == t.spans[i] {
      InPick(data, qs, i);
      assert m.spans[i] == Span(old(data[i].startTime), old(data[i].endTime));
      SettledIs(m.spans[i]);
    }
    StackReleased(old(c.operationCallStack), c.operationCallStack, m.frames, data, c.optimizeDepth,
                  LargestOf(TimesIn(c.optimizeDepth, m, qs)));
  }

  lemma ShapedSpans(m: Trace)
    requires Shaped(m)
    ensures |m.ids| == |m.spans| && m.frames != [] && forall i :: 0 <= i < |m.spans| ==> InTime(m.spans[i])
  {
    hide InTime;
  }

  lemma KnownIds(m: Trace, qs: seq<nat>)
    requires Known(m, qs)
    ensures forall i :: 0 <= i < |qs| ==> qs[i] < |m.ids|
  {
  }

  lemma SettledIs(s: Span)
    requires InTime(s)
    ensures Settled(s) == if s.start == Least then Span(ZERO_TIME, s.end) else s
  {
  }

  /** A release counts for the running operation. */
  lemma StackReleased(before: seq<OperationCallRecord>, after: seq<OperationCallRecord>, frames: seq<Frame>,
                      data: seq<QubitTimeMetrics>, optimize: bool, time: real)
    requires SameStack(before, frames, data, optimize) && |after| == |before| > 0
    requires after[..|after| - 1] == before[..|before| - 1]
    requires var r := before[|before| - 1];
      after[|after| - 1] == r.(releasedQubitsAvailableTime := Larger(r.releasedQubitsAvailableTime, time))
    ensures |frames| == |before|
    ensures var n := |frames| - 1;
      SameStack(after, frames[n := frames[n].(released := Larger(frames[n].released, time))], data, optimize)
  {
    var n := |frames| - 1;
    assert SameFrame(before[n], frames[n], data, optimize);
    TopChanged(before, after, frames, frames[n].(released := Larger(frames[n].released, time)), data, optimize);
  }

  lemma StackGrows(stack: seq<OperationCallRecord>, frames: seq<Frame>, data: seq<QubitTimeMetrics>,
                   q: QubitTimeMetrics, optimize: bool)
    requires SameStack(stack, frames, data, optimize)
    ensures SameStack(stack, frames, data + [q], optimize)
  {
    forall i | 0 <= i < |stack| ensures SameFrame(stack[i], frames[i], data + [q], optimize) {
      assert SameFrame(stack[i], frames[i], data, optimize);
      assert Pick(data + [q], frames[i].inputs) == Pick(data, frames[i].inputs);
    }
  }

  method HandleTrace(c: DepthCounter, data: seq<QubitTimeMetrics>, id: nat, ghost m: Trace)
    returns (more: seq<QubitTimeMetrics>)
    requires c.Valid() && Shaped(m) && Follows(c, m, data)
    modifies c`traced
    ensures c.Valid() && Follows(c, Step(c.optimizeDepth, m, Tracing(id)), more)
    ensures |more| == |data| + 1 && more[..|data|] == data && fresh(more[|data|])
  {
    hide InTime, DepthCounter.Pooled, DepthCounter.Tracked, DepthCounter.Nested, Used, PlacedSpans, SameSamples,
         SameStack;
    var q := c.NewTracingData(id);
    more := data + [q];
    StackGrows(c.operationCallStack, m.frames, data, q, c.optimizeDepth);
  }

  /** One event, by whichever handler it is for. */
  method Handle(c: DepthCounter, data: seq<QubitTimeMetrics>, e: Event, ghost m: Trace)
    returns (more: seq<QubitTimeMetrics>)
    requires c.Valid() && Shaped(m) && Follows(c, m, data) && LegalEvent(m, e)
    modifies c, data, c.qubitAvailabilityTime, c.qubitStartTimes, c.qubitEndTimes
    modifies c.qubitStartTimes.nodeComparer, c.qubitEndTimes.nodeComparer
    ensures c.Valid() && Follows(c, Step(c.optimizeDepth, m, e), more)
    ensures |more| >= |data| && (forall j :: 0 <= j < |data| ==> more[j] == data[j])
    ensures forall j :: |data| <= j < |more| ==> fresh(more[j])
  {
    hide InTime, Follows, DepthCounter.Valid, Start, Apply, Return, Release, End, Known, Shaped;
    more := data;
    match e
    case Tracing(id) => more := HandleTrace(c, data, id, m);
    case Allocating(qs) => HandleAllocate(c, data, qs, m);
    case Starting(qs) => HandleStart(c, data, qs, m);
    case Applying(qs, duration) => HandleApply(c, data, qs, duration, m);
    case Returning(qs) => HandleReturn(c, data, qs, m);
    case Releasing(qs) => HandleRelease(c, data, qs, m);
    case Ending(qs) => HandleEnd(c, data, qs, m);
  }

  lemma NewFollows(c: DepthCounter)
    requires c.operationCallStack == [OperationCallRecord(0.0, 0.0, 0.0, 0.0, -1, [])] && c.maxQubitId == -1
    requires c.stats == [] && c.gates == [] && c.schedule == EMPTY_SCHEDULE
    ensures Follows(c, EMPTY_TRACE, []) && Shaped(EMPTY_TRACE)
  {
    assert Pick([], []) == [];
  }

  /** One more event of a run. */
  lemma RunNext(optimize: bool, events: seq<Event>, i: nat)
    requires i < |events| && LegalRun(optimize, events)
    ensures var m := Run(optimize, events[..i]);
      LegalEvent(m, events[i]) && Run(optimize, events[..i + 1]) == Step(optimize, m, events[i])
  {
    hide Step, LegalEvent, Shaped;
    assert events[..i + 1][..i] == events[..i];
  }

  /**
   A new counter run over the events of a program: it follows the machine, its samples are the machine's and none
   is negative, and no two of the busy intervals it placed on one underlying qubit overlap; they are the spans of all
   released qubits that were in a gate.
   */
  method RunEvents(optimizeDepth: bool, events: seq<Event>) returns (c: DepthCounter, data: seq<QubitTimeMetrics>)
    requires LegalRun(optimizeDepth, events)
    ensures fresh(c) && c.Valid() && c.optimizeDepth == optimizeDepth
    ensures var m := Run(optimizeDepth, events);
      && SameQubits(m.ids, m.spans, data)
      && SameSamples(c.stats, m.samples, optimizeDepth)
      && PlacedSpans(c.schedule.placed) == Used(m.released)
    ensures var placed := c.schedule.placed; forall i, j :: 0 <= i < j < |placed| ==> Apart(placed[i], placed[j])
    ensures optimizeDepth ==> forall id :: -1 <= id < c.maxQubitId <==> id in IdsUsed(c.schedule.placed)
  {
    hide Shaped, LegalRun, LegalEvent, Step, SameQubits, SameStack, SameSamples, Used, PlacedSpans, DepthCounter.Valid,
         Apart, Run, IdsUsed;
    c := new DepthCounter(optimizeDepth);
    data := [];
    NewFollows(c);
    RunNothing(optimizeDepth);
    for i := 0 to |events|
      invariant c.Valid() && c.optimizeDepth == optimizeDepth
      invariant Follows(c, Run(optimizeDepth, events[..i]), data)
      invariant fresh(c) && fresh(c.qubitAvailabilityTime) && fresh(c.qubitStartTimes) && fresh(c.qubitEndTimes)
      invariant fresh(c.qubitStartTimes.nodeComparer) && fresh(c.qubitEndTimes.nodeComparer)
      invariant forall j :: 0 <= j < |data| ==> fresh(data[j])
    {
      RunNext(optimizeDepth, events, i);
      RunShaped(optimizeDepth, events[..i]);
      data := Handle(c, data, events[i], Run(optimizeDepth, events[..i]));
    }
    assert events[..|events|] == events;
    KeptApart(c);
  }

  lemma RunNothing(optimize: bool)
    ensures Run(optimize, []) == EMPTY_TRACE
  {
  }

  lemma RunShaped(optimize: bool, events: seq<Event>)
    ensures Shaped(Run(optimize, events))
  {
  }

  /** The underlying qubits on which something is placed. */
  function IdsUsed(placed: seq<Placement>): set<int> { set i | 0 <= i < |placed| :: placed[i].id }

  lemma KeptApart(c: DepthCounter)
    requires c.Valid()
    ensures var placed := c.schedule.placed; forall i, j :: 0 <= i < j < |placed| ==> Apart(placed[i], placed[j])
    ensures c.optimizeDepth ==> forall id :: -1 <= id < c.maxQubitId <==> id in IdsUsed(c.schedule.placed)
  {
    hide Apart, Le;
    var placed := c.schedule.placed;
    forall id | id in IdsUsed(placed) ensures id in c.schedule.first {
      var i :| 0 <= i < |placed| && placed[i].id == id;
      assert Spanned(c.schedule, placed[i]);
    }
    forall id | id in c.schedule.first ensures id in IdsUsed(placed) {
      assert StartsOn(placed, id, c.schedule.first[id]);
    }
  }
}
