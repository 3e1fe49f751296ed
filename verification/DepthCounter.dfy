/**
 The depth counter: without depth optimisation it tracks when each qubit is available; with it, it fixes
 qubits in time as late as possible and reuses underlying qubits between their busy intervals.
 */
module DepthCounting {
  import opened ComplexTimes
  import opened GateSchedule
  import opened SortedQubitPools

  /** Availability times by qubit id; ids beyond the table are available at the default time. */
  class QubitAvailabilityTimeTracker {
    const defaultAvailabilityTime: real
    var qubitAvailableAt: seq<real>

    constructor (defaultAvailabilityTime: real)
      ensures this.defaultAvailabilityTime == defaultAvailabilityTime
      ensures forall q: nat :: TimeOf(q) == defaultAvailabilityTime
    {
      this.defaultAvailabilityTime := defaultAvailabilityTime;
      qubitAvailableAt := [];
    }

    function TimeOf(qubitId: nat): real
      reads this
    {
      if qubitId < |qubitAvailableAt| then qubitAvailableAt[qubitId] else defaultAvailabilityTime
    }

    /** Sets one time; the table grows as needed, and no other time changes. */
    method SetTime(qubitId: nat, value: real)
      modifies this
      ensures forall q: nat :: TimeOf(q) == if q == qubitId then value else old(TimeOf(q))
    {
      if qubitId == |qubitAvailableAt| {
        qubitAvailableAt := qubitAvailableAt + [value];
        return;
      } else if qubitId > |qubitAvailableAt| {
        qubitAvailableAt := qubitAvailableAt + seq(qubitId - |qubitAvailableAt| + 1, i => defaultAvailabilityTime);
      }
      qubitAvailableAt := qubitAvailableAt[qubitId := value];
    }
  }

  /** The times of one qubit; `startTime` is `Least` until a gate on several qubits fixes it. */
  class QubitTimeMetrics {
    const qubitId: nat
    var startTime: ComplexTime
    var endTime: ComplexTime

    constructor (qubitId: nat)
      ensures this.qubitId == qubitId && startTime == Least && endTime == ZERO_TIME
    {
      this.qubitId := qubitId;
      startTime, endTime := Least, ZERO_TIME;
    }

    /** Fixes the start if it is not, and moves the end behind a gate that starts at `latest`. */
    method FixAndAdvance(latest: ComplexTime, duration: real)
      requires latest.Time? && (startTime == Least ==> endTime.Time? && Subtract(latest, endTime).Positive?)
      modifies this
      ensures endTime == AdvanceBy(latest, duration)
      ensures startTime == if old(startTime) == Least then Subtract(latest, old(endTime)).time else old(startTime)
    {
      if startTime == Least {
        var d := Subtract(latest, endTime);
        startTime := d.time;
      }
      endTime := AdvanceBy(latest, duration);
    }

    predicate Consistent()
      reads this
    {
      Reachable(endTime) && (startTime == Least || (Reachable(startTime) && Le(startTime, endTime)))
    }
  }

  datatype OperationCallRecord = OperationCallRecord(
    minOperationStartTime: real,
    maxOperationStartTime: real,
    releasedQubitsAvailableTime: real,
    returnedQubitsAvailableTime: real,
    maxQubitIdAtStart: int,
    inputs: seq<QubitTimeMetrics>)

  datatype Sample = Sample(depth: real, startTimeDifference: real, width: int)

  /** The largest of some times and zero. */
  function LargestOf(times: seq<real>): (r: real)
    ensures r >= 0.0 && forall t :: t in times ==> t <= r
  {
    if times == [] then 0.0
    else
      var n := |times| - 1;
      assert times == times[..n] + [times[n]];
      Larger(LargestOf(times[..n]), times[n])
  }

  lemma {:induction false} LargestGrows(a: seq<real>, b: seq<real>)
    requires |a| == |b| && forall i :: 0 <= i < |a| ==> a[i] <= b[i]
    ensures LargestOf(a) <= LargestOf(b)
  {
    if a != [] {
      var n := |a| - 1;
      LargestGrows(a[..n], b[..n]);
    }
  }

  function Ids(qs: seq<QubitTimeMetrics>): (r: seq<nat>)
    ensures |r| == |qs| && forall i :: 0 <= i < |qs| ==> r[i] == qs[i].qubitId
  {
    seq(|qs|, i requires 0 <= i < |qs| => qs[i].qubitId)
  }

  /** The largest of the tracked times is the latest of the gates. */
  lemma {:induction false} LatestOf(gates: seq<Gate>, ids: seq<nat>, times: seq<real>)
    requires |ids| == |times| && forall i :: 0 <= i < |ids| ==> times[i] == Available(gates, ids[i])
    ensures LargestOf(times) == Latest(gates, ids)
  {
    hide Available;
    if ids != [] {
      var n := |ids| - 1;
      LatestOf(gates, ids[..n], times[..n]);
    }
  }

  lemma GateAdded(gates: seq<Gate>, ids: seq<nat>, duration: real)
    requires NonNegative(gates) && duration >= 0.0
    ensures var more := gates + [Gate(ids, duration)];
      && NonNegative(more)
      && (forall q: nat ::
            Available(more, q) == if q in ids then Latest(gates, ids) + duration else Available(gates, q))
      && (forall q: nat :: Available(gates, q) <= Available(more, q))
  {
    var more := gates + [Gate(ids, duration)];
    assert more[..|gates|] == gates;
    forall q: nat ensures Available(gates, q) <= Available(more, q) {
      AvailableGrows(more, q);
    }
  }

  /** The latest end of some qubits, and zero. */
  ghost function LatestEnd(qs: seq<QubitTimeMetrics>): ComplexTime
    reads qs
  {
    if qs == [] then ZERO_TIME else Max(LatestEnd(qs[..|qs| - 1]), qs[|qs| - 1].endTime)
  }

  lemma {:induction false} LatestEndIs(qs: seq<QubitTimeMetrics>)
    requires forall q :: q in qs ==> Reachable(q.endTime)
    ensures Reachable(LatestEnd(qs)) && forall q :: q in qs ==> Le(q.endTime, LatestEnd(qs))
  {
    if qs != [] {
      var n := |qs| - 1;
      LatestEndIs(qs[..n]);
      assert qs == qs[..n] + [qs[n]];
      forall q | q in qs ensures Le(q.endTime, LatestEnd(qs)) {
        TotalOrder(q.endTime, LatestEnd(qs[..n]), qs[n].endTime);
      }
    }
  }

  /** What a gate on several qubits that starts at `latest` makes of the times of each. */
  predicate Fixed(start: ComplexTime, end: ComplexTime, wasStart: ComplexTime, wasEnd: ComplexTime,
                  latest: ComplexTime, duration: real)
  {
    && latest.Time? && wasEnd.Time?
    && end == AdvanceBy(latest, duration)
    && (wasStart != Least ==> start == wasStart)
    && (wasStart == Least ==> Subtract(latest, wasEnd) == Positive(start))
  }

  /** The subtraction that fixes a qubit never throws, and its interval is in order. */
  lemma FixedStarts(wasStart: ComplexTime, wasEnd: ComplexTime, latest: ComplexTime, duration: real)
    requires Reachable(wasEnd) && Reachable(latest) && Le(wasEnd, latest) && duration >= 0.0
    requires wasStart == Least || (Reachable(wasStart) && Le(wasStart, wasEnd))
    ensures Subtract(latest, wasEnd).Positive? && Subtract(latest, wasEnd).time != Least
    ensures wasEnd.depth <= AdvanceBy(latest, duration).depth
    ensures Reachable(AdvanceBy(latest, duration)) && Le(wasEnd, AdvanceBy(latest, duration))
    ensures var start := if wasStart == Least then Subtract(latest, wasEnd).time else wasStart;
      Reachable(start) && Le(start, AdvanceBy(latest, duration))
  {
    SubtractLater(latest, wasEnd);
    AdvanceLater(latest, duration);
    TotalOrder(wasStart, wasEnd, latest);
    TotalOrder(Subtract(latest, wasEnd).time, latest, AdvanceBy(latest, duration));
    TotalOrder(wasEnd, latest, AdvanceBy(latest, duration));
    TotalOrder(wasStart, latest, AdvanceBy(latest, duration));
  }

  lemma NoTime(t: ComplexTime, duration: real)
    requires t.Time? && duration >= 0.0
    ensures t.depth <= AdvanceBy(t, duration).depth
  {
  }

  // ---------------------------------------------------------------- spans of released qubits

  /** The time a released qubit was busy. */
  datatype Span = Span(start: ComplexTime, end: ComplexTime)

  predicate InOrder(q: Span) { Reachable(q.start) && Reachable(q.end) && Le(q.start, q.end) }

  ghost function SpansOf(qs: seq<QubitTimeMetrics>): (r: seq<Span>)
    reads qs
    ensures |r| == |qs|
    ensures forall i :: 0 <= i < |qs| ==>
      r[i] == Span(if qs[i].startTime == Least then ZERO_TIME else qs[i].startTime, qs[i].endTime)
  {
    if qs == [] then []
    else
      var q := qs[|qs| - 1];
      SpansOf(qs[..|qs| - 1]) + [Span(if q.startTime == Least then ZERO_TIME else q.startTime, q.endTime)]
  }

  /** The spans of qubits that were in some gate. */
  function Used(spans: seq<Span>): multiset<Span> {
    if spans == [] then multiset{}
    else
      var q := spans[|spans| - 1];
      Used(spans[..|spans| - 1]) + (if q.end != ZERO_TIME then multiset{q} else multiset{})
  }

  function PlacedSpans(placed: seq<Placement>): multiset<Span> {
    if placed == [] then multiset{}
    else
      var p := placed[|placed| - 1];
      PlacedSpans(placed[..|placed| - 1]) + multiset{Span(p.start, p.end)}
  }

  /** From index `n` on, the placements are in the order of their starts. */
  predicate InOrderOfStart(placed: seq<Placement>, n: nat) {
    forall i, j :: n <= i < j < |placed| ==> Le(placed[i].start, placed[j].start)
  }

  /** They start no later than any span from index `i` on. */
  predicate AllBefore(placed: seq<Placement>, n: nat, spans: seq<Span>, i: nat) {
    forall m, j :: n <= m < |placed| && i <= j < |spans| ==> Le(placed[m].start, spans[j].start)
  }

  lemma NothingBefore(placed: seq<Placement>, spans: seq<Span>)
    ensures InOrderOfStart(placed, |placed|) && AllBefore(placed, |placed|, spans, 0)
  {
  }

  lemma StillBefore(placed: seq<Placement>, n: nat, spans: seq<Span>, i: nat)
    requires AllBefore(placed, n, spans, i)
    ensures AllBefore(placed, n, spans, i + 1)
  {
    hide Le;
  }

  lemma NextInOrder(placed: seq<Placement>, n: nat, spans: seq<Span>, i: nat, p: Placement)
    requires InOrderOfStart(placed, n) && AllBefore(placed, n, spans, i) && Ascending(spans)
    requires n <= |placed| && i < |spans| && p.start == spans[i].start
    ensures InOrderOfStart(placed + [p], n) && AllBefore(placed + [p], n, spans, i + 1)
  {
    hide Le;
  }

  lemma OnePlaced(placed: seq<Placement>, p: Placement)
    ensures PlacedSpans(placed + [p]) == PlacedSpans(placed) + multiset{Span(p.start, p.end)}
  {
    assert (placed + [p])[..|placed|] == placed;
  }

  /** Behind the spans placed before, the first `i` of `spans` are placed, in order of start and before the others. */
  predicate PlacedUpTo(before: seq<Placement>, placed: seq<Placement>, spans: seq<Span>, i: nat) {
    && i <= |spans| && before <= placed
    && PlacedSpans(placed) == PlacedSpans(before) + Used(spans[..i])
    && InOrderOfStart(placed, |before|)
    && AllBefore(placed, |before|, spans, i)
  }

  lemma PlacedNone(before: seq<Placement>, spans: seq<Span>)
    ensures PlacedUpTo(before, before, spans, 0)
  {
    hide InOrderOfStart, AllBefore, PlacedSpans;
    NothingBefore(before, spans);
  }

  lemma PlacedNext(before: seq<Placement>, placed: seq<Placement>, spans: seq<Span>, i: nat, id: int)
    requires PlacedUpTo(before, placed, spans, i) && i < |spans| && Ascending(spans)
    ensures var p := Placement(id, spans[i].start, spans[i].end);
      PlacedUpTo(before, if spans[i].end != ZERO_TIME then placed + [p] else placed, spans, i + 1)
  {
    hide InOrderOfStart, AllBefore, PlacedSpans, Ascending;
    assert spans[..i + 1][..i] == spans[..i];
    var p := Placement(id, spans[i].start, spans[i].end);
    OnePlaced(placed, p);
    NextInOrder(placed, |before|, spans, i, p);
    StillBefore(placed, |before|, spans, i);
  }

  lemma PlacedAll(before: seq<Placement>, placed: seq<Placement>, spans: seq<Span>)
    requires PlacedUpTo(before, placed, spans, |spans|)
    ensures before <= placed && PlacedSpans(placed) == PlacedSpans(before) + Used(spans)
    ensures InOrderOfStart(placed, |before|)
  {
    hide InOrderOfStart, AllBefore, PlacedSpans, Used;
    assert spans[..|spans|] == spans;
  }

  lemma {:induction false} UsedCount(spans: seq<Span>, q: Span)
    ensures Used(spans)[q] == if q.end != ZERO_TIME then multiset(spans)[q] else 0
  {
    if spans != [] {
      var n := |spans| - 1;
      UsedCount(spans[..n], q);
      assert spans == spans[..n] + [spans[n]];
    }
  }

  lemma SameUsed(a: seq<Span>, b: seq<Span>)
    requires multiset(a) == multiset(b)
    ensures Used(a) == Used(b)
  {
    hide Used;
    forall q ensures Used(a)[q] == Used(b)[q] {
      UsedCount(a, q);
      UsedCount(b, q);
    }
  }

  predicate Ascending(spans: seq<Span>) { forall i, j :: 0 <= i < j < |spans| ==> Le(spans[i].start, spans[j].start) }

  /** The spans by their starts. */
  method SortByStart(spans: seq<Span>) returns (sorted: seq<Span>)
    requires forall i :: 0 <= i < |spans| ==> InOrder(spans[i])
    ensures multiset(sorted) == multiset(spans) && Ascending(sorted)
    ensures forall i :: 0 <= i < |sorted| ==> InOrder(sorted[i])
  {
    hide InOrder, Le, Ascending;
    sorted := [];
    AscendingNone();
    for i := 0 to |spans|
      invariant multiset(sorted) == multiset(spans[..i]) && Ascending(sorted)
      invariant forall j :: 0 <= j < |sorted| ==> InOrder(sorted[j])
    {
      assert spans[..i + 1] == spans[..i] + [spans[i]];
      var k := PlaceFor(sorted, spans[i]);
      AscendingInsert(sorted, spans[i], k);
      InsertBag(sorted, spans[i], k);
      sorted := sorted[..k] + [spans[i]] + sorted[k..];
    }
    assert spans[..|spans|] == spans;
  }

  /** Where a span belongs among sorted ones. */
  method PlaceFor(sorted: seq<Span>, q: Span) returns (k: nat)
    ensures k <= |sorted| && (forall j :: 0 <= j < k ==> Le(sorted[j].start, q.start))
    ensures k < |sorted| ==> !Le(sorted[k].start, q.start)
  {
    k := 0;
    while k < |sorted| && Le(sorted[k].start, q.start)
      invariant k <= |sorted| && forall j :: 0 <= j < k ==> Le(sorted[j].start, q.start)
    {
      k := k + 1;
    }
  }

  lemma InsertBag(s: seq<Span>, q: Span, k: nat)
    requires k <= |s|
    ensures multiset(s[..k] + [q] + s[k..]) == multiset(s) + multiset{q}
  {
    assert s == s[..k] + s[k..];
  }

  lemma AscendingNone()
    ensures Ascending([])
  {
  }

  lemma AscendingInsert(s: seq<Span>, q: Span, k: nat)
    requires Ascending(s) && k <= |s| && (forall j :: 0 <= j < k ==> Le(s[j].start, q.start))
    requires k < |s| ==> !Le(s[k].start, q.start)
    ensures Ascending(s[..k] + [q] + s[k..])
  {
    hide Le;
    var t := s[..k] + [q] + s[k..];
    forall i, j | 0 <= i < j < |t| ensures Le(t[i].start, t[j].start) {
      if i == k {
        NotBelow(s, q, k, j - 1);
      }
    }
  }

  lemma NotBelow(s: seq<Span>, q: Span, k: nat, j: nat)
    requires Ascending(s) && k <= j < |s| && !Le(s[k].start, q.start)
    ensures Le(q.start, s[j].start)
  {
    hide Compare;
    TotalOrder(q.start, s[k].start, s[j].start);
  }

  lemma ZeroBefore(t: ComplexTime)
    requires Reachable(t)
    ensures Le(ZERO_TIME, t) && Reachable(ZERO_TIME)
  {
  }

  // ---------------------------------------------------------------- where a span is placed

  ghost function Values(times: map<int, ComplexTime>): set<ComplexTime> { set id | id in times :: times[id] }

  /**
   The placement, given the greatest last end at most the start and the least first start at least the
   end: behind the one, in front of the other, where both are possible on the side of the shorter gap,
   and on a new id when neither is.
   */
  ghost predicate ChosenBy(s: Schedule, q: Span, t: Schedule, id: int, end: ComplexTime, start: ComplexTime) {
    && IsLowerBound(Values(s.last), q.start, end) && IsUpperBound(Values(s.first), q.end, start)
    && (var p := Placement(id, q.start, q.end);
        if end == Least && start == Greatest then t == PlaceNew(s, q.start, q.end) && id == s.next
        else if start == Greatest || (end != Least && end.Time? && start.Time? && q.start.Time? && q.end.Time?
                                      && Closer(q, end, start))
        then t == PlaceAfter(s, p) && id in s.last && s.last[id] == end
        else t == PlaceBefore(s, p) && id in s.first && s.first[id] == start)
  }

  /** The gap behind the existing end is at most the gap in front of the existing start. */
  predicate Closer(q: Span, end: ComplexTime, start: ComplexTime)
    requires end.Time? && start.Time? && q.start.Time? && q.end.Time?
  {
    var before, after := Subtract(q.start, end), Subtract(start, q.end);
    before.Positive? && after.Positive? && Le(before.time, after.time)
  }

  ghost predicate Chosen(s: Schedule, q: Span, t: Schedule, id: int) {
    exists end, start :: ChosenBy(s, q, t, id, end, start)
  }

  /** How long an underlying qubit would idle before the span, or after it. */
  ghost predicate FitsBehind(s: Schedule, q: Span, id: int, gap: real) {
    && id in s.last && s.last[id].Time? && q.start.Time? && Le(s.last[id], q.start)
    && gap == q.start.depth - s.last[id].depth
  }

  ghost predicate FitsInFront(s: Schedule, q: Span, id: int, gap: real) {
    && id in s.first && s.first[id].Time? && q.end.Time? && Le(q.end, s.first[id])
    && gap == s.first[id].depth - q.end.depth
  }

  ghost predicate ShortestGap(s: Schedule, q: Span, gap: real) {
    forall id, other :: FitsBehind(s, q, id, other) || FitsInFront(s, q, id, other) ==> gap <= other
  }

  /**
   The span goes where an underlying qubit idles shortest; on a new one exactly when it fits behind or in front of
   what is on none.
   */
  ghost predicate Nearest(s: Schedule, q: Span, t: Schedule, id: int) {
    var p := Placement(id, q.start, q.end);
    || (t == PlaceAfter(s, p) && exists gap :: FitsBehind(s, q, id, gap) && ShortestGap(s, q, gap))
    || (t == PlaceBefore(s, p) && exists gap :: FitsInFront(s, q, id, gap) && ShortestGap(s, q, gap))
    || (t == PlaceNew(s, q.start, q.end) && id == s.next
        && forall other, gap :: !FitsBehind(s, q, other, gap) && !FitsInFront(s, q, other, gap))
  }

  lemma ChosenIsNearest(s: Schedule, q: Span, t: Schedule, id: int, end: ComplexTime, start: ComplexTime)
    requires Sound(s) && InOrder(q) && ChosenBy(s, q, t, id, end, start)
    ensures Nearest(s, q, t, id)
  {
    hide Apart, Spanned, Le, Reachable, Values, Closer, Subtract, Neighbours, FitsBehind, FitsInFront, ShortestGap;
    BoundsAreNeighbours(s, q, end, start);
    FoundTimes(s, q, end, start);
    if end == Least && start == Greatest {
      NoneFits(s, q);
    } else if start == Greatest || (end != Least && end.Time? && start.Time? && Closer(q, end, start)) {
      ShortestBehind(s, q, id, end, start);
    } else {
      ShortestInFront(s, q, id, end, start);
    }
  }

  lemma InValues(times: map<int, ComplexTime>, k: int)
    requires k in times
    ensures times[k] in Values(times)
  {
  }

  lemma ReachableTimes(s: Schedule, q: Span)
    requires Sound(s) && InOrder(q)
    ensures q.start.Time? && q.end.Time?
    ensures forall k :: k in s.last ==> k in s.first && s.last[k].Time? && s.first[k].Time?
  {
    hide Apart, Spanned, Le;
  }

  lemma DepthOrder(a: ComplexTime, b: ComplexTime)
    requires a.Time? && b.Time? && Le(a, b)
    ensures a.depth <= b.depth
  {
  }

  /** What `end` and `start` are to a span: the last end behind which it fits, and the first start in front of which. */
  ghost predicate Neighbours(s: Schedule, q: Span, end: ComplexTime, start: ComplexTime) {
    && q.start.Time? && q.end.Time?
    && (forall k :: k in s.last ==> k in s.first && s.last[k].Time? && s.first[k].Time?)
    && (forall k :: k in s.last && Le(s.last[k], q.start) ==> Le(s.last[k], end))
    && (forall k :: k in s.first && Le(q.end, s.first[k]) ==> Le(start, s.first[k]))
    && s.first.Keys == s.last.Keys
  }

  lemma BoundsAreNeighbours(s: Schedule, q: Span, end: ComplexTime, start: ComplexTime)
    requires Sound(s) && InOrder(q)
    requires IsLowerBound(Values(s.last), q.start, end) && IsUpperBound(Values(s.first), q.end, start)
    ensures Neighbours(s, q, end, start)
  {
    hide Apart, Spanned, Le, Values;
    ReachableTimes(s, q);
    forall k | k in s.last ensures s.last[k] in Values(s.last) {
      InValues(s.last, k);
    }
    forall k | k in s.first ensures s.first[k] in Values(s.first) {
      InValues(s.first, k);
    }
  }

  lemma FoundTimes(s: Schedule, q: Span, end: ComplexTime, start: ComplexTime)
    requires Sound(s) && InOrder(q)
    requires IsLowerBound(Values(s.last), q.start, end) && IsUpperBound(Values(s.first), q.end, start)
    ensures q.start.Time? && q.end.Time? && Reachable(q.start) && Reachable(q.end)
    ensures end == Least || (end.Time? && Reachable(end) && Le(end, q.start))
    ensures start == Greatest || (start.Time? && Reachable(start) && Le(q.end, start))
  {
    hide Apart, Spanned, Le;
  }

  lemma NoneFits(s: Schedule, q: Span)
    requires Neighbours(s, q, Least, Greatest)
    ensures forall other, gap :: !FitsBehind(s, q, other, gap) && !FitsInFront(s, q, other, gap)
  {
  }

  lemma ShortestBehind(s: Schedule, q: Span, id: int, end: ComplexTime, start: ComplexTime)
    requires Neighbours(s, q, end, start) && id in s.last && s.last[id] == end && Le(end, q.start)
    requires start == Greatest || (start.Time? && Closer(q, end, start))
    ensures FitsBehind(s, q, id, q.start.depth - end.depth) && ShortestGap(s, q, q.start.depth - end.depth)
  {
    hide Le, Closer;
    forall k, gap | FitsBehind(s, q, k, gap) || FitsInFront(s, q, k, gap) ensures q.start.depth - end.depth <= gap {
      if FitsBehind(s, q, k, gap) {
        DepthOrder(s.last[k], end);
      } else {
        NotAboveGreatest(s.first[k]);
        DepthOrder(start, s.first[k]);
        CloserGap(q, end, start);
      }
    }
  }

  lemma ShortestInFront(s: Schedule, q: Span, id: int, end: ComplexTime, start: ComplexTime)
    requires Neighbours(s, q, end, start) && id in s.first && s.first[id] == start && Le(q.end, start)
    requires end == Least || (end.Time? && Le(end, q.start) && !Closer(q, end, start))
    requires Reachable(q.start) && Reachable(q.end) && Reachable(start) && (end.Time? ==> Reachable(end))
    ensures FitsInFront(s, q, id, start.depth - q.end.depth) && ShortestGap(s, q, start.depth - q.end.depth)
  {
    hide Le, Closer, Reachable;
    forall k, gap | FitsBehind(s, q, k, gap) || FitsInFront(s, q, k, gap) ensures start.depth - q.end.depth <= gap {
      if FitsInFront(s, q, k, gap) {
        DepthOrder(start, s.first[k]);
      } else {
        NotBelowLeast(s.last[k]);
        DepthOrder(s.last[k], end);
        FartherGap(q, end, start);
      }
    }
  }

  lemma NotAboveGreatest(t: ComplexTime)
    requires t.Time?
    ensures !Le(Greatest, t)
  {
  }

  lemma NotBelowLeast(t: ComplexTime)
    requires t.Time?
    ensures !Le(t, Least)
  {
  }

  lemma CloserGap(q: Span, end: ComplexTime, start: ComplexTime)
    requires end.Time? && start.Time? && q.start.Time? && q.end.Time? && Closer(q, end, start)
    ensures q.start.depth - end.depth <= start.depth - q.end.depth
  {
  }

  lemma FartherGap(q: Span, end: ComplexTime, start: ComplexTime)
    requires Reachable(end) && Reachable(start) && Reachable(q.start) && Reachable(q.end)
    requires Le(end, q.start) && Le(q.end, start) && !Closer(q, end, start)
    ensures start.depth - q.end.depth <= q.start.depth - end.depth
  {
    SubtractLater(q.start, end);
    SubtractLater(start, q.end);
    var before, after := Subtract(q.start, end).time, Subtract(start, q.end).time;
    TotalOrder(before, after, after);
    DepthOrder(after, before);
  }

  lemma TimesAreValues(t: Tree, times: map<int, ComplexTime>)
    requires Holds(Content(t), times)
    ensures Times(t) == Values(times)
  {
    hide Content, Times;
    TimesOfContent(t);
    forall x | x in Times(t) ensures x in Values(times) {
      var p :| p in Content(t) && p.1 == x;
      HeldTime(Content(t), times, p.0, x);
    }
    forall x | x in Values(times) ensures x in Times(t) {
      var id :| id in times && times[id] == x;
      assert (id, x) in Content(t);
    }
  }

  // ---------------------------------------------------------------- what the pools answer

  lemma StartFound(t: Tree, s: Schedule, end: ComplexTime, x: ComplexTime)
    requires Holds(Content(t), s.first) && Sound(s) && IsUpperBound(Times(t), end, x) && x != Greatest
    ensures x in Times(t) && Le(end, x) && Reachable(x)
  {
    hide Content, Times, Compare;
    TimesOfContent(t);
    var p :| p in Content(t) && p.1 == x;
    HeldTime(Content(t), s.first, p.0, x);
  }

  lemma EndFound(t: Tree, s: Schedule, start: ComplexTime, x: ComplexTime)
    requires Holds(Content(t), s.last) && Sound(s) && IsLowerBound(Times(t), start, x) && x != Least
    ensures x in Times(t) && Le(x, start) && Reachable(x)
  {
    hide Content, Times, Compare;
    TimesOfContent(t);
    var p :| p in Content(t) && p.1 == x;
    HeldTime(Content(t), s.last, p.0, x);
  }

  lemma HeldTime(pool: multiset<(int, ComplexTime)>, times: map<int, ComplexTime>, id: int, t: ComplexTime)
    requires Holds(pool, times) && (id, t) in pool
    ensures id in times && times[id] == t
  {
  }

  lemma FreshId(s: Schedule)
    requires Sound(s)
    ensures s.next !in s.first && s.next !in s.last
  {
  }

  class DepthCounter {
    const optimizeDepth: bool
    var operationCallStack: seq<OperationCallRecord>
    const qubitAvailabilityTime: QubitAvailabilityTimeTracker
    const qubitStartTimes: SortedQubitPool
    const qubitEndTimes: SortedQubitPool
    var maxQubitId: int
    var stats: seq<Sample>

    /** The qubits traced, and what happened: the gates without depth optimisation, the placements with it. */
    ghost var traced: set<QubitTimeMetrics>
    ghost var gates: seq<Gate>
    ghost var schedule: Schedule

    ghost function AvailableTime(q: QubitTimeMetrics): real
      requires optimizeDepth ==> q.endTime.Time?
      reads q, qubitAvailabilityTime
    {
      if optimizeDepth then q.endTime.depth else qubitAvailabilityTime.TimeOf(q.qubitId)
    }

    ghost function AvailableTimes(qs: seq<QubitTimeMetrics>): (r: seq<real>)
      requires forall q :: q in qs ==> q.endTime.Time?
      reads qs, qubitAvailabilityTime
      ensures |r| == |qs| && forall i :: 0 <= i < |qs| ==> r[i] == AvailableTime(qs[i])
    {
      if qs == [] then [] else AvailableTimes(qs[..|qs| - 1]) + [AvailableTime(qs[|qs| - 1])]
    }

    /** The pools hold the first start and the last end on every underlying qubit. */
    ghost predicate Pooled()
      reads this`schedule, this`maxQubitId, qubitStartTimes, qubitEndTimes
    {
      && qubitStartTimes != qubitEndTimes && qubitStartTimes.nodeComparer != qubitEndTimes.nodeComparer
      && qubitStartTimes.Valid() && qubitEndTimes.Valid()
      && Holds(qubitStartTimes.Contents(), schedule.first)
      && Holds(qubitEndTimes.Contents(), schedule.last)
      && Sound(schedule) && Tight(schedule) && (optimizeDepth ==> schedule.next == maxQubitId)
    }

    ghost predicate Tracked()
      reads this`gates, qubitAvailabilityTime
    {
      NonNegative(gates) && forall q: nat :: qubitAvailabilityTime.TimeOf(q) == Available(gates, q)
    }

    ghost predicate Consistent()
      reads this`traced, traced
    {
      forall q :: q in traced ==> q.Consistent()
    }

    /** No operation on the stack started after the time its inputs are available now. */
    ghost predicate Nested()
      reads this`operationCallStack, this`traced, this`maxQubitId, traced, qubitAvailabilityTime
    {
      && Consistent()
      && operationCallStack != []
      && (forall r :: r in operationCallStack ==> Started(r))
    }

    ghost predicate Started(r: OperationCallRecord)
      requires Consistent()
      reads this`traced, this`maxQubitId, traced, qubitAvailabilityTime
    {
      && (forall q :: q in r.inputs ==> q in traced)
      && r.minOperationStartTime <= r.maxOperationStartTime <= LargestOf(AvailableTimes(r.inputs))
      && r.maxQubitIdAtStart <= maxQubitId
    }

    /** The operation that runs. */
    ghost function Running(): (r: OperationCallRecord)
      requires Nested()
      reads this`operationCallStack, this`traced, this`maxQubitId, traced, qubitAvailabilityTime
      ensures Started(r)
    {
      operationCallStack[|operationCallStack| - 1]
    }

    /** The last time anything in an operation is available. */
    ghost function EndOf(r: OperationCallRecord, returned: seq<QubitTimeMetrics>): real
      requires Consistent() && Started(r) && forall q :: q in returned ==> q in traced
      reads this`traced, this`maxQubitId, traced, qubitAvailabilityTime
    {
      Larger(Larger(LargestOf(AvailableTimes(returned)), r.returnedQubitsAvailableTime),
             Larger(r.releasedQubitsAvailableTime, LargestOf(AvailableTimes(r.inputs))))
    }

    ghost predicate Valid()
      reads this, traced, qubitAvailabilityTime, qubitStartTimes, qubitEndTimes
    {
      Consistent() && Nested() && Pooled() && Tracked()
    }

    constructor (optimizeDepth: bool)
      ensures Valid() && this.optimizeDepth == optimizeDepth
      ensures traced == {} && gates == [] && schedule == EMPTY_SCHEDULE && stats == [] && maxQubitId == -1
      ensures operationCallStack == [OperationCallRecord(0.0, 0.0, 0.0, 0.0, -1, [])]
      ensures fresh(qubitAvailabilityTime) && fresh(qubitStartTimes) && fresh(qubitEndTimes)
      ensures fresh(qubitStartTimes.nodeComparer) && fresh(qubitEndTimes.nodeComparer)
    {
      this.optimizeDepth := optimizeDepth;
      operationCallStack := [OperationCallRecord(0.0, 0.0, 0.0, 0.0, -1, [])];
      var starts := new SortedQubitPool();
      var ends := new SortedQubitPool();
      qubitStartTimes, qubitEndTimes := starts, ends;
      qubitAvailabilityTime := new QubitAvailabilityTimeTracker(0.0);
      maxQubitId := -1;
      stats := [];
      traced, gates, schedule := {}, [], EMPTY_SCHEDULE;
    }

    method NewTracingData(qubitId: nat) returns (q: QubitTimeMetrics)
      requires Valid()
      modifies this`traced
      ensures Valid() && fresh(q) && q.qubitId == qubitId && traced == old(traced) + {q}
      ensures q.startTime == Least && q.endTime == ZERO_TIME
    {
      hide Pooled, Tracked, LargestOf, AvailableTimes;
      q := new QubitTimeMetrics(qubitId);
      traced := traced + {q};
      assert Consistent();
      forall r | r in operationCallStack ensures Started(r) {
        assert old(Started(r));
      }
    }

    /** The largest availability time of some qubits, and zero. */
    method MaxAvailableTime(qs: seq<QubitTimeMetrics>) returns (max: real)
      requires forall q :: q in qs ==> q.endTime.Time?
      ensures max == LargestOf(AvailableTimes(qs))
    {
      max := 0.0;
      for i := 0 to |qs|
        invariant max == LargestOf(AvailableTimes(qs[..i]))
      {
        assert qs[..i + 1][..i] == qs[..i];
        assert AvailableTimes(qs[..i + 1])[..i] == AvailableTimes(qs[..i]);
        if optimizeDepth {
          max := Larger(max, qs[i].endTime.depth);
        } else {
          max := Larger(max, qubitAvailabilityTime.TimeOf(qs[i].qubitId));
        }
      }
      assert qs[..|qs|] == qs;
    }

    /** The smallest availability time of some qubits; zero for none. */
    method MinAvailableTime(qs: seq<QubitTimeMetrics>) returns (min: real)
      requires forall q :: q in qs ==> q.endTime.Time?
      ensures qs == [] ==> min == 0.0
      ensures qs != [] ==> min in AvailableTimes(qs) && forall t :: t in AvailableTimes(qs) ==> min <= t
    {
      min := 0.0;
      for i := 0 to |qs|
        invariant i == 0 ==> min == 0.0
        invariant i > 0 ==> min in AvailableTimes(qs)[..i] && forall j :: 0 <= j < i ==> min <= AvailableTimes(qs)[j]
      {
        var t := if optimizeDepth then qs[i].endTime.depth else qubitAvailabilityTime.TimeOf(qs[i].qubitId);
        assert t == AvailableTimes(qs)[i];
        assert AvailableTimes(qs)[..i + 1] == AvailableTimes(qs)[..i] + [t];
        min := if i == 0 || t < min then t else min;
      }
    }

    /** Records the start of an operation on its input qubits. */
    method OnOperationStart(qs: seq<QubitTimeMetrics>)
      requires Valid() && forall q :: q in qs ==> q in traced
      modifies this`operationCallStack
      ensures Valid() && |operationCallStack| == |old(operationCallStack)| + 1
      ensures operationCallStack[..|old(operationCallStack)|] == old(operationCallStack)
      ensures var r := operationCallStack[|operationCallStack| - 1];
        && r == OperationCallRecord(r.minOperationStartTime, LargestOf(AvailableTimes(qs)), 0.0, 0.0, maxQubitId, qs)
        && (qs == [] ==> r.minOperationStartTime == 0.0)
        && (qs != [] ==> r.minOperationStartTime in AvailableTimes(qs))
        && (forall t :: t in AvailableTimes(qs) ==> r.minOperationStartTime <= t)
    {
      hide Pooled, Tracked, LargestOf, AvailableTimes;
      var max := MaxAvailableTime(qs);
      var min := MinAvailableTime(qs);
      var r := OperationCallRecord(min, max, 0.0, 0.0, maxQubitId, qs);
      assert Started(r);
      operationCallStack := operationCallStack + [r];
    }

    /**
     Records the end of an operation: its depth is the time its qubits are available now less the time
     they all were at its start. No depth, difference or width is negative.
     */
    method OnOperationEnd(returned: seq<QubitTimeMetrics>)
      requires Valid() && |operationCallStack| > 1 && forall q :: q in returned ==> q in traced
      modifies this`operationCallStack, this`stats
      ensures Valid() && |operationCallStack| == |old(operationCallStack)| - 1
      ensures var n := |old(operationCallStack)| - 2;
        var opRec, caller := old(operationCallStack)[n + 1], old(operationCallStack)[n];
        operationCallStack == old(operationCallStack)[..n] + [caller.(
          releasedQubitsAvailableTime := Larger(opRec.releasedQubitsAvailableTime, caller.releasedQubitsAvailableTime),
          returnedQubitsAvailableTime := Larger(opRec.returnedQubitsAvailableTime, caller.returnedQubitsAvailableTime))]
      ensures stats == old(stats) + [Sample(old(EndOf(Running(), returned)) - old(Running()).maxOperationStartTime,
        old(Running()).maxOperationStartTime - old(Running()).minOperationStartTime,
        maxQubitId - old(Running()).maxQubitIdAtStart)]
      ensures var sample := stats[|stats| - 1];
        sample.depth >= 0.0 && sample.startTimeDifference >= 0.0 && sample.width >= 0
    {
      hide Pooled, Tracked, LargestOf, AvailableTimes;
      var n := |operationCallStack| - 1;
      var opRec, caller := operationCallStack[n], operationCallStack[n - 1];
      assert opRec in operationCallStack && caller in operationCallStack;
      assert Started(opRec) && Started(caller);
      var returnedTime := MaxAvailableTime(returned);
      var inputTime := MaxAvailableTime(opRec.inputs);
      var end := Larger(Larger(returnedTime, opRec.returnedQubitsAvailableTime),
                        Larger(opRec.releasedQubitsAvailableTime, inputTime));
      caller := caller.(
        releasedQubitsAvailableTime := Larger(opRec.releasedQubitsAvailableTime, caller.releasedQubitsAvailableTime),
        returnedQubitsAvailableTime := Larger(opRec.returnedQubitsAvailableTime, caller.returnedQubitsAvailableTime));
      operationCallStack := operationCallStack[..n - 1] + [caller];
      stats := stats + [Sample(end - opRec.maxOperationStartTime,
                               opRec.maxOperationStartTime - opRec.minOperationStartTime,
                               maxQubitId - opRec.maxQubitIdAtStart)];
    }

    method OnAllocate(qs: seq<QubitTimeMetrics>)
      requires Valid()
      modifies this`maxQubitId
      ensures Valid() && maxQubitId >= old(maxQubitId) && (optimizeDepth ==> maxQubitId == old(maxQubitId))
      ensures !optimizeDepth ==> forall q :: q in qs ==> q.qubitId <= maxQubitId
      ensures maxQubitId == old(maxQubitId) || exists i :: 0 <= i < |qs| && qs[i].qubitId == maxQubitId
    {
      hide Holds, Sound, Tracked, LargestOf, AvailableTimes;
      if optimizeDepth {
        return;
      }
      for i := 0 to |qs|
        invariant Valid() && maxQubitId >= old(maxQubitId)
        invariant forall j :: 0 <= j < i ==> qs[j].qubitId <= maxQubitId
        invariant maxQubitId == old(maxQubitId) || exists j :: 0 <= j < i && qs[j].qubitId == maxQubitId
      {
        maxQubitId := if maxQubitId >= qs[i].qubitId then maxQubitId else qs[i].qubitId;
      }
    }

    method OnReturn(qs: seq<QubitTimeMetrics>)
      requires Valid() && forall q :: q in qs ==> q in traced
      modifies this`operationCallStack
      ensures Valid() && |operationCallStack| == |old(operationCallStack)|
      ensures operationCallStack[..|operationCallStack| - 1] == old(operationCallStack)[..|operationCallStack| - 1]
      ensures Running() == old(Running()).(returnedQubitsAvailableTime :=
        Larger(old(Running()).returnedQubitsAvailableTime, LargestOf(AvailableTimes(qs))))
    {
      hide Pooled, Tracked, LargestOf, AvailableTimes;
      var time := MaxAvailableTime(qs);
      var n := |operationCallStack| - 1;
      var opRec := operationCallStack[n];
      assert opRec in operationCallStack && Started(opRec);
      opRec := opRec.(returnedQubitsAvailableTime := Larger(opRec.returnedQubitsAvailableTime, time));
      operationCallStack := operationCallStack[n := opRec];
    }

    // -------------------------------------------------------------- gates

    /** A gate of a duration that is not negative. */
    method OnPrimitiveOperation(qs: seq<QubitTimeMetrics>, duration: real)
      requires Valid() && duration >= 0.0 && forall q :: q in qs ==> q in traced
      modifies this`gates, qs, qubitAvailabilityTime
      ensures Valid()
      ensures !optimizeDepth ==> gates == old(gates) + [Gate(Ids(qs), duration)]
      ensures !optimizeDepth ==> forall q :: q in qs ==> q.startTime == old(q.startTime) && q.endTime == old(q.endTime)
      ensures optimizeDepth ==> gates == old(gates)
      ensures optimizeDepth && |qs| == 1 ==> forall q :: q in qs ==>
        old(q.endTime).Time? && q.endTime == AdvanceBy(old(q.endTime), duration) && q.startTime == old(q.startTime)
      ensures optimizeDepth && |qs| != 1 ==> forall q :: q in qs ==>
        Fixed(q.startTime, q.endTime, old(q.startTime), old(q.endTime), old(LatestEnd(qs)), duration)
    {
      hide Pooled, Tracked, Nested;
      if !optimizeDepth {
        PrimitiveTracked(qs, duration);
      } else if |qs| == 1 {
        assert qs[0] in qs;
        AdvanceLater(qs[0].endTime, duration);
        ghost var was := qs[0].endTime;
        TotalOrder(qs[0].startTime, was, AdvanceBy(was, duration));
        NoTime(was, duration);
        label Before:
        qs[0].endTime := AdvanceBy(qs[0].endTime, duration);
        StillNested@Before();
      } else {
        PrimitiveScheduled(qs, duration);
      }
    }

    method SetAll(qs: seq<QubitTimeMetrics>, time: real)
      modifies qubitAvailabilityTime
      ensures forall q: nat ::
        qubitAvailabilityTime.TimeOf(q) == if q in Ids(qs) then time else old(qubitAvailabilityTime.TimeOf(q))
    {
      for i := 0 to |qs|
        invariant forall q: nat ::
          qubitAvailabilityTime.TimeOf(q) == if q in Ids(qs)[..i] then time else old(qubitAvailabilityTime.TimeOf(q))
      {
        assert Ids(qs)[..i + 1] == Ids(qs)[..i] + [qs[i].qubitId];
        qubitAvailabilityTime.SetTime(qs[i].qubitId, time);
      }
      assert Ids(qs)[..|qs|] == Ids(qs);
    }

    /** Without depth optimisation: all qubits of the gate are available when it ends. */
    method PrimitiveTracked(qs: seq<QubitTimeMetrics>, duration: real)
      requires Valid() && !optimizeDepth && duration >= 0.0 && forall q :: q in qs ==> q in traced
      modifies this`gates, qubitAvailabilityTime
      ensures Valid() && gates == old(gates) + [Gate(Ids(qs), duration)]
    {
      hide Pooled, LargestOf, AvailableTimes, Available;
      var startTime := MaxAvailableTime(qs);
      LatestOf(gates, Ids(qs), AvailableTimes(qs));
      SetAll(qs, startTime + duration);
      GateAdded(gates, Ids(qs), duration);
      gates := gates + [Gate(Ids(qs), duration)];
      forall q | q in traced
        ensures q.endTime.Time? && old(q.endTime).Time? && old(AvailableTime(q)) <= AvailableTime(q)
      {
        assert q.Consistent();
      }
      StillNested();
    }

    method MaxEndTime(qs: seq<QubitTimeMetrics>) returns (maxEndTime: ComplexTime)
      requires forall q :: q in qs ==> Reachable(q.endTime)
      ensures maxEndTime == LatestEnd(qs) && Reachable(maxEndTime) && forall q :: q in qs ==> Le(q.endTime, maxEndTime)
    {
      maxEndTime := ZERO_TIME;
      for i := 0 to |qs|
        invariant maxEndTime == LatestEnd(qs[..i])
      {
        assert qs[..i + 1][..i] == qs[..i];
        maxEndTime := Max(maxEndTime, qs[i].endTime);
      }
      assert qs[..|qs|] == qs;
      LatestEndIs(qs);
    }

    method FixAll(qs: seq<QubitTimeMetrics>, latest: ComplexTime, duration: real)
      requires Reachable(latest) && duration >= 0.0 && forall q :: q in qs ==> q.Consistent() && Le(q.endTime, latest)
      modifies qs
      ensures forall q :: q in qs ==> Fixed(q.startTime, q.endTime, old(q.startTime), old(q.endTime), latest, duration)
    {
      hide Compare, AdvanceBy;
      for i := 0 to |qs|
        invariant forall q :: q in qs ==>
          q in qs[..i] || (q.startTime == old(q.startTime) && q.endTime == old(q.endTime))
        invariant forall q :: q in qs[..i] ==>
          Fixed(q.startTime, q.endTime, old(q.startTime), old(q.endTime), latest, duration)
      {
        var q := qs[i];
        assert qs[..i + 1] == qs[..i] + [q];
        assert q in qs && old(q.Consistent());
        FixedStarts(old(q.startTime), old(q.endTime), latest, duration);
        q.FixAndAdvance(latest, duration);
      }
      assert qs[..|qs|] == qs;
    }

    /** With it, a gate on several qubits fixes them in time and ends on all of them together. */
    method PrimitiveScheduled(qs: seq<QubitTimeMetrics>, duration: real)
      requires Valid() && optimizeDepth && duration >= 0.0 && forall q :: q in qs ==> q in traced
      modifies qs
      ensures Valid()
      ensures forall q :: q in qs ==>
        Fixed(q.startTime, q.endTime, old(q.startTime), old(q.endTime), old(LatestEnd(qs)), duration)
    {
      hide Pooled, Tracked, Nested, LargestOf, AvailableTimes, Compare, AdvanceBy, LatestEnd;
      var maxEndTime := MaxEndTime(qs);
      AdvanceLater(maxEndTime, duration);
      FixAll(qs, maxEndTime, duration);
      forall q | q in traced
        ensures q.Consistent() && q.endTime.Time? && old(q.endTime).Time? && old(q.endTime).depth <= q.endTime.depth
      {
        assert old(q.Consistent());
        if q in qs {
          FixedStarts(old(q.startTime), old(q.endTime), maxEndTime, duration);
        }
      }
      StillNested();
    }

    // -------------------------------------------------------------- releases

    /**
     Releases qubits. With depth optimisation, each that was used in a gate is placed on an underlying
     qubit that is free then, or on a new one; the placements stay pairwise apart.
     */
    method OnRelease(qs: seq<QubitTimeMetrics>)
      requires Valid() && forall q :: q in qs ==> q in traced
      modifies this`operationCallStack, this`maxQubitId, this`schedule, qs
      modifies qubitStartTimes, qubitEndTimes, qubitStartTimes.nodeComparer, qubitEndTimes.nodeComparer
      ensures Valid() && |operationCallStack| == |old(operationCallStack)| && maxQubitId >= old(maxQubitId)
      ensures operationCallStack[..|operationCallStack| - 1] == old(operationCallStack)[..|operationCallStack| - 1]
      ensures Running() == old(Running()).(releasedQubitsAvailableTime :=
        Larger(old(Running()).releasedQubitsAvailableTime, LargestOf(old(AvailableTimes(qs)))))
      ensures !optimizeDepth ==> schedule == old(schedule) && maxQubitId == old(maxQubitId)
      ensures forall q :: q in qs ==> q.endTime == old(q.endTime)
      ensures forall q :: q in qs ==>
        q.startTime == if optimizeDepth && old(q.startTime) == Least then ZERO_TIME else old(q.startTime)
      ensures optimizeDepth ==> old(schedule).placed <= schedule.placed
      ensures optimizeDepth ==> InOrderOfStart(schedule.placed, |old(schedule).placed|)
      ensures optimizeDepth ==>
        PlacedSpans(schedule.placed) == PlacedSpans(old(schedule).placed) + Used(old(SpansOf(qs)))
    {
      hide Pooled, Tracked, Nested, LargestOf, AvailableTimes, Used, PlacedSpans, SpansOf;
      ReleasedTime(qs);
      label Recorded:
      if optimizeDepth {
        var spans := FixSpans(qs);
        var sorted := SortByStart(spans);
        PlaceSpans(sorted);
        SameUsed(sorted, spans);
        forall q | q in traced
          ensures q.endTime.Time? && old@Recorded(q.endTime).Time? && old@Recorded(AvailableTime(q)) <= AvailableTime(q)
        {
          assert q.Consistent();
        }
        StillNested@Recorded();
      }
    }

    method ReleasedTime(qs: seq<QubitTimeMetrics>)
      requires Valid() && forall q :: q in qs ==> q in traced
      modifies this`operationCallStack
      ensures Valid() && |operationCallStack| == |old(operationCallStack)|
      ensures operationCallStack[..|operationCallStack| - 1] == old(operationCallStack)[..|operationCallStack| - 1]
      ensures Running() == old(Running()).(releasedQubitsAvailableTime :=
        Larger(old(Running()).releasedQubitsAvailableTime, LargestOf(AvailableTimes(qs))))
    {
      hide Pooled, Tracked, LargestOf, AvailableTimes;
      var time := MaxAvailableTime(qs);
      var n := |operationCallStack| - 1;
      var opRec := operationCallStack[n];
      assert opRec in operationCallStack && Started(opRec);
      opRec := opRec.(releasedQubitsAvailableTime := Larger(opRec.releasedQubitsAvailableTime, time));
      operationCallStack := operationCallStack[n := opRec];
    }

    /** Qubits that no gate fixed in time are fixed at zero. */
    method FixSpans(qs: seq<QubitTimeMetrics>) returns (spans: seq<Span>)
      requires Consistent() && forall q :: q in qs ==> q in traced
      modifies qs
      ensures Consistent() && spans == old(SpansOf(qs))
      ensures forall q :: q in qs ==> q.endTime == old(q.endTime)
      ensures forall q :: q in qs ==> q.startTime == if old(q.startTime) == Least then ZERO_TIME else old(q.startTime)
      ensures forall i :: 0 <= i < |spans| ==> InOrder(spans[i])
    {
      hide Compare;
      spans := [];
      ghost var before := old(SpansOf(qs));
      for i := 0 to |qs|
        invariant |spans| == i && spans == before[..i]
        invariant forall q :: q in qs ==> q.endTime == old(q.endTime)
        invariant forall q :: q in qs ==>
          q.startTime == old(q.startTime) || (old(q.startTime) == Least && q.startTime == ZERO_TIME)
        invariant forall j :: 0 <= j < i ==> qs[j].startTime != Least
        invariant forall j :: 0 <= j < i ==> InOrder(spans[j])
      {
        var q := qs[i];
        assert q in qs && old(q.Consistent());
        ZeroBefore(q.endTime);
        if q.startTime == Least {
          q.startTime := ZERO_TIME;
        }
        spans := spans + [Span(q.startTime, q.endTime)];
      }
      forall q | q in traced ensures q.Consistent() {
        assert old(q.Consistent());
        ZeroBefore(q.endTime);
      }
    }

    method PlaceSpans(spans: seq<Span>)
      requires Pooled() && optimizeDepth && Ascending(spans) && forall i :: 0 <= i < |spans| ==> InOrder(spans[i])
      modifies this`maxQubitId, this`schedule
      modifies qubitStartTimes, qubitEndTimes, qubitStartTimes.nodeComparer, qubitEndTimes.nodeComparer
      ensures Pooled() && maxQubitId >= old(maxQubitId) && old(schedule).placed <= schedule.placed
      ensures PlacedSpans(schedule.placed) == PlacedSpans(old(schedule).placed) + Used(spans)
      ensures InOrderOfStart(schedule.placed, |old(schedule).placed|)
    {
      hide Pooled, PlacedSpans, InOrder, Chosen, InOrderOfStart, PlacedUpTo, Ascending, Used;
      PlacedNone(schedule.placed, spans);
      for i := 0 to |spans|
        invariant Pooled() && maxQubitId >= old(maxQubitId)
        invariant PlacedUpTo(old(schedule).placed, schedule.placed, spans, i)
      {
        ghost var placed, id := schedule.placed, 0;
        // A qubit that was in no gate needs no underlying qubit.
        if spans[i].end != ZERO_TIME {
          id := PlaceSpan(spans[i]);
        }
        PlacedNext(old(schedule).placed, placed, spans, i, id);
      }
      PlacedAll(old(schedule).placed, schedule.placed, spans);
    }

    /** Places one span behind the last end or before the first start of an underlying qubit, or on a new one. */
    method PlaceSpan(q: Span) returns (ghost id: int)
      requires Pooled() && optimizeDepth && InOrder(q)
      modifies this`maxQubitId, this`schedule
      modifies qubitStartTimes, qubitEndTimes, qubitStartTimes.nodeComparer, qubitEndTimes.nodeComparer
      ensures Pooled() && maxQubitId >= old(maxQubitId)
      ensures schedule.placed == old(schedule).placed + [Placement(id, q.start, q.end)]
      ensures Chosen(old(schedule), q, schedule, id) && Nearest(old(schedule), q, schedule, id)
    {
      hide Sound, Tight, Compare, Holds, Content, Times, Sorted, IsLowerBound, IsUpperBound, Values, Nearest;
      ghost var before := schedule;
      TimesAreValues(qubitStartTimes.qubitsSortedByTime, schedule.first);
      TimesAreValues(qubitEndTimes.qubitsSortedByTime, schedule.last);
      var reuseExistingAfterNew, existingStart := qubitStartTimes.FindBound(q.end, false);
      var reuseNewAfterExisting, existingEnd := qubitEndTimes.FindBound(q.start, true);
      if reuseExistingAfterNew {
        StartFound(qubitStartTimes.qubitsSortedByTime, schedule, q.end, existingStart);
      }
      if reuseNewAfterExisting {
        EndFound(qubitEndTimes.qubitsSortedByTime, schedule, q.start, existingEnd);
      }
      if reuseNewAfterExisting && reuseExistingAfterNew {
        SubtractLater(q.start, existingEnd);
        SubtractLater(existingStart, q.end);
        if ComplexTimes.Compare(Subtract(q.start, existingEnd).time, Subtract(existingStart, q.end).time) > 0 {
          reuseNewAfterExisting := false;
        } else {
          reuseExistingAfterNew := false;
        }
      }
      if reuseNewAfterExisting {
        id := PlaceBehind(q, existingEnd);
      } else if reuseExistingAfterNew {
        id := PlaceInFront(q, existingStart);
      } else {
        id := PlaceOnNew(q);
      }
      assert ChosenBy(before, q, schedule, id, existingEnd, existingStart);
      ChosenIsNearest(before, q, schedule, id, existingEnd, existingStart);
    }

    method PlaceBehind(q: Span, existingEnd: ComplexTime) returns (ghost id: int)
      requires Pooled() && optimizeDepth && InOrder(q)
      requires existingEnd in Times(qubitEndTimes.qubitsSortedByTime) && Le(existingEnd, q.start)
      modifies this`schedule, qubitEndTimes
      ensures Pooled() && schedule == PlaceAfter(old(schedule), Placement(id, q.start, q.end))
      ensures id in old(schedule).last && old(schedule).last[id] == existingEnd
    {
      hide Sound, Tight, Compare, Content, Times, Sorted;
      ghost var p := schedule;
      var idToReuse := qubitEndTimes.Remove(existingEnd);
      HeldTime(old(qubitEndTimes.Contents()), p.last, idToReuse, existingEnd);
      qubitEndTimes.Add(idToReuse, q.end);
      HoldsUpdated(old(qubitEndTimes.Contents()), p.last, idToReuse, q.end);
      PlaceAfterSound(p, Placement(idToReuse, q.start, q.end));
      PlacedTight(p, Placement(idToReuse, q.start, q.end));
      schedule := PlaceAfter(p, Placement(idToReuse, q.start, q.end));
      id := idToReuse;
    }

    method PlaceInFront(q: Span, existingStart: ComplexTime) returns (ghost id: int)
      requires Pooled() && optimizeDepth && InOrder(q)
      requires existingStart in Times(qubitStartTimes.qubitsSortedByTime) && Le(q.end, existingStart)
      modifies this`schedule, qubitStartTimes
      ensures Pooled() && schedule == PlaceBefore(old(schedule), Placement(id, q.start, q.end))
      ensures id in old(schedule).first && old(schedule).first[id] == existingStart
    {
      hide Sound, Tight, Compare, Content, Times, Sorted;
      ghost var p := schedule;
      var idToReuse := qubitStartTimes.Remove(existingStart);
      HeldTime(old(qubitStartTimes.Contents()), p.first, idToReuse, existingStart);
      qubitStartTimes.Add(idToReuse, q.start);
      HoldsUpdated(old(qubitStartTimes.Contents()), p.first, idToReuse, q.start);
      PlaceBeforeSound(p, Placement(idToReuse, q.start, q.end));
      PlacedTight(p, Placement(idToReuse, q.start, q.end));
      schedule := PlaceBefore(p, Placement(idToReuse, q.start, q.end));
      id := idToReuse;
    }

    method PlaceOnNew(q: Span) returns (ghost id: int)
      requires Pooled() && optimizeDepth && InOrder(q)
      modifies this`schedule, this`maxQubitId, qubitStartTimes, qubitEndTimes
      ensures Pooled() && maxQubitId == old(maxQubitId) + 1 && id == old(maxQubitId)
      ensures schedule == PlaceNew(old(schedule), q.start, q.end)
    {
      hide Sound, Tight, Compare, Content, Times, Sorted;
      ghost var p := schedule;
      FreshId(p);
      var newId := maxQubitId;
      maxQubitId := maxQubitId + 1;
      qubitStartTimes.Add(newId, q.start);
      qubitEndTimes.Add(newId, q.end);
      HoldsUpdated(old(qubitStartTimes.Contents()), p.first, newId, q.start);
      HoldsUpdated(old(qubitEndTimes.Contents()), p.last, newId, q.end);
      PlaceNewSound(p, q.start, q.end);
      NewTight(p, q.start, q.end);
      schedule := PlaceNew(p, q.start, q.end);
      id := newId;
    }

    /** Operations stay nested while no availability time goes back. */
    twostate lemma StillNested()
      requires old(Consistent() && Nested()) && Consistent()
      requires traced == old(traced) && operationCallStack == old(operationCallStack) && maxQubitId >= old(maxQubitId)
      requires forall q :: q in traced ==>
        q.endTime.Time? && old(q.endTime).Time? && old(AvailableTime(q)) <= AvailableTime(q)
      ensures Nested()
    {
      hide LargestOf, AvailableTimes;
      forall r | r in operationCallStack ensures Started(r) {
        assert old(Started(r));
        LargestGrows(old(AvailableTimes(r.inputs)), AvailableTimes(r.inputs));
      }
    }
  }

  /** The pool has each id once, with its time. */
  ghost predicate Holds(pool: multiset<(int, ComplexTime)>, times: map<int, ComplexTime>) {
    forall id, t :: pool[(id, t)] == if id in times && times[id] == t then 1 else 0
  }

  lemma HoldsUpdated(pool: multiset<(int, ComplexTime)>, times: map<int, ComplexTime>, id: int, t: ComplexTime)
    requires Holds(pool, times)
    ensures id in times ==> Holds(pool - multiset{(id, times[id])} + multiset{(id, t)}, times[id := t])
    ensures id !in times ==> Holds(pool + multiset{(id, t)}, times[id := t])
  {
  }
}
