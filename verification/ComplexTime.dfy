/**
 Points in time of a depth schedule, and the intervals during which the underlying qubits are busy.
 */
module ComplexTimes {

  /** A depth and the number of gates of no depth since; `Least` and `Greatest` bound every other time. */
  datatype ComplexTime = Least | Time(depth: real, trailing: int) | Greatest

  const ZERO_TIME := Time(0.0, 0)

  /** -1, 0 or 1. */
  function Compare(a: ComplexTime, b: ComplexTime): int {
    if a == b then 0
    else if a.Least? || b.Greatest? then -1
    else if a.Greatest? || b.Least? then 1
    else if a.depth < b.depth then -1
    else if a.depth > b.depth then 1
    else if a.trailing < b.trailing then -1
    else 1
  }

  predicate Le(a: ComplexTime, b: ComplexTime) { Compare(a, b) <= 0 }

  predicate Lt(a: ComplexTime, b: ComplexTime) { Compare(a, b) < 0 }

  function Max(a: ComplexTime, b: ComplexTime): ComplexTime { if Compare(a, b) > 0 then a else b }

  function Min(a: ComplexTime, b: ComplexTime): ComplexTime { if Compare(a, b) < 0 then a else b }

  function AdvanceBy(t: ComplexTime, gateTime: real): ComplexTime
    requires t.Time?
  {
    if gateTime == 0.0 then Time(t.depth, t.trailing + 1) else Time(t.depth + gateTime, 0)
  }

  datatype Difference = Positive(time: ComplexTime) | NotPositive

  function Subtract(a: ComplexTime, b: ComplexTime): Difference
    requires a.Time? && b.Time?
  {
    if a.depth == b.depth then Positive(Time(0.0, a.trailing - b.trailing))
    else if a.depth - b.depth <= 0.0 then NotPositive
    else Positive(Time(a.depth - b.depth, 0))
  }

  /** The comparison is a total order. */
  lemma TotalOrder(a: ComplexTime, b: ComplexTime, c: ComplexTime)
    ensures Le(a, b) || Le(b, a)
    ensures Le(a, b) && Le(b, a) ==> a == b
    ensures Le(a, b) && Le(b, c) ==> Le(a, c)
    ensures Lt(a, b) <==> !Le(b, a)
    ensures Compare(a, b) == -Compare(b, a)
  {
  }

  /** A time that gates can produce. */
  predicate Reachable(t: ComplexTime) { t.Time? && t.depth >= 0.0 && t.trailing >= 0 }

  /** A gate of any duration that is not negative moves time on. */
  lemma AdvanceLater(t: ComplexTime, gateTime: real)
    requires Reachable(t) && gateTime >= 0.0
    ensures Reachable(AdvanceBy(t, gateTime)) && Lt(t, AdvanceBy(t, gateTime))
  {
  }

  /** The subtraction throws exactly when the depth is smaller; from a later time it never does. */
  lemma SubtractLater(a: ComplexTime, b: ComplexTime)
    requires Reachable(a) && Reachable(b)
    ensures Subtract(a, b).NotPositive? <==> a.depth < b.depth
    ensures Le(b, a) ==> Subtract(a, b).Positive? && Reachable(Subtract(a, b).time) && Le(Subtract(a, b).time, a)
  {
  }

  // ---------------------------------------------------------------- busy intervals

  /** The underlying qubit `id` is busy from `start` to `end`. */
  datatype Placement = Placement(id: int, start: ComplexTime, end: ComplexTime)

  /** Two intervals on one id have at most an end point in common. */
  predicate Apart(p: Placement, q: Placement) { p.id == q.id ==> Le(p.end, q.start) || Le(q.end, p.start) }

  /** All placements, with the first start and the last end on every id; `next` is the id to use next. */
  datatype Schedule = Schedule(placed: seq<Placement>, first: map<int, ComplexTime>,
                               last: map<int, ComplexTime>, next: int)

  predicate Spanned(s: Schedule, p: Placement) {
    && p.id in s.first && p.id in s.last
    && Le(s.first[p.id], p.start) && Le(p.end, s.last[p.id])
  }

  ghost predicate Sound(s: Schedule) {
    && s.first.Keys == s.last.Keys
    && (forall id :: id in s.first ==> -1 <= id < s.next)
    && (forall i :: 0 <= i < |s.placed| ==> Le(s.placed[i].start, s.placed[i].end) && Spanned(s, s.placed[i]))
    && (forall i, j :: 0 <= i < j < |s.placed| ==> Apart(s.placed[i], s.placed[j]))
    && (forall id :: id in s.first ==> Reachable(s.first[id]) && Reachable(s.last[id]) && Le(s.first[id], s.last[id]))
    && s.next >= -1
  }

  const EMPTY_SCHEDULE := Schedule([], map[], map[], -1)

  function PlaceAfter(s: Schedule, p: Placement): Schedule {
    s.(placed := s.placed + [p], last := s.last[p.id := p.end])
  }

  function PlaceBefore(s: Schedule, p: Placement): Schedule {
    s.(placed := s.placed + [p], first := s.first[p.id := p.start])
  }

  function PlaceNew(s: Schedule, start: ComplexTime, end: ComplexTime): Schedule {
    Schedule(s.placed + [Placement(s.next, start, end)], s.first[s.next := start], s.last[s.next := end], s.next + 1)
  }

  /** The span of the id grows at one end, so the new interval is apart from all it holds. */
  lemma Extended(s: Schedule, t: Schedule, p: Placement)
    requires Sound(s) && t.placed == s.placed + [p] && Le(p.start, p.end) && Spanned(t, p)
    requires forall q :: q in s.placed ==> Spanned(t, q) && Apart(q, p)
    ensures forall i :: 0 <= i < |t.placed| ==> Le(t.placed[i].start, t.placed[i].end) && Spanned(t, t.placed[i])
    ensures forall i, j :: 0 <= i < j < |t.placed| ==> Apart(t.placed[i], t.placed[j])
  {
    hide Apart, Spanned, Le;
    forall i | 0 <= i < |t.placed| ensures Le(t.placed[i].start, t.placed[i].end) && Spanned(t, t.placed[i]) {
      if i < |s.placed| {
        assert t.placed[i] == s.placed[i] && s.placed[i] in s.placed;
      }
    }
    forall i, j | 0 <= i < j < |t.placed| ensures Apart(t.placed[i], t.placed[j]) {
      assert t.placed[i] == s.placed[i] && s.placed[i] in s.placed;
    }
  }

  lemma PlaceAfterSound(s: Schedule, p: Placement)
    requires Sound(s) && p.id in s.last && Le(s.last[p.id], p.start)
    requires Le(p.start, p.end) && Reachable(p.start) && Reachable(p.end)
    ensures Sound(PlaceAfter(s, p))
  {
    hide Reachable, Compare;
    var t := PlaceAfter(s, p);
    TotalOrder(s.first[p.id], s.last[p.id], p.start);
    TotalOrder(s.last[p.id], p.start, p.end);
    TotalOrder(s.first[p.id], s.last[p.id], p.end);
    TotalOrder(s.first[p.id], p.start, p.end);
    TotalOrder(p.end, p.end, p.end);
    forall q | q in s.placed ensures Spanned(t, q) && Apart(q, p) {
      TotalOrder(q.end, s.last[p.id], p.start);
      TotalOrder(q.end, s.last[p.id], p.end);
    }
    Extended(s, t, p);
  }

  lemma PlaceBeforeSound(s: Schedule, p: Placement)
    requires Sound(s) && p.id in s.first && Le(p.end, s.first[p.id])
    requires Le(p.start, p.end) && Reachable(p.start) && Reachable(p.end)
    ensures Sound(PlaceBefore(s, p))
  {
    hide Reachable, Compare;
    var t := PlaceBefore(s, p);
    TotalOrder(p.end, s.first[p.id], s.last[p.id]);
    TotalOrder(p.start, p.end, s.first[p.id]);
    TotalOrder(p.start, p.end, s.last[p.id]);
    forall q | q in s.placed ensures Spanned(t, q) && Apart(q, p) {
      TotalOrder(p.end, s.first[p.id], q.start);
      TotalOrder(p.start, s.first[p.id], q.start);
    }
    TotalOrder(p.start, p.start, p.start);
    Extended(s, t, p);
  }

  lemma PlaceNewSound(s: Schedule, start: ComplexTime, end: ComplexTime)
    requires Sound(s) && Le(start, end) && Reachable(start) && Reachable(end)
    ensures Sound(PlaceNew(s, start, end))
  {
    hide Reachable, Compare;
    var t, p := PlaceNew(s, start, end), Placement(s.next, start, end);
    TotalOrder(start, start, end);
    TotalOrder(end, end, end);
    forall q | q in s.placed ensures Spanned(t, q) && Apart(q, p) {
      assert Spanned(s, q);
    }
    Extended(s, t, p);
  }

  // ---------------------------------------------------------------- what the first starts and last ends are

  ghost predicate StartsOn(placed: seq<Placement>, id: int, time: ComplexTime) {
    exists i :: 0 <= i < |placed| && placed[i].id == id && placed[i].start == time
  }

  ghost predicate EndsOn(placed: seq<Placement>, id: int, time: ComplexTime) {
    exists i :: 0 <= i < |placed| && placed[i].id == id && placed[i].end == time
  }

  /** Every id counted is in use, and its first start and last end are those of intervals placed on it. */
  ghost predicate Tight(s: Schedule) {
    && s.first.Keys == s.last.Keys
    && (forall id :: -1 <= id < s.next ==> id in s.first)
    && (forall id :: id in s.first ==> StartsOn(s.placed, id, s.first[id]) && EndsOn(s.placed, id, s.last[id]))
  }

  lemma OnMore(placed: seq<Placement>, p: Placement)
    ensures StartsOn(placed + [p], p.id, p.start) && EndsOn(placed + [p], p.id, p.end)
    ensures forall id, time :: StartsOn(placed, id, time) ==> StartsOn(placed + [p], id, time)
    ensures forall id, time :: EndsOn(placed, id, time) ==> EndsOn(placed + [p], id, time)
  {
    var more := placed + [p];
    assert more[|placed|] == p;
    forall id, time | StartsOn(placed, id, time) ensures StartsOn(more, id, time) {
      var i :| 0 <= i < |placed| && placed[i].id == id && placed[i].start == time;
      assert more[i] == placed[i];
    }
    forall id, time | EndsOn(placed, id, time) ensures EndsOn(more, id, time) {
      var i :| 0 <= i < |placed| && placed[i].id == id && placed[i].end == time;
      assert more[i] == placed[i];
    }
  }

  lemma PlacedTight(s: Schedule, p: Placement)
    requires Sound(s) && Tight(s) && (p.id in s.first || p.id in s.last)
    ensures Tight(PlaceAfter(s, p)) && Tight(PlaceBefore(s, p))
  {
    hide StartsOn, EndsOn, Le, Apart, Spanned;
    OnMore(s.placed, p);
  }

  lemma NewTight(s: Schedule, start: ComplexTime, end: ComplexTime)
    requires Sound(s) && Tight(s)
    ensures Tight(PlaceNew(s, start, end))
  {
    hide StartsOn, EndsOn, Le, Apart, Spanned;
    OnMore(s.placed, Placement(s.next, start, end));
  }
}
