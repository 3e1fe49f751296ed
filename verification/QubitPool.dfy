/**
 Allocation, release, borrowing and return of qubits over values: the status of every id and the list
 of free ids, for a manager that reuses ids last-in-first-out, first-in-first-out, or never.
 */
module QubitPool {
  import opened Sequences

  /** `Lent(n)` is an id allocated only to be borrowed, with `n` borrows beyond the first. */
  datatype Status = Free | Allocated | Disabled | Lent(extra: nat)

  datatype Pool = Pool(status: seq<Status>, free: seq<nat>)

  predicate InUse(s: Status) { s.Allocated? || s.Lent? }

  function InUseIds(status: seq<Status>): set<nat> { set i: nat | i < |status| && InUse(status[i]) }

  function DisabledIds(status: seq<Status>): set<nat> { set i: nat | i < |status| && status[i].Disabled? }

  /** The list holds ids whose status is free, once each: all of them, or the ones never issued. */
  ghost predicate Proper(p: Pool, o: Options) {
    && p.status != []
    && NoDuplicates(p.free)
    && (forall q :: q in p.free ==> q < |p.status| && p.status[q].Free?)
    && (!o.NeverReuses() ==> forall q: nat :: q < |p.status| && p.status[q].Free? ==> q in p.free)
    && (o.NeverReuses() ==> |p.free| <= |p.status| && p.free == Sequential(|p.status| - |p.free|, |p.status|))
  }

  // ---------------------------------------------------------------- the operations

  function Initial(n: nat): Pool { Pool(seq(n, i => Free), Sequential(0, n)) }

  /** Twice the capacity; the new ids are free. */
  function Extended(p: Pool): Pool {
    Pool(p.status + seq(|p.status|, i => Free), p.free + Sequential(|p.status|, 2 * |p.status|))
  }

  predicate HeadInRange(p: Pool) { p.free != [] && p.free[0] < |p.status| }

  function Take(p: Pool, mark: Status): Pool
    requires HeadInRange(p)
  {
    Pool(p.status[p.free[0] := mark], p.free[1..])
  }

  lemma HasHead(p: Pool, o: Options)
    requires Proper(p, o)
    ensures HeadInRange(if p.free == [] then Extended(p) else p)
  {
    if p.free == [] {
      assert Extended(p).free[0] == |p.status|;
    } else {
      assert p.free[0] in p.free;
    }
  }

  /** The first free id, with the capacity doubled if there is none and that is allowed. */
  function Allocate(p: Pool, o: Options, mark: Status): (Option<nat>, Pool)
    requires Proper(p, o)
  {
    if p.free == [] && !o.mayExtend then (None, p)
    else
      var p1 := if p.free == [] then Extended(p) else p;
      HasHead(p, o);
      (Some(p1.free[0]), Take(p1, mark))
  }

  function Release(p: Pool, o: Options, q: nat): Pool
    requires q < |p.status|
  {
    Pool(p.status[q := Free],
         if o.encourageReuse then [q] + p.free else if !o.mayExtend then p.free + [q] else p.free)
  }

  function Disable(p: Pool, q: nat): Pool
    requires q < |p.status|
  {
    p.(status := p.status[q := Disabled])
  }

  // ---------------------------------------------------------------- every operation keeps the pool proper

  lemma InitialProper(n: nat, o: Options)
    requires n > 0
    ensures Proper(Initial(n), o) && InUseIds(Initial(n).status) == {} && DisabledIds(Initial(n).status) == {}
  {
    forall q: nat | q < n ensures q in Initial(n).free {
      assert Initial(n).free[q] == q;
    }
  }

  lemma ExtendedProper(p: Pool, o: Options)
    requires Proper(p, o) && p.free == []
    ensures Proper(Extended(p), o) && Extended(p).free == Sequential(|p.status|, 2 * |p.status|)
    ensures InUseIds(Extended(p).status) == InUseIds(p.status)
    ensures DisabledIds(Extended(p).status) == DisabledIds(p.status)
  {
    hide InUseIds, DisabledIds;
    var e := Extended(p);
    assert e.free == Sequential(|p.status|, 2 * |p.status|);
    SameIds(p);
    forall q: nat | q < |e.status| && e.status[q].Free? && !o.NeverReuses() ensures q in e.free {
      if q >= |p.status| {
        assert e.free[q - |p.status|] == q;
      }
    }
  }

  lemma SameIds(p: Pool)
    ensures InUseIds(Extended(p).status) == InUseIds(p.status)
    ensures DisabledIds(Extended(p).status) == DisabledIds(p.status)
  {
  }

  lemma TakeProper(p: Pool, o: Options, mark: Status)
    requires Proper(p, o) && p.free != [] && InUse(mark)
    ensures p.free[0] < |p.status| && p.status[p.free[0]].Free? && Proper(Take(p, mark), o)
    ensures |Take(p, mark).status| == |p.status| && Take(p, mark).status[p.free[0]] == mark
    ensures InUseIds(Take(p, mark).status) == InUseIds(p.status) + {p.free[0]}
    ensures DisabledIds(Take(p, mark).status) == DisabledIds(p.status)
    ensures p.free[0] !in InUseIds(p.status)
  {
    hide InUseIds, DisabledIds, NoDuplicates;
    var q, rest := p.free[0], p.free[1..];
    RestDistinct(p.free);
    MarkedIds(p.status, q, mark);
    if o.NeverReuses() {
      assert rest == Sequential(|p.status| - |rest|, |p.status|);
    }
  }

  lemma RestDistinct(s: seq<nat>)
    requires NoDuplicates(s) && s != []
    ensures NoDuplicates(s[1..]) && s[0] !in s[1..]
    ensures forall q :: q in s <==> q == s[0] || q in s[1..]
  {
    assert s == [s[0]] + s[1..];
    forall i, j | 0 <= i < j < |s[1..]| ensures s[1..][i] != s[1..][j] {
      assert s[1..][i] == s[i + 1] && s[1..][j] == s[j + 1];
    }
  }

  lemma MarkedIds(status: seq<Status>, q: nat, mark: Status)
    requires q < |status| && status[q].Free? && InUse(mark)
    ensures InUseIds(status[q := mark]) == InUseIds(status) + {q} && q !in InUseIds(status)
    ensures DisabledIds(status[q := mark]) == DisabledIds(status)
  {
  }

  lemma AllocateProper(p: Pool, o: Options, mark: Status)
    requires Proper(p, o) && InUse(mark)
    ensures var (q, p2) := Allocate(p, o, mark);
      && Proper(p2, o)
      && (q.None? <==> p.free == [] && !o.mayExtend)
      && (q.None? ==> p2 == p)
      && InUseIds(p2.status) == InUseIds(p.status) + (if q.Some? then {q.value} else {})
      && (q.Some? ==> q.value !in InUseIds(p.status) && q.value < |p2.status| && p2.status[q.value] == mark)
      && DisabledIds(p2.status) == DisabledIds(p.status)
  {
    hide Proper, Take, Extended, InUseIds, DisabledIds;
    HasHead(p, o);
    if p.free == [] && o.mayExtend {
      ExtendedProper(p, o);
      NotEmpty(p, o);
      TakeProper(Extended(p), o, mark);
    } else if p.free != [] {
      TakeProper(p, o, mark);
    }
  }

  lemma NotEmpty(p: Pool, o: Options)
    requires Proper(p, o)
    ensures |p.status| > 0
  {
  }

  lemma ReleaseProper(p: Pool, o: Options, q: nat)
    requires Proper(p, o) && q < |p.status| && InUse(p.status[q])
    ensures Proper(Release(p, o, q), o)
    ensures InUseIds(Release(p, o, q).status) == InUseIds(p.status) - {q} && q in InUseIds(p.status)
    ensures DisabledIds(Release(p, o, q).status) == DisabledIds(p.status)
  {
    var r := Release(p, o, q);
    assert q !in p.free;
    forall i, j | 0 <= i < j < |r.free| ensures r.free[i] != r.free[j] {
      assert forall k :: 0 <= k < |p.free| ==> p.free[k] in p.free;
    }
    assert forall x :: x in r.free <==> x in p.free || (x == q && !o.NeverReuses());
  }

  lemma DisableProper(p: Pool, o: Options, q: nat)
    requires Proper(p, o) && q < |p.status| && InUse(p.status[q])
    ensures Proper(Disable(p, q), o)
    ensures InUseIds(Disable(p, q).status) == InUseIds(p.status) - {q} && q in InUseIds(p.status)
    ensures DisabledIds(Disable(p, q).status) == DisabledIds(p.status) + {q} && q !in DisabledIds(p.status)
  {
    assert q !in p.free;
  }

  // ---------------------------------------------------------------- runs of the manager that never reuses

  datatype Event = Allocating | Releasing(q: nat) | Disabling(q: nat)

  /** A run releases and disables only allocated ids. */
  predicate Legal(p: Pool, e: Event) {
    e.Allocating? || (e.q < |p.status| && p.status[e.q].Allocated?)
  }

  function Step(p: Pool, o: Options, e: Event): (Option<nat>, Pool)
    requires Proper(p, o) && Legal(p, e)
  {
    match e
    case Allocating => Allocate(p, o, Allocated)
    case Releasing(q) => (None, Release(p, o, q))
    case Disabling(q) => (None, Disable(p, q))
  }

  lemma StepProper(p: Pool, o: Options, e: Event)
    requires Proper(p, o) && Legal(p, e)
    ensures Proper(Step(p, o, e).1, o)
  {
    hide Proper, Allocate, Release, Disable;
    match e
    case Allocating => AllocateProper(p, o, Allocated);
    case Releasing(q) => ReleaseProper(p, o, q);
    case Disabling(q) => DisableProper(p, o, q);
  }

  /**
   The ids a run from the start issues, in order, and the pool after it;
   an event that is not legal is passed over.
   */
  function Run(n: nat, o: Options, events: seq<Event>): (r: (seq<nat>, Pool))
    requires n > 0
    ensures Proper(r.1, o)
  {
    if events == [] then
      InitialProper(n, o);
      ([], Initial(n))
    else
      var (ids, p1) := Run(n, o, events[..|events| - 1]);
      var e := events[|events| - 1];
      if !Legal(p1, e) then (ids, p1)
      else
        StepProper(p1, o, e);
        var (q, p2) := Step(p1, o, e);
        (if q.Some? then ids + [q.value] else ids, p2)
  }

  /** Without reuse and with a growing capacity, the ids issued are 0, 1, 2, ...: no id is issued twice. */
  lemma {:induction false} NeverReissued(n: nat, o: Options, events: seq<Event>)
    requires n > 0 && o.NeverReuses()
    ensures var (ids, p) := Run(n, o, events);
      && ids == Sequential(0, |ids|)
      && |ids| + |p.free| == |p.status|
  {
    hide Proper;
    if events != [] {
      var m := |events| - 1;
      NeverReissued(n, o, events[..m]);
      var (ids, p) := Run(n, o, events[..m]);
      if Legal(p, events[m]) {
        StreamStep(p, o, events[m]);
        StepProper(p, o, events[m]);
      }
    }
  }

  lemma StreamStep(p: Pool, o: Options, e: Event)
    requires Proper(p, o) && o.NeverReuses() && Legal(p, e)
    ensures var (q, p2) := Step(p, o, e);
      && (q.Some? ==> q.value == |p.status| - |p.free|)
      && |p2.status| - |p2.free| == |p.status| - |p.free| + (if q.Some? then 1 else 0)
      && (q.Some? <==> e.Allocating?)
  {
  }

  // ---------------------------------------------------------------- the queue and the stack

  /** The ids a run releases, in order. */
  function Freed(n: nat, o: Options, events: seq<Event>): seq<nat>
    requires n > 0
  {
    if events == [] then []
    else
      var before, e := events[..|events| - 1], events[|events| - 1];
      Freed(n, o, before) + if e.Releasing? && Legal(Run(n, o, before).1, e) then [e.q] else []
  }

  /**
   With a fixed capacity and no encouragement of reuse the free ids are a queue: what a run has issued,
   followed by what is free, is the initial list followed by what was released. So ids are issued in the
   order in which they became free.
   */
  lemma {:induction false} FirstFreedFirstIssued(n: nat, o: Options, events: seq<Event>)
    requires n > 0 && !o.mayExtend && !o.encourageReuse
    ensures var (ids, p) := Run(n, o, events); ids + p.free == Sequential(0, n) + Freed(n, o, events)
  {
    hide Proper;
    if events != [] {
      var m := |events| - 1;
      var before, e := events[..m], events[m];
      FirstFreedFirstIssued(n, o, before);
      var (ids, p) := Run(n, o, before);
      if Legal(p, e) {
        QueueStep(p, o, e, ids);
      }
    }
  }

  lemma QueueStep(p: Pool, o: Options, e: Event, ids: seq<nat>)
    requires Proper(p, o) && Legal(p, e) && !o.mayExtend && !o.encourageReuse
    ensures var (q, p2) := Step(p, o, e);
      (if q.Some? then ids + [q.value] else ids) + p2.free == ids + p.free + if e.Releasing? then [e.q] else []
  {
    hide Proper;
    if e.Allocating? && p.free != [] {
      assert p.free == [p.free[0]] + p.free[1..];
    }
  }

  /** How many released ids wait to be issued again. */
  function Waiting(n: nat, o: Options, events: seq<Event>): nat
    requires n > 0
  {
    if events == [] then 0
    else
      var before, e := events[..|events| - 1], events[|events| - 1];
      var w := Waiting(n, o, before);
      if !Legal(Run(n, o, before).1, e) then w
      else match e
        case Allocating => if w > 0 then w - 1 else 0
        case Releasing(_) => w + 1
        case Disabling(_) => w
  }

  /** How many ids were issued that had never been issued before: those issued when none was waiting. */
  function Fresh(n: nat, o: Options, events: seq<Event>): nat
    requires n > 0
  {
    if events == [] then 0
    else
      var before, e := events[..|events| - 1], events[|events| - 1];
      Fresh(n, o, before)
      + if e.Allocating? && Waiting(n, o, before) == 0 && Step(Run(n, o, before).1, o, e).0.Some? then 1 else 0
  }

  /** With reuse encouraged, the list is the ids that wait, followed by those never issued in their order. */
  lemma {:induction false} StackList(n: nat, o: Options, events: seq<Event>)
    requires n > 0 && o.encourageReuse
    ensures var (p, w, f) := (Run(n, o, events).1, Waiting(n, o, events), Fresh(n, o, events));
      w <= |p.free| && f <= |p.status| && p.free[w..] == Sequential(f, |p.status|)
  {
    hide Proper, Step, Sequential;
    if events == [] {
      assert Initial(n).free[0..] == Initial(n).free;
    } else {
      var m := |events| - 1;
      var before, e := events[..m], events[m];
      StackList(n, o, before);
      var p := Run(n, o, before).1;
      if Legal(p, e) {
        BorderMoves(p, o, e, Waiting(n, o, before), Fresh(n, o, before));
      }
    }
  }

  /** One event moves the border between the ids that wait and those never issued. */
  lemma BorderMoves(p: Pool, o: Options, e: Event, w: nat, f: nat)
    requires Proper(p, o) && Legal(p, e) && o.encourageReuse
    requires w <= |p.free| && f <= |p.status| && p.free[w..] == Sequential(f, |p.status|)
    ensures var (q, p2) := Step(p, o, e);
      var w2 := if e.Releasing? then w + 1 else if e.Allocating? && w > 0 then w - 1 else w;
      var f2 := if e.Allocating? && w == 0 && q.Some? then f + 1 else f;
      w2 <= |p2.free| && f2 <= |p2.status| && p2.free[w2..] == Sequential(f2, |p2.status|)
  {
    hide Proper, Step, Legal, Sequential;
    StackStep(p, o, e, w, f);
    var (q, p2) := Step(p, o, e);
    assert p2.free[0..] == p2.free;
  }

  /** What an event does to a list of which the first `w` wait and the others, from `f` on, were never issued. */
  lemma StackStep(p: Pool, o: Options, e: Event, w: nat, f: nat)
    requires Proper(p, o) && Legal(p, e) && o.encourageReuse
    requires w <= |p.free| && f <= |p.status| && p.free[w..] == Sequential(f, |p.status|)
    ensures var (q, p2) := Step(p, o, e);
      match e
      case Allocating =>
        if w > 0 then q == Some(p.free[0]) && p2.free == p.free[1..] && |p2.status| == |p.status|
        else if q.None? then p2 == p
        else q == Some(f) && f < |p2.status| && p2.free == Sequential(f + 1, |p2.status|)
      case Releasing(x) => p2.free == [x] + p.free && |p2.status| == |p.status|
      case Disabling(_) => p2.free == p.free && |p2.status| == |p.status|
  {
    hide Proper;
    match e
    case Allocating =>
      if w == 0 {
        NotEmpty(p, o);
        assert p.free[0..] == p.free;
        assert p.free == [] ==> Extended(p).free == Sequential(f, 2 * |p.status|);
        FirstOfStream(if p.free == [] then Extended(p) else p, f);
      } else {
        HasHead(p, o);
        assert Step(p, o, e) == (Some(p.free[0]), Take(p, Allocated));
      }
    case Releasing(x) =>
    case Disabling(x) =>
  }

  lemma FirstOfStream(p: Pool, f: nat)
    requires f <= |p.status| && p.free == Sequential(f, |p.status|) && p.free != []
    ensures p.free[0] == f < |p.status| && p.free[1..] == Sequential(f + 1, |p.status|)
  {
  }

  /** The last event of a run. */
  lemma LastEvent(n: nat, o: Options, events: seq<Event>)
    requires n > 0 && events != []
    ensures var before, e := events[..|events| - 1], events[|events| - 1];
      var p, w := Run(n, o, before).1, Waiting(n, o, before);
      if Legal(p, e) then
        Run(n, o, events).1 == Step(p, o, e).1
        && Waiting(n, o, events) == if e.Releasing? then w + 1 else if e.Allocating? && w > 0 then w - 1 else w
      else Run(n, o, events).1 == p && Waiting(n, o, events) == w
  {
    hide Proper, Step, Legal;
  }

  /** An id that waits keeps its distance from those that waited before it, as long as they are not issued. */
  lemma {:induction false} WaitingKept(n: nat, o: Options, events: seq<Event>, i: nat)
    requires n > 0 && o.encourageReuse && i < |events|
    requires events[i].Releasing? && Legal(Run(n, o, events[..i]).1, events[i])
    requires forall k :: i < k <= |events| ==> Waiting(n, o, events[..k]) >= Waiting(n, o, events[..i + 1])
    ensures var (p, d) := (Run(n, o, events).1, Waiting(n, o, events) - Waiting(n, o, events[..i + 1]));
      0 <= d < |p.free| && p.free[d] == events[i].q
  {
    hide *;
    var m := |events| - 1;
    var before, e := events[..m], events[m];
    var p, w, h := Run(n, o, before).1, Waiting(n, o, before), Waiting(n, o, events[..i + 1]);
    assert events[..m + 1] == events && Waiting(n, o, events[..m + 1]) >= h;
    LastEvent(n, o, events);
    StackList(n, o, before);
    assert events[..i + 1][..i] == events[..i];
    LastEvent(n, o, events[..i + 1]);
    if i < m {
      assert forall k :: 0 <= k <= m ==> before[..k] == events[..k];
      WaitingKept(n, o, before, i);
      if Legal(p, e) {
        StaysWaiting(p, o, e, w, Fresh(n, o, before), h, events[i].q);
      }
    } else {
      StackStep(p, o, e, w, Fresh(n, o, before));
    }
  }

  /** An event that leaves at least `h` ids waiting takes none of the first `h` released. */
  lemma StaysWaiting(p: Pool, o: Options, e: Event, w: nat, f: nat, h: nat, x: nat)
    requires Proper(p, o) && Legal(p, e) && o.encourageReuse
    requires w <= |p.free| && f <= |p.status| && p.free[w..] == Sequential(f, |p.status|)
    requires 1 <= h <= w && w - h < |p.free| && p.free[w - h] == x
    ensures var p2 := Step(p, o, e).1;
      var w2 := if e.Releasing? then w + 1 else if e.Allocating? then w - 1 else w;
      w2 >= h ==> w2 - h < |p2.free| && p2.free[w2 - h] == x
  {
    hide Proper, Step, Legal, Sequential;
    StackStep(p, o, e, w, f);
  }

  /**
   With reuse encouraged the free ids are a stack. If the ids waiting have not become fewer since a release,
   and are now as many as right after it, an allocation issues the id released there: last in, first out.
   */
  lemma LastFreedFirstIssued(n: nat, o: Options, events: seq<Event>, i: nat)
    requires n > 0 && o.encourageReuse && i < |events|
    requires events[i].Releasing? && Legal(Run(n, o, events[..i]).1, events[i])
    requires forall k :: i < k <= |events| ==> Waiting(n, o, events[..k]) >= Waiting(n, o, events[..i + 1])
    requires Waiting(n, o, events) == Waiting(n, o, events[..i + 1])
    ensures Step(Run(n, o, events).1, o, Allocating).0 == Some(events[i].q)
  {
    hide Run, Waiting, Proper;
    WaitingKept(n, o, events, i);
  }

  /** When no id waits, an allocation issues the next one never issued. */
  lemma NoneWaiting(n: nat, o: Options, events: seq<Event>)
    requires n > 0 && o.encourageReuse && Waiting(n, o, events) == 0
    ensures var q := Step(Run(n, o, events).1, o, Allocating).0;
      if q.Some? then q.value == Fresh(n, o, events)
      else Fresh(n, o, events) == |Run(n, o, events).1.status| && !o.mayExtend
  {
    hide Run, Waiting, Proper, Fresh;
    StackList(n, o, events);
    StackStep(Run(n, o, events).1, o, Allocating, 0, Fresh(n, o, events));
  }

  // ---------------------------------------------------------------- several at once, and the roll-back

  /** Allocates up to `n` ids: fewer when the list runs out and the capacity is fixed. */
  function Grab(p: Pool, o: Options, mark: Status, n: nat): (r: (seq<nat>, Pool))
    requires Proper(p, o) && InUse(mark)
    ensures Proper(r.1, o) && |r.0| <= n
  {
    if n == 0 then ([], p)
    else
      var (ids, p1) := Grab(p, o, mark, n - 1);
      if |ids| < n - 1 then (ids, p1)
      else
        AllocateProper(p1, o, mark);
        var (q, p2) := Allocate(p1, o, mark);
        if q.Some? then (ids + [q.value], p2) else (ids, p1)
  }

  /** What the grabbed ids were, and what is in use after. */
  lemma {:induction false} GrabIds(p: Pool, o: Options, mark: Status, n: nat)
    requires Proper(p, o) && InUse(mark)
    ensures var (ids, p2) := Grab(p, o, mark, n);
      && NoDuplicates(ids)
      && (forall q :: q in ids ==> q !in InUseIds(p.status))
      && InUseIds(p2.status) == InUseIds(p.status) + (set q | q in ids)
      && DisabledIds(p2.status) == DisabledIds(p.status)
  {
    hide Proper, InUseIds, DisabledIds, Allocate;
    if n > 0 {
      GrabIds(p, o, mark, n - 1);
      AllocateProper(Grab(p, o, mark, n - 1).1, o, mark);
    }
  }

  function MarkAll(status: seq<Status>, ids: seq<nat>, mark: Status): (r: seq<Status>)
    ensures |r| == |status|
    ensures forall i :: 0 <= i < |r| ==> r[i] == if i in ids then mark else status[i]
  {
    seq(|status|, i requires 0 <= i < |status| => if i in ids then mark else status[i])
  }

  /** With a fixed capacity, the ids grabbed are the first of the list. */
  lemma {:induction false} GrabFixed(p: Pool, o: Options, mark: Status, n: nat)
    requires Proper(p, o) && InUse(mark) && !o.mayExtend
    ensures var k := if n <= |p.free| then n else |p.free|;
      Grab(p, o, mark, n) == (p.free[..k], Pool(MarkAll(p.status, p.free[..k], mark), p.free[k..]))
  {
    hide Proper, MarkAll, Allocate;
    if n == 0 {
      assert p.free[..0] == [] && p.free[0..] == p.free;
      assert MarkAll(p.status, [], mark) == p.status;
    } else {
      GrabFixed(p, o, mark, n - 1);
      if n <= |p.free| {
        FixedStep(p, o, mark, n - 1);
      } else {
        assert p.free[|p.free|..] == [];
        AllocateNone(Grab(p, o, mark, n - 1).1, o, mark);
      }
    }
  }

  lemma AllocateNone(p: Pool, o: Options, mark: Status)
    requires Proper(p, o) && p.free == [] && !o.mayExtend
    ensures Allocate(p, o, mark) == (None, p)
  {
    hide Proper;
  }

  /** One more id taken from a list of which the first `m` are taken. */
  lemma FixedStep(p: Pool, o: Options, mark: Status, m: nat)
    requires Proper(p, o) && m < |p.free| && Proper(Pool(MarkAll(p.status, p.free[..m], mark), p.free[m..]), o)
    ensures var p1 := Pool(MarkAll(p.status, p.free[..m], mark), p.free[m..]);
      Allocate(p1, o, mark)
      == (Some(p.free[m]), Pool(MarkAll(p.status, p.free[..m + 1], mark), p.free[m + 1..]))
    ensures p.free[..m] + [p.free[m]] == p.free[..m + 1]
  {
    hide Proper, MarkAll;
    var q := p.free[m];
    assert p.free[..m] + [q] == p.free[..m + 1];
    assert p.free[m..][1..] == p.free[m + 1..];
    FreeInRange(p, o, m);
    assert MarkAll(p.status, p.free[..m], mark)[q := mark] == MarkAll(p.status, p.free[..m + 1], mark);
  }

  lemma FreeInRange(p: Pool, o: Options, i: nat)
    requires Proper(p, o) && i < |p.free|
    ensures p.free[i] < |p.status| && p.status[p.free[i]].Free?
  {
    assert p.free[i] in p.free;
  }

  predicate AllBelow(ids: seq<nat>, n: nat) { forall i :: 0 <= i < |ids| ==> ids[i] < n }

  /** Releases ids in order. */
  function ReleaseAll(p: Pool, o: Options, ids: seq<nat>): (r: Pool)
    requires AllBelow(ids, |p.status|)
    ensures |r.status| == |p.status|
  {
    if ids == [] then p
    else
      var n := |ids| - 1;
      Release(ReleaseAll(p, o, ids[..n]), o, ids[n])
  }

  function Reversed(s: seq<nat>): seq<nat> { if s == [] then [] else [s[|s| - 1]] + Reversed(s[..|s| - 1]) }

  lemma {:induction false} ReleaseAllIs(p: Pool, o: Options, ids: seq<nat>)
    requires AllBelow(ids, |p.status|) && !o.NeverReuses()
    ensures ReleaseAll(p, o, ids).status == MarkAll(p.status, ids, Free)
    ensures ReleaseAll(p, o, ids).free == if o.encourageReuse then Reversed(ids) + p.free else p.free + ids
  {
    hide MarkAll;
    if ids == [] {
      assert MarkAll(p.status, ids, Free) == p.status;
    } else {
      var n := |ids| - 1;
      ReleaseAllIs(p, o, ids[..n]);
      assert ids == ids[..n] + [ids[n]];
      assert MarkAll(p.status, ids[..n], Free)[ids[n] := Free] == MarkAll(p.status, ids, Free);
      if o.encourageReuse {
        assert [ids[n]] + (Reversed(ids[..n]) + p.free) == Reversed(ids) + p.free;
      } else {
        assert p.free + ids[..n] + [ids[n]] == p.free + ids;
      }
    }
  }

  /**
   Releasing what a failed request had taken restores every status and
   every free id, in the list's order or reversed.
   */
  lemma RollBackRestores(p: Pool, o: Options, mark: Status, n: nat)
    requires Proper(p, o) && InUse(mark) && |Grab(p, o, mark, n).0| < n
    ensures var (ids, p2) := Grab(p, o, mark, n);
      && AllBelow(ids, |p2.status|)
      && !o.mayExtend
      && ReleaseAll(p2, o, ids) == p.(free := if o.encourageReuse then Reversed(p.free) else p.free)
  {
    hide Proper, MarkAll, ReleaseAll, Grab;
    GrabGrows(p, o, mark, n);
    GrabFixed(p, o, mark, n);
    var (ids, p2) := Grab(p, o, mark, n);
    assert ids == p.free && p2.free == [];
    forall i | 0 <= i < |ids| ensures ids[i] < |p2.status| && p.status[ids[i]].Free? {
      FreeInRange(p, o, i);
    }
    ReleaseAllIs(p2, o, ids);
    assert MarkAll(p2.status, ids, Free) == p.status;
  }

  /** A growing capacity never fails. */
  lemma {:induction false} GrabGrows(p: Pool, o: Options, mark: Status, n: nat)
    requires Proper(p, o) && InUse(mark)
    ensures o.mayExtend ==> |Grab(p, o, mark, n).0| == n
  {
    hide Proper, Allocate;
    if n > 0 {
      GrabGrows(p, o, mark, n - 1);
      var (ids, p1) := Grab(p, o, mark, n - 1);
      AllocateProper(p1, o, mark);
      assert o.mayExtend ==> |ids| == n - 1 && Allocate(p1, o, mark).0.Some?;
    }
  }

  /** Once the list runs out, asking for more grabs nothing more. */
  lemma {:induction false} GrabStuck(p: Pool, o: Options, mark: Status, i: nat, n: nat)
    requires Proper(p, o) && InUse(mark) && i < n
    requires |Grab(p, o, mark, i).0| == i && Grab(p, o, mark, i).1.free == [] && !o.mayExtend
    ensures Grab(p, o, mark, n) == Grab(p, o, mark, i)
  {
    hide Proper;
    if n > i + 1 {
      GrabStuck(p, o, mark, i, n - 1);
    }
  }

  lemma GrabMarked(p: Pool, o: Options, mark: Status, n: nat)
    requires Proper(p, o) && InUse(mark) && |Grab(p, o, mark, n).0| < n
    ensures var (ids, p2) := Grab(p, o, mark, n);
      NoDuplicates(ids) && forall i :: 0 <= i < |ids| ==> ids[i] < |p2.status| && p2.status[ids[i]] == mark
  {
    hide Proper, MarkAll;
    GrabGrows(p, o, mark, n);
    GrabFixed(p, o, mark, n);
    GrabIds(p, o, mark, n);
    var ids := Grab(p, o, mark, n).0;
    forall i | 0 <= i < |ids| ensures ids[i] < |p.status| && ids[i] in ids {
      FreeInRange(p, o, i);
    }
  }

  lemma EmptyRelease(p: Pool, o: Options)
    ensures ReleaseAll(p, o, []) == p
  {
  }

  /** One more release; the id still has its mark. */
  lemma ReleaseStep(p: Pool, o: Options, ids: seq<nat>, k: nat, mark: Status)
    requires NoDuplicates(ids) && k < |ids| && !o.NeverReuses()
    requires forall i :: 0 <= i < |ids| ==> ids[i] < |p.status| && p.status[ids[i]] == mark
    ensures ReleaseAll(p, o, ids[..k]).status[ids[k]] == mark
    ensures ReleaseAll(p, o, ids[..k + 1]) == Release(ReleaseAll(p, o, ids[..k]), o, ids[k])
  {
    hide NoDuplicates, Release, MarkAll;
    ReleaseAllIs(p, o, ids[..k]);
    assert ids[..k + 1][..k] == ids[..k];
    NotBefore(ids, k);
  }

  lemma NotBefore(ids: seq<nat>, k: nat)
    requires NoDuplicates(ids) && k < |ids|
    ensures ids[k] !in ids[..k]
  {
  }

  /** `n` ids at once, or none of them. */
  function AllocateMany(p: Pool, o: Options, n: nat): (Option<seq<nat>>, Pool)
    requires Proper(p, o)
  {
    var (ids, p2) := Grab(p, o, Allocated, n);
    if |ids| == n then (Some(ids), p2)
    else
      RollBackRestores(p, o, Allocated, n);
      (None, ReleaseAll(p2, o, ids))
  }

  /**
   Several ids are given exactly when the capacity may grow or enough are free: different ids that were not in use and
   are in use then. Otherwise no status changes, and the same ids are free.
   */
  lemma ManyIff(p: Pool, o: Options, n: nat)
    requires Proper(p, o)
    ensures var (r, p2) := AllocateMany(p, o, n);
      && (r.Some? <==> o.mayExtend || n <= |p.free|)
      && (r.Some? ==>
            && |r.value| == n && NoDuplicates(r.value) && (forall q :: q in r.value ==> q !in InUseIds(p.status))
            && InUseIds(p2.status) == InUseIds(p.status) + (set q | q in r.value)
            && DisabledIds(p2.status) == DisabledIds(p.status))
      && (r.None? ==> p2 == p.(free := if o.encourageReuse then Reversed(p.free) else p.free))
  {
    hide Proper, MarkAll, Grab, ReleaseAll, InUseIds, DisabledIds, NoDuplicates;
    GrabGrows(p, o, Allocated, n);
    if !o.mayExtend {
      GrabFixed(p, o, Allocated, n);
    }
    GrabIds(p, o, Allocated, n);
    if |Grab(p, o, Allocated, n).0| < n {
      RollBackRestores(p, o, Allocated, n);
    }
  }
}
