/**
 Restricted reuse as a machine over values: a stack of areas, each with the free ids that may be
 reused in its current segment and those that may not; and what no run of it ever does.
 */
module ReusePool {
  import opened Sequences

  datatype Area = Area(prohibited: seq<nat>, allowed: seq<nat>)

  /** `areas` is the stack, outermost first; ids below `capacity` that are in no list are in use or disabled. */
  datatype Pool = Pool(areas: seq<Area>, capacity: nat, inUse: set<nat>)

  function IdsOf(a: Area): multiset<nat> { multiset(a.prohibited) + multiset(a.allowed) }

  /** How often each id occurs in the lists of all areas. */
  function Content(areas: seq<Area>): multiset<nat> {
    if areas == [] then multiset{} else Content(areas[..|areas| - 1]) + IdsOf(areas[|areas| - 1])
  }

  /** The lists hold ids below the capacity, none in use, and no id twice. */
  ghost predicate Proper(p: Pool) {
    && |p.areas| >= 1
    && (forall q :: Content(p.areas)[q] <= 1)
    && (forall q :: q in Content(p.areas) ==> q < p.capacity && q !in p.inUse)
    && (forall q :: q in p.inUse ==> q < p.capacity)
  }

  /** Replacing one area exchanges its ids. */
  lemma {:induction false} ContentUpdate(areas: seq<Area>, k: nat, a: Area, q: nat)
    requires k < |areas|
    ensures Content(areas[k := a])[q] + IdsOf(areas[k])[q] == Content(areas)[q] + IdsOf(a)[q]
  {
    hide IdsOf;
    var n := |areas| - 1;
    if k == n {
      assert areas[k := a][..n] == areas[..n];
    } else {
      ContentUpdate(areas[..n], k, a, q);
      assert areas[k := a][..n] == areas[..n][k := a];
    }
  }

  lemma ContentPush(areas: seq<Area>, a: Area, q: nat)
    ensures Content(areas + [a])[q] == Content(areas)[q] + IdsOf(a)[q]
  {
    hide IdsOf;
    assert (areas + [a])[..|areas|] == areas;
  }

  /** An id of two areas is counted twice. */
  lemma {:induction false} ContentAtLeast(areas: seq<Area>, j: nat, k: nat, q: nat)
    requires j < |areas| && k < |areas|
    ensures Content(areas)[q] >= IdsOf(areas[k])[q]
    ensures j != k ==> Content(areas)[q] >= IdsOf(areas[j])[q] + IdsOf(areas[k])[q]
  {
    hide IdsOf;
    var n := |areas| - 1;
    if j < n && k < n {
      ContentAtLeast(areas[..n], j, k, q);
    } else if k < n {
      ContentAtLeast(areas[..n], k, k, q);
    } else if j < n {
      ContentAtLeast(areas[..n], j, j, q);
    }
  }

  lemma OnceIsNoDuplicates(s: seq<nat>)
    requires forall q :: multiset(s)[q] <= 1
    ensures NoDuplicates(s)
  {
    forall i, j | 0 <= i < j < |s| ensures s[i] != s[j] {
      assert s == s[..i] + [s[i]] + s[i + 1..j] + [s[j]] + s[j + 1..];
      assert multiset(s) == multiset(s[..i]) + multiset{s[i]} + multiset(s[i + 1..j])
        + multiset{s[j]} + multiset(s[j + 1..]);
      assert multiset(s)[s[i]] <= 1;
    }
  }

  /** The lists of a proper pool have no duplicates and are pairwise disjoint. */
  lemma ListsDisjoint(p: Pool, j: nat, k: nat)
    requires Proper(p) && j < |p.areas| && k < |p.areas|
    ensures NoDuplicates(p.areas[k].prohibited) && NoDuplicates(p.areas[k].allowed)
    ensures forall q :: q in p.areas[j].prohibited ==> q !in p.areas[k].allowed
    ensures j != k ==> forall q :: q in p.areas[j].prohibited ==> q !in p.areas[k].prohibited
    ensures j != k ==> forall q :: q in p.areas[j].allowed ==> q !in p.areas[k].allowed
  {
    hide Content, NoDuplicates;
    forall q
      ensures multiset(p.areas[k].prohibited)[q] <= 1 && multiset(p.areas[k].allowed)[q] <= 1
      ensures q in p.areas[j].prohibited ==> q !in p.areas[k].allowed
      ensures j != k && q in p.areas[j].prohibited ==> q !in p.areas[k].prohibited
      ensures j != k && q in p.areas[j].allowed ==> q !in p.areas[k].allowed
    {
      ContentAtLeast(p.areas, j, k, q);
      assert Content(p.areas)[q] <= 1;
      assert q in p.areas[j].prohibited <==> multiset(p.areas[j].prohibited)[q] >= 1;
      assert q in p.areas[k].prohibited <==> multiset(p.areas[k].prohibited)[q] >= 1;
      assert q in p.areas[j].allowed <==> multiset(p.areas[j].allowed)[q] >= 1;
      assert q in p.areas[k].allowed <==> multiset(p.areas[k].allowed)[q] >= 1;
    }
    OnceIsNoDuplicates(p.areas[k].prohibited);
    OnceIsNoDuplicates(p.areas[k].allowed);
  }

  // ---------------------------------------------------------------- the operations

  function Start(p: Pool): Pool { p.(areas := p.areas + [Area([], [])]) }

  /** A new segment of the innermost area; without an active area, nothing. */
  function Next(p: Pool): Pool {
    if |p.areas| <= 1 then p
    else
      var k := |p.areas| - 1;
      p.(areas := p.areas[k := Area(p.areas[k].allowed + p.areas[k].prohibited, [])])
  }

  /** The end of the innermost area; without an active area, nothing. */
  function End(p: Pool): Pool {
    if |p.areas| < 2 then p
    else
      var k := |p.areas| - 1;
      var inner, outer := p.areas[k], p.areas[k - 1];
      p.(areas := p.areas[..k][k - 1 := outer.(allowed := inner.allowed + (inner.prohibited + outer.allowed))])
  }

  /** The area an allocation takes from: the innermost with a reusable id, or with reuse discouraged the outermost. */
  function Source(areas: seq<Area>, encourageReuse: bool): (r: Option<nat>)
    ensures r.Some? ==> r.value < |areas| && areas[r.value].allowed != []
    ensures r.None? ==> forall k :: 0 <= k < |areas| ==> areas[k].allowed == []
    ensures r.Some? && encourageReuse ==> forall k :: r.value < k < |areas| ==> areas[k].allowed == []
    ensures r.Some? && !encourageReuse ==> forall k :: 0 <= k < r.value ==> areas[k].allowed == []
  {
    if areas == [] then None
    else
      var k := |areas| - 1;
      if encourageReuse then
        if areas[k].allowed != [] then Some(k) else Source(areas[..k], encourageReuse)
      else
        var r := Source(areas[..k], encourageReuse);
        if r.Some? then r else if areas[k].allowed != [] then Some(k) else None
  }

  /** The largest 64-bit integer; it is no id, and no capacity is larger. */
  const LARGEST: int := 0x7FFF_FFFF_FFFF_FFFF

  /** Twice a capacity, in 64-bit arithmetic: a product that overflows is negative, which asks for no more. */
  function Doubled(capacity: nat): nat { if 2 * capacity <= LARGEST then 2 * capacity else 0 }

  /** A larger capacity: the new ids go to the front of the outermost area. */
  function Grow(p: Pool, capacity: nat): Pool
    requires |p.areas| >= 1
  {
    if capacity <= p.capacity then p
    else
      var outer := p.areas[0];
      p.(areas := p.areas[0 := outer.(allowed := Sequential(p.capacity, capacity) + outer.allowed)],
         capacity := capacity)
  }

  function Take(p: Pool, encourageReuse: bool): (Option<nat>, Pool) {
    match Source(p.areas, encourageReuse)
    case None => (None, p)
    case Some(k) =>
      var q := p.areas[k].allowed[0];
      (Some(q), p.(areas := p.areas[k := p.areas[k].(allowed := p.areas[k].allowed[1..])], inUse := p.inUse + {q}))
  }

  /** An allocation, doubling the capacity once if that is allowed and needed. */
  function Allocate(p: Pool, o: Options): (Option<nat>, Pool)
    requires |p.areas| >= 1
  {
    var (q, p1) := Take(p, o.encourageReuse);
    if q.Some? || !o.mayExtend then (q, p1) else Take(Grow(p, Doubled(p.capacity)), o.encourageReuse)
  }

  /** A release of an id in use; an id that is disabled stays so. */
  function Release(p: Pool, q: nat, o: Options): Pool
    requires |p.areas| >= 1
  {
    if q !in p.inUse then p
    else if o.NeverReuses() then p.(inUse := p.inUse - {q})
    else
      var k := |p.areas| - 1;
      p.(areas := p.areas[k := p.areas[k].(allowed := [q] + p.areas[k].allowed)], inUse := p.inUse - {q})
  }

  /** Disabling takes an id in use away for good. */
  function Disable(p: Pool, q: nat): Pool { p.(inUse := p.inUse - {q}) }

  datatype Event = Starting | Advancing | Ending | Allocating | Releasing(q: nat) | Disabling(q: nat)

  /** One event; the first part is the id an allocation returns. */
  function Step(p: Pool, e: Event, o: Options): (Option<nat>, Pool)
    requires |p.areas| >= 1
  {
    match e
    case Starting => (None, Start(p))
    case Advancing => (None, Next(p))
    case Ending => (None, End(p))
    case Allocating => Allocate(p, o)
    case Releasing(q) => (None, Release(p, q, o))
    case Disabling(q) => (None, Disable(p, q))
  }

  /** The pool after the events. */
  function Run(p: Pool, events: seq<Event>, o: Options): (r: Pool)
    requires |p.areas| >= 1
    ensures |r.areas| >= 1
  {
    if events == [] then p
    else Step(Run(p, events[..|events| - 1], o), events[|events| - 1], o).1
  }

  // ---------------------------------------------------------------- where the lists do not break

  /**
   An event that keeps the linked lists: with reuse discouraged and a fixed capacity a released id goes to the back
   of the innermost allowed list, which must be empty.
   */
  predicate Kept(p: Pool, e: Event, o: Options)
    requires |p.areas| >= 1
  {
    o.encourageReuse || o.mayExtend || !e.Releasing? || e.q !in p.inUse || p.areas[|p.areas| - 1].allowed == []
  }

  predicate KeptRun(p: Pool, events: seq<Event>, o: Options)
    requires |p.areas| >= 1
  {
    forall i {:trigger events[i]} :: 0 <= i < |events| ==> Kept(Run(p, events[..i], o), events[i], o)
  }

  /** How many ids may be allocated without growing. */
  function Supply(areas: seq<Area>): nat {
    if areas == [] then 0 else Supply(areas[..|areas| - 1]) + |areas[|areas| - 1].allowed|
  }

  lemma {:induction false} SupplyUpdate(areas: seq<Area>, k: nat, a: Area)
    requires k < |areas|
    ensures Supply(areas[k := a]) == Supply(areas) + |a.allowed| - |areas[k].allowed|
    ensures Supply(areas) >= |areas[k].allowed|
  {
    var n := |areas| - 1;
    if k == n {
      assert areas[k := a][..n] == areas[..n];
    } else {
      SupplyUpdate(areas[..n], k, a);
      assert areas[k := a][..n] == areas[..n][k := a];
    }
  }

  lemma {:induction false} NoSupply(areas: seq<Area>)
    requires forall k :: 0 <= k < |areas| ==> areas[k].allowed == []
    ensures Supply(areas) == 0
  {
    if areas != [] {
      NoSupply(areas[..|areas| - 1]);
    }
  }

  /** An id is taken exactly while there is a supply, which it reduces by one. */
  lemma TakeSupply(p: Pool, encourageReuse: bool)
    ensures var (q, p2) := Take(p, encourageReuse);
      if Supply(p.areas) == 0 then q.None? && forall k :: 0 <= k < |p.areas| ==> p.areas[k].allowed == []
      else q.Some? && Supply(p2.areas) == Supply(p.areas) - 1
  {
    hide Supply;
    var r := Source(p.areas, encourageReuse);
    if r.Some? {
      var a := p.areas[r.value];
      SupplyUpdate(p.areas, r.value, a.(allowed := a.allowed[1..]));
    } else {
      NoSupply(p.areas);
    }
  }

  // ---------------------------------------------------------------- what becomes reusable

  /** When an area ends, everything free in it may be reused in the area around it, which bars what it did before. */
  lemma EndFrees(p: Pool, q: nat)
    requires |p.areas| >= 2
    ensures var (k, t) := (|p.areas| - 1, End(p));
      && |t.areas| == k && t.areas[..k - 1] == p.areas[..k - 1]
      && t.areas[k - 1].prohibited == p.areas[k - 1].prohibited
      && (q in t.areas[k - 1].allowed <==>
            q in p.areas[k - 1].allowed || q in p.areas[k].prohibited || q in p.areas[k].allowed)
  {
  }

  /** A new segment bars what is free in the innermost area, and in no other. */
  lemma NextBarsOnly(p: Pool, q: nat)
    requires |p.areas| >= 2
    ensures var (k, t) := (|p.areas| - 1, Next(p));
      && |t.areas| == k + 1 && t.areas[..k] == p.areas[..k] && t.areas[k].allowed == []
      && (q in t.areas[k].prohibited <==> q in p.areas[k].prohibited || q in p.areas[k].allowed)
  {
  }

  /** With reuse encouraged, the id released last is the one the next allocation returns. */
  lemma LastReleasedFirst(p: Pool, q: nat, o: Options)
    requires |p.areas| >= 1 && o.encourageReuse && q in p.inUse
    ensures Allocate(Release(p, q, o), o).0 == Some(q)
  {
  }

  /** A disabled id is never issued again, whatever happens. */
  lemma DisabledForGood(p: Pool, events: seq<Event>, o: Options, q: nat, i: nat, n: nat)
    requires Proper(p) && |p.areas| >= 1 && i < n <= |events|
    requires events[i] == Disabling(q) && q in Run(p, events[..i], o).inUse
    ensures forall k :: i < k < n ==> Step(Run(p, events[..k], o), events[k], o).0 != Some(q)
  {
    hide Proper, Content, Gone, Allocate, Release, Start, Next, End;
    RunProper(p, events[..i], o);
    RunSnoc(p, events, i, o);
    DisabledIsGone(Run(p, events[..i], o), q);
    GoneUntil(p, events, o, q, i + 1, n);
  }

  lemma DisabledIsGone(p: Pool, q: nat)
    requires Proper(p) && q in p.inUse
    ensures Gone(Disable(p, q), q)
  {
    hide Content;
  }

  // ---------------------------------------------------------------- how many allocations succeed

  /** The capacity after as many doublings as 64 bits allow. */
  function Reach(capacity: nat): (r: nat)
    ensures r >= capacity
    decreases LARGEST - capacity
  {
    if capacity == 0 || 2 * capacity > LARGEST then capacity else Reach(2 * capacity)
  }

  /** How many allocations succeed before one fails: what the lists offer, and what growth adds to them. */
  function Room(p: Pool, o: Options): nat {
    Supply(p.areas) + if o.mayExtend then Reach(p.capacity) - p.capacity else 0
  }

  lemma GrownSupply(p: Pool, capacity: nat)
    requires |p.areas| >= 1
    ensures Supply(Grow(p, capacity).areas)
      == Supply(p.areas) + if capacity > p.capacity then capacity - p.capacity else 0
  {
    hide Supply;
    if capacity > p.capacity {
      var outer := p.areas[0];
      SupplyUpdate(p.areas, 0, outer.(allowed := Sequential(p.capacity, capacity) + outer.allowed));
    }
  }

  /**
   An allocation succeeds exactly while there is room, of which it takes one. The capacity stays, or is doubled when
   no list offers an id and twice the capacity is a 64-bit integer.
   */
  lemma AllocateIff(p: Pool, o: Options)
    requires |p.areas| >= 1
    ensures var (q, p2) := Allocate(p, o);
      && (q.Some? <==> Room(p, o) > 0)
      && (q.Some? <==> Supply(p.areas) > 0 || (o.mayExtend && 0 < p.capacity && 2 * p.capacity <= LARGEST))
      && Room(p2, o) == (if q.Some? then Room(p, o) - 1 else Room(p, o))
      && p2.capacity == if q.None? || Supply(p.areas) > 0 then p.capacity else 2 * p.capacity
  {
    hide Supply, Take, Grow, Reach;
    TakeSupply(p, o.encourageReuse);
    TakeCapacity(p, o.encourageReuse);
    if Supply(p.areas) == 0 {
      TakeNone(p, o.encourageReuse);
    }
    if Supply(p.areas) == 0 && o.mayExtend {
      var p2 := Grow(p, Doubled(p.capacity));
      ReachDoubled(p.capacity);
      GrownSupply(p, Doubled(p.capacity));
      GrownCapacity(p, Doubled(p.capacity));
      TakeSupply(p2, o.encourageReuse);
      TakeCapacity(p2, o.encourageReuse);
      if Take(p2, o.encourageReuse).0.None? {
        TakeNone(p2, o.encourageReuse);
      }
    }
  }

  lemma ReachDoubled(capacity: nat)
    ensures Reach(capacity) == if Doubled(capacity) <= capacity then capacity else Reach(2 * capacity)
    ensures Doubled(capacity) > capacity <==> 0 < capacity && 2 * capacity <= LARGEST
    ensures Doubled(capacity) > capacity ==> Doubled(capacity) == 2 * capacity
  {
  }

  lemma TakeCapacity(p: Pool, encourageReuse: bool)
    ensures Take(p, encourageReuse).1.capacity == p.capacity
  {
    hide Source;
  }

  lemma GrownCapacity(p: Pool, capacity: nat)
    requires |p.areas| >= 1
    ensures |Grow(p, capacity).areas| >= 1 && (capacity <= p.capacity ==> Grow(p, capacity) == p)
    ensures Grow(p, capacity).capacity == if capacity > p.capacity then capacity else p.capacity
  {
  }

  // ---------------------------------------------------------------- every step keeps the pool proper

  lemma StartKeeps(p: Pool)
    ensures forall q :: Content(Start(p).areas)[q] == Content(p.areas)[q]
  {
    hide Content;
    forall q ensures Content(Start(p).areas)[q] == Content(p.areas)[q] {
      ContentPush(p.areas, Area([], []), q);
    }
  }

  lemma NextKeeps(p: Pool)
    ensures forall q :: Content(Next(p).areas)[q] == Content(p.areas)[q]
  {
    hide Content;
    if |p.areas| > 1 {
      var k := |p.areas| - 1;
      forall q ensures Content(Next(p).areas)[q] == Content(p.areas)[q] {
        ContentUpdate(p.areas, k, Area(p.areas[k].allowed + p.areas[k].prohibited, []), q);
      }
    }
  }

  lemma EndKeeps(p: Pool)
    ensures forall q :: Content(End(p).areas)[q] == Content(p.areas)[q]
  {
    hide Content;
    if |p.areas| >= 2 {
      var k := |p.areas| - 1;
      var inner, outer := p.areas[k], p.areas[k - 1];
      var merged := outer.(allowed := inner.allowed + (inner.prohibited + outer.allowed));
      assert p.areas[..k] + [inner] == p.areas;
      forall q ensures Content(End(p).areas)[q] == Content(p.areas)[q] {
        ContentPush(p.areas[..k], inner, q);
        ContentUpdate(p.areas[..k], k - 1, merged, q);
      }
    }
  }

  lemma SequentialIds(lo: nat, hi: nat, q: nat)
    requires lo <= hi
    ensures multiset(Sequential(lo, hi))[q] == (if lo <= q < hi then 1 else 0)
    decreases hi
  {
    if lo < hi {
      assert Sequential(lo, hi) == Sequential(lo, hi - 1) + [hi - 1];
      SequentialIds(lo, hi - 1, q);
    } else {
      assert Sequential(lo, hi) == [];
    }
  }

  lemma GrowProper(p: Pool, capacity: nat)
    requires Proper(p)
    ensures Proper(Grow(p, capacity)) && Grow(p, capacity).inUse == p.inUse
    ensures Grow(p, capacity).capacity == if capacity > p.capacity then capacity else p.capacity
    ensures forall q: nat ::
      q in Content(Grow(p, capacity).areas) <==> q in Content(p.areas) || p.capacity <= q < capacity
  {
    hide Content, Sequential;
    if capacity > p.capacity {
      var outer := p.areas[0];
      var more := Sequential(p.capacity, capacity);
      forall q: nat ensures Content(Grow(p, capacity).areas)[q]
        == Content(p.areas)[q] + (if p.capacity <= q < capacity then 1 else 0) {
        ContentUpdate(p.areas, 0, outer.(allowed := more + outer.allowed), q);
        SequentialIds(p.capacity, capacity, q);
      }
    }
  }

  lemma TakeProper(p: Pool, encourageReuse: bool)
    requires Proper(p)
    ensures Proper(Take(p, encourageReuse).1)
    ensures Take(p, encourageReuse).0.Some? ==>
      var q := Take(p, encourageReuse).0.value;
      q !in p.inUse && q < p.capacity && exists k :: 0 <= k < |p.areas| && q in p.areas[k].allowed
  {
    hide Content;
    var r := Source(p.areas, encourageReuse);
    if r.Some? {
      var k := r.value;
      var a := p.areas[k];
      var id := a.allowed[0];
      assert a.allowed == [id] + a.allowed[1..];
      ContentAtLeast(p.areas, k, k, id);
      forall q ensures Content(Take(p, encourageReuse).1.areas)[q] + (if q == id then 1 else 0) == Content(p.areas)[q] {
        ContentUpdate(p.areas, k, a.(allowed := a.allowed[1..]), q);
      }
    }
  }

  /** What an allocation takes leaves the lists for the set of ids in use; nothing else changes. */
  lemma TakeKeeps(p: Pool, encourageReuse: bool)
    requires Proper(p) && Take(p, encourageReuse).0.Some?
    ensures var (q, p2) := Take(p, encourageReuse);
      && Proper(p2) && p2.inUse == p.inUse + {q.value} && p2.capacity == p.capacity
      && q.value in Content(p.areas) && q.value !in Content(p2.areas)
      && forall r :: r in Content(p.areas) <==> r == q.value || r in Content(p2.areas)
  {
    hide Content;
    var k := Source(p.areas, encourageReuse).value;
    var a := p.areas[k];
    var id := a.allowed[0];
    assert a.allowed == [id] + a.allowed[1..];
    ContentAtLeast(p.areas, k, k, id);
    forall q ensures Content(Take(p, encourageReuse).1.areas)[q] + (if q == id then 1 else 0) == Content(p.areas)[q] {
      ContentUpdate(p.areas, k, a.(allowed := a.allowed[1..]), q);
    }
  }

  lemma TakeNone(p: Pool, encourageReuse: bool)
    requires Take(p, encourageReuse).0.None?
    ensures Take(p, encourageReuse).1 == p
  {
  }

  lemma AllocateProper(p: Pool, o: Options)
    requires Proper(p)
    ensures Proper(Allocate(p, o).1)
  {
    hide Content, Take, Grow;
    TakeProper(p, o.encourageReuse);
    GrowProper(p, Doubled(p.capacity));
    TakeProper(Grow(p, Doubled(p.capacity)), o.encourageReuse);
  }

  lemma ReleaseKeeps(p: Pool, q: nat, o: Options)
    requires Proper(p)
    ensures var p2 := Release(p, q, o);
      && Proper(p2) && p2.capacity == p.capacity && p2.inUse == p.inUse - {q}
      && (forall r :: r in Content(p2.areas) <==>
            r in Content(p.areas) || (r == q && q in p.inUse && !o.NeverReuses()))
  {
    hide Content;
    if q in p.inUse && !o.NeverReuses() {
      var k := |p.areas| - 1;
      forall r ensures Content(Release(p, q, o).areas)[r]
                    == Content(p.areas)[r] + (if r == q then 1 else 0) {
        ContentUpdate(p.areas, k, p.areas[k].(allowed := [q] + p.areas[k].allowed), r);
      }
    }
  }

  lemma StepProper(p: Pool, e: Event, o: Options)
    requires Proper(p)
    ensures Proper(Step(p, e, o).1)
  {
    hide Content, Allocate, Release;
    match e
    case Starting => StartKeeps(p);
    case Advancing => NextKeeps(p);
    case Ending => EndKeeps(p);
    case Allocating => AllocateProper(p, o);
    case Releasing(q) => ReleaseKeeps(p, q, o);
    case Disabling(q) =>
  }

  lemma RunProper(p: Pool, events: seq<Event>, o: Options)
    requires Proper(p)
    ensures Proper(Run(p, events, o))
  {
    hide Proper, Step;
    if events != [] {
      var n := |events| - 1;
      SizeOfProper(p);
      RunProper(p, events[..n], o);
      StepProper(Run(p, events[..n], o), events[n], o);
    }
  }

  lemma SizeOfProper(p: Pool)
    requires Proper(p)
    ensures |p.areas| >= 1
  {
  }

  // ---------------------------------------------------------------- reuse safety over whole runs

  /** The id is free, in area `d` or one nested in it. */
  ghost predicate FreeWithin(p: Pool, d: nat, q: nat) {
    exists k :: d <= k < |p.areas| && (q in p.areas[k].prohibited || q in p.areas[k].allowed)
  }

  /** The id may not be reused before area `d` ends. */
  predicate Barred(p: Pool, d: nat, q: nat) { d < |p.areas| && q in p.areas[d].prohibited }

  /** An allocation takes from an allowed list, and never an id that some area bars. */
  lemma BarredNotTaken(p: Pool, d: nat, q: nat, encourageReuse: bool)
    requires Proper(p) && Barred(p, d, q)
    ensures Take(p, encourageReuse).0 != Some(q) && Barred(Take(p, encourageReuse).1, d, q)
  {
    hide Content;
    var r := Source(p.areas, encourageReuse);
    if r.Some? {
      var k := r.value;
      ListsDisjoint(p, d, k);
    }
  }

  /** While area `d` lasts, what it bars stays barred and is never returned. */
  lemma BarredStays(p: Pool, e: Event, d: nat, q: nat, o: Options)
    requires Proper(p) && Barred(p, d, q) && d >= 1
    requires d < |Step(p, e, o).1.areas|
    ensures Barred(Step(p, e, o).1, d, q) && Step(p, e, o).0 != Some(q)
  {
    hide Content, Take;
    match e
    case Allocating =>
      BarredNotTaken(p, d, q, o.encourageReuse);
      GrowProper(p, Doubled(p.capacity));
      BarredNotTaken(Grow(p, Doubled(p.capacity)), d, q, o.encourageReuse);
    case Starting =>
    case Advancing =>
    case Ending =>
    case Releasing(r) =>
    case Disabling(r) =>
  }

  /** While area `d` lasts, a free id within it stays so unless an allocation returns it. */
  lemma FreeStays(p: Pool, e: Event, d: nat, q: nat, o: Options)
    requires Proper(p) && FreeWithin(p, d, q)
    requires d < |Step(p, e, o).1.areas| && Step(p, e, o).0 != Some(q)
    ensures FreeWithin(Step(p, e, o).1, d, q)
  {
    var k :| d <= k < |p.areas| && (q in p.areas[k].prohibited || q in p.areas[k].allowed);
    var p2 := Step(p, e, o).1;
    match e
    case Starting => assert p2.areas[k] == p.areas[k];
    case Advancing => assert q in p2.areas[k].prohibited || q in p2.areas[k].allowed;
    case Ending =>
      var m := if k < |p2.areas| then k else k - 1;
      if |p.areas| >= 2 {
        assert q in p2.areas[m].prohibited || q in p2.areas[m].allowed;
      }
    case Allocating => FreeNotTaken(p, d, q, k, o);
    case Releasing(r) => assert q in p2.areas[k].prohibited || q in p2.areas[k].allowed;
    case Disabling(r) => assert p2.areas[k] == p.areas[k];
  }

  lemma FreeNotTaken(p: Pool, d: nat, q: nat, k: nat, o: Options)
    requires |p.areas| >= 1 && d <= k < |p.areas| && (q in p.areas[k].prohibited || q in p.areas[k].allowed)
    requires Allocate(p, o).0 != Some(q)
    ensures FreeWithin(Allocate(p, o).1, d, q)
  {
    hide Source;
    var p1 := if Take(p, o.encourageReuse).0.Some? || !o.mayExtend then p else Grow(p, Doubled(p.capacity));
    assert q in p1.areas[k].prohibited || q in p1.areas[k].allowed;
    var (r, p2) := Take(p1, o.encourageReuse);
    assert q in p2.areas[k].prohibited || q in p2.areas[k].allowed;
  }

  /** A new segment of area `d` bars every id that was free within it. */
  lemma NextBars(p: Pool, d: nat, q: nat)
    requires FreeWithin(p, d, q) && |p.areas| == d + 1 && d >= 1
    ensures Barred(Next(p), d, q)
  {
  }

  /** A released id is free within every area that is open. */
  lemma ReleasedIsFree(p: Pool, d: nat, q: nat, o: Options)
    requires Proper(p) && q in p.inUse && d < |p.areas| && !o.NeverReuses()
    ensures FreeWithin(Release(p, q, o), d, q)
  {
    var k := |p.areas| - 1;
    assert q in Release(p, q, o).areas[k].allowed;
  }

  lemma RunSnoc(p: Pool, events: seq<Event>, n: nat, o: Options)
    requires |p.areas| >= 1 && n < |events|
    ensures Run(p, events[..n + 1], o) == Step(Run(p, events[..n], o), events[n], o).1
  {
    assert events[..n + 1][..n] == events[..n];
  }

  lemma FreeUntil(p: Pool, events: seq<Event>, o: Options, d: nat, q: nat, i: nat, j: nat)
    requires Proper(p) && i <= j <= |events|
    requires FreeWithin(Run(p, events[..i], o), d, q)
    requires forall k :: i <= k <= j ==> d < |Run(p, events[..k], o).areas|
    requires forall k :: i <= k < j ==> Step(Run(p, events[..k], o), events[k], o).0 != Some(q)
    ensures FreeWithin(Run(p, events[..j], o), d, q)
    decreases j - i
  {
    hide Content, Step, FreeWithin;
    if i < j {
      RunProper(p, events[..i], o);
      RunSnoc(p, events, i, o);
      FreeStays(Run(p, events[..i], o), events[i], d, q, o);
      FreeUntil(p, events, o, d, q, i + 1, j);
    }
  }

  lemma BarredUntil(p: Pool, events: seq<Event>, o: Options, d: nat, q: nat, i: nat, j: nat)
    requires Proper(p) && i <= j <= |events| && d >= 1
    requires Barred(Run(p, events[..i], o), d, q)
    requires forall k :: i <= k <= j ==> d < |Run(p, events[..k], o).areas|
    ensures Barred(Run(p, events[..j], o), d, q)
    ensures forall k :: i <= k < j ==> Step(Run(p, events[..k], o), events[k], o).0 != Some(q)
    decreases j - i
  {
    hide Content, Step;
    if i < j {
      RunProper(p, events[..i], o);
      RunSnoc(p, events, i, o);
      BarredStays(Run(p, events[..i], o), events[i], d, q, o);
      BarredUntil(p, events, o, d, q, i + 1, j);
    }
  }

  /**
   The id is released at event `i` while area `d` is open, and not taken again before the area moves to its next
   segment at event `j`; the area is still open before event `n`.
   */
  ghost predicate ReleasedBefore(p: Pool, events: seq<Event>, o: Options, d: nat, q: nat, i: nat, j: nat, n: nat)
    requires |p.areas| >= 1
  {
    && i < j < n <= |events| && d >= 1
    && events[i] == Releasing(q) && q in Run(p, events[..i], o).inUse
    && events[j] == Advancing && |Run(p, events[..j], o).areas| == d + 1
    && (forall k :: i <= k <= n ==> d < |Run(p, events[..k], o).areas|)
    && (forall k :: i < k < j ==> Step(Run(p, events[..k], o), events[k], o).0 != Some(q))
  }

  /** The id exists, but is neither free nor in use. */
  ghost predicate Gone(p: Pool, q: nat) { q < p.capacity && q !in p.inUse && q !in Content(p.areas) }

  /** Such an id is never issued, and stays so. */
  lemma GoneStays(p: Pool, e: Event, q: nat, o: Options)
    requires Proper(p) && Gone(p, q)
    ensures Gone(Step(p, e, o).1, q) && Step(p, e, o).0 != Some(q)
  {
    hide Content, Proper, Take, Grow, Release;
    SizeOfProper(p);
    match e
    case Starting => StartKeeps(p);
    case Advancing => NextKeeps(p);
    case Ending => EndKeeps(p);
    case Allocating =>
      GoneNotTaken(p, q, o.encourageReuse);
      GrowProper(p, Doubled(p.capacity));
      GoneNotTaken(Grow(p, Doubled(p.capacity)), q, o.encourageReuse);
    case Releasing(r) => ReleaseKeeps(p, r, o);
    case Disabling(r) =>
  }

  lemma GoneNotTaken(p: Pool, q: nat, encourageReuse: bool)
    requires Proper(p) && Gone(p, q)
    ensures Take(p, encourageReuse).0 != Some(q) && Gone(Take(p, encourageReuse).1, q)
  {
    hide Content, Proper, Take;
    if Take(p, encourageReuse).0.Some? {
      TakeKeeps(p, encourageReuse);
    } else {
      TakeNone(p, encourageReuse);
    }
  }

  lemma GoneUntil(p: Pool, events: seq<Event>, o: Options, q: nat, i: nat, j: nat)
    requires Proper(p) && i <= j <= |events| && |p.areas| >= 1 && Gone(Run(p, events[..i], o), q)
    ensures forall k :: i <= k < j ==> Step(Run(p, events[..k], o), events[k], o).0 != Some(q)
    decreases j - i
  {
    hide Proper, Step, Gone;
    if i < j {
      RunProper(p, events[..i], o);
      RunSnoc(p, events, i, o);
      GoneStays(Run(p, events[..i], o), events[i], q, o);
      GoneUntil(p, events, o, q, i + 1, j);
    }
  }

  /** Where nothing is reused, a released id is gone. */
  lemma ReleasedIsGone(p: Pool, q: nat, o: Options)
    requires Proper(p) && q in p.inUse && o.NeverReuses()
    ensures Gone(Release(p, q, o), q)
  {
    hide Content;
  }

  /**
   Reuse safety: such an id is returned by no allocation until the area ends, through any nesting of areas
   inside it and any growth of the capacity.
   */
  lemma ReuseSafety(p: Pool, events: seq<Event>, o: Options, d: nat, q: nat, i: nat, j: nat, n: nat)
    requires Proper(p) && ReleasedBefore(p, events, o, d, q, i, j, n)
    ensures forall k :: j < k < n ==> Step(Run(p, events[..k], o), events[k], o).0 != Some(q)
  {
    hide Proper, FreeWithin, Barred, Gone, Release, Next, Allocate, Start, End, Disable;
    SizeOfProper(p);
    RunProper(p, events[..i], o);
    RunSnoc(p, events, i, o);
    if o.NeverReuses() {
      ReleasedIsGone(Run(p, events[..i], o), q, o);
      GoneUntil(p, events, o, q, i + 1, n);
    } else {
      ReleasedIsFree(Run(p, events[..i], o), d, q, o);
      FreeUntil(p, events, o, d, q, i + 1, j);
      RunSnoc(p, events, j, o);
      NextBars(Run(p, events[..j], o), d, q);
      BarredUntil(p, events, o, d, q, j + 1, n);
    }
  }

  /** What each event of a run returns. */
  function Results(p: Pool, events: seq<Event>, o: Options): (r: seq<Option<nat>>)
    requires |p.areas| >= 1
    ensures |r| == |events|
  {
    if events == [] then []
    else
      var before := events[..|events| - 1];
      Results(p, before, o) + [Step(Run(p, before, o), events[|events| - 1], o).0]
  }

  lemma {:induction false} ResultAt(p: Pool, events: seq<Event>, o: Options, k: nat)
    requires |p.areas| >= 1 && k < |events|
    ensures Results(p, events, o)[k] == Step(Run(p, events[..k], o), events[k], o).0
  {
    hide Step, Run;
    var n := |events| - 1;
    if k < n {
      ResultAt(p, events[..n], o, k);
      assert events[..n][..k] == events[..k];
    }
  }

  /** Reuse safety of everything a run returns. */
  ghost predicate SafeResults(p: Pool, events: seq<Event>, o: Options, results: seq<Option<nat>>)
    requires |p.areas| >= 1
  {
    forall d: nat, q: nat, i: nat, j: nat, n: nat, k: nat
        {:trigger ReleasedBefore(p, events, o, d, q, i, j, n), results[k]} ::
      ReleasedBefore(p, events, o, d, q, i, j, n) && j < k < n && k < |results| ==> results[k] != Some(q)
  }

  /** What the first `i` events of a run leave, issue and return. */
  ghost predicate Ran(p: Pool, events: seq<Event>, i: nat, o: Options, now: Pool, issued: seq<nat>,
                      results: seq<Option<nat>>)
    requires |p.areas| >= 1
  {
    && i <= |events| && now == Run(p, events[..i], o)
    && issued == Issued(p, events[..i], o) && results == Results(p, events[..i], o)
  }

  lemma RanNone(p: Pool, events: seq<Event>, o: Options)
    requires |p.areas| >= 1
    ensures Ran(p, events, 0, o, p, [], [])
  {
    assert events[..0] == [];
  }

  lemma RanOneMore(p: Pool, events: seq<Event>, i: nat, o: Options, now: Pool, issued: seq<nat>,
                   results: seq<Option<nat>>)
    requires |p.areas| >= 1 && i < |events| && Ran(p, events, i, o, now, issued, results) && |now.areas| >= 1
    ensures var (q, next) := Step(now, events[i], o);
      Ran(p, events, i + 1, o, next, if q.Some? then issued + [q.value] else issued, results + [q])
  {
    hide Step;
    assert events[..i + 1][..i] == events[..i];
  }

  lemma KeptNext(p: Pool, events: seq<Event>, i: nat, o: Options, now: Pool, issued: seq<nat>,
                 results: seq<Option<nat>>)
    requires |p.areas| >= 1 && i < |events| && Ran(p, events, i, o, now, issued, results) && |now.areas| >= 1
    requires KeptRun(p, events, o)
    ensures Kept(now, events[i], o)
  {
    hide Run, Kept, Issued, Results;
  }

  lemma RanAll(p: Pool, events: seq<Event>, o: Options, now: Pool, issued: seq<nat>, results: seq<Option<nat>>)
    requires |p.areas| >= 1 && Ran(p, events, |events|, o, now, issued, results)
    ensures now == Run(p, events, o) && issued == Issued(p, events, o) && results == Results(p, events, o)
  {
    hide Run, Issued, Results;
    assert events[..|events|] == events;
  }

  lemma ResultsSafe(p: Pool, events: seq<Event>, o: Options)
    requires Proper(p)
    ensures |p.areas| >= 1 && SafeResults(p, events, o, Results(p, events, o))
  {
    hide Proper, Run, Step, ReleasedBefore, Results;
    SizeOfProper(p);
    forall d: nat, q: nat, i: nat, j: nat, n: nat, k: nat
      | ReleasedBefore(p, events, o, d, q, i, j, n) && j < k < n && k < |events|
      ensures Results(p, events, o)[k] != Some(q)
    {
      ReuseSafety(p, events, o, d, q, i, j, n);
      ResultAt(p, events, o, k);
    }
  }

  // ---------------------------------------------------------------- runs that never reuse

  function Initial(n: nat): Pool { Pool([Area([], Sequential(0, n))], n, {}) }

  /** The ids a run issues, in order. */
  function Issued(p: Pool, events: seq<Event>, o: Options): seq<nat>
    requires |p.areas| >= 1
  {
    if events == [] then []
    else
      var before := events[..|events| - 1];
      var q := Step(Run(p, before, o), events[|events| - 1], o).0;
      Issued(p, before, o) + if q.Some? then [q.value] else []
  }

  /** Only the outermost area has ids, those from `m` on. */
  predicate Untouched(p: Pool, m: nat) {
    && |p.areas| >= 1 && m <= p.capacity
    && p.areas[0] == Area([], Sequential(m, p.capacity))
    && forall k :: 1 <= k < |p.areas| ==> p.areas[k] == Area([], [])
  }

  lemma UntouchedSource(areas: seq<Area>)
    requires areas != [] && forall k :: 1 <= k < |areas| ==> areas[k] == Area([], [])
    ensures Source(areas, false) == if areas[0].allowed == [] then None else Some(0)
  {
  }

  lemma UntouchedTake(p: Pool, m: nat)
    requires Untouched(p, m)
    ensures var (q, p2) := Take(p, false);
      if m == p.capacity then q.None? && p2 == p else q == Some(m) && Untouched(p2, m + 1)
  {
    hide Source;
    UntouchedSource(p.areas);
    if m < p.capacity {
      assert Sequential(m, p.capacity)[1..] == Sequential(m + 1, p.capacity);
    }
  }

  lemma UntouchedStep(p: Pool, m: nat, e: Event, o: Options)
    requires Untouched(p, m) && o.NeverReuses()
    ensures var (q, p2) := Step(p, e, o); if q.Some? then q.value == m && Untouched(p2, m + 1) else Untouched(p2, m)
  {
    hide Source, Take;
    match e
    case Allocating =>
      UntouchedTake(p, m);
      if m == p.capacity {
        GrownUntouched(p, m);
        UntouchedTake(Grow(p, Doubled(p.capacity)), m);
      }
    case Ending =>
      if |p.areas| >= 2 {
        var k := |p.areas| - 1;
        assert [] + ([] + p.areas[k - 1].allowed) == p.areas[k - 1].allowed;
        assert End(p).areas == p.areas[..k];
      }
    case Starting =>
    case Advancing =>
    case Releasing(q) =>
    case Disabling(q) =>
  }

  lemma GrownUntouched(p: Pool, m: nat)
    requires Untouched(p, m) && m == p.capacity
    ensures Untouched(Grow(p, Doubled(p.capacity)), m)
  {
    var c := Doubled(p.capacity);
    if c > p.capacity {
      assert Sequential(m, c) + p.areas[0].allowed == Sequential(m, c);
    }
  }

  lemma InitialUntouched(n: nat)
    ensures Untouched(Initial(n), 0)
  {
  }

  /** With a growing capacity and reuse discouraged, the ids issued are 0, 1, 2, ... through any nesting of areas. */
  lemma {:induction false} NeverReissued(n: nat, events: seq<Event>, o: Options)
    requires o.NeverReuses()
    ensures var ids := Issued(Initial(n), events, o);
      ids == Sequential(0, |ids|) && Untouched(Run(Initial(n), events, o), |ids|)
  {
    hide Step, Untouched;
    InitialUntouched(n);
    if events != [] {
      var k := |events| - 1;
      NeverReissued(n, events[..k], o);
      var ids := Issued(Initial(n), events[..k], o);
      UntouchedStep(Run(Initial(n), events[..k], o), |ids|, events[k], o);
    }
  }
}
