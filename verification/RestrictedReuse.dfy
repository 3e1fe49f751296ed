/**
 The qubit manager with restricted reuse: singly linked lists of free ids threaded through one shared
 status array, moved between areas and segments in constant time.
 */
module RestrictedReuse {
  import opened Sequences
  import opened LinkedLists
  import opened ReusePool

  /** Ends every list; larger than any index. */
  const NONE := LARGEST
  const ALLOCATED: int := -0x8000_0000_0000_0000
  const DISABLED: int := -1
  const MINIMUM_CAPACITY: nat := 8

  /** The 64-bit integer that a sum or product of two ends as, for one that is at most twice too large. */
  function Wrapped(x: nat): int { if x <= LARGEST then x else x - 0x1_0000_0000_0000_0000 }

  /** The two pointers of a list that holds the ids `s`. */
  predicate Ends(first: int, last: int, s: seq<nat>) {
    if s == [] then first == NONE && last == NONE else first == s[0] && last == s[|s| - 1]
  }

  /** A list's two pointers and the array its links are in, whatever they are. */
  datatype RawList = RawList(a: seq<int>, first: int, last: int) {
    predicate InRange() {
      && (first == NONE || 0 <= first < |a|)
      && (last == NONE || 0 <= last < |a|)
      && (first != NONE ==> last != NONE)
    }
  }

  /** An id added at the back. */
  function AddedBack(l: RawList, id: nat): (r: RawList)
    requires l.InRange() && id < |l.a| <= NONE
    ensures r.InRange() && |r.a| == |l.a|
  {
    if l.first == NONE then RawList(l.a[id := NONE], id, id) else l.(a := l.a[l.last := id][id := NONE])
  }

  /** The list `r` is `l` with the id added at the back. */
  predicate ReleasedBack(l: RawList, id: nat, r: RawList) {
    l.InRange() && id < |l.a| <= NONE && r == AddedBack(l, id)
  }

  /** The first id taken: the pointer to the last one is only dropped when the list ends. */
  function Taken(l: RawList): (r: (int, RawList))
    requires l.InRange()
    ensures r.1.a == l.a
  {
    var f := if l.first == NONE then NONE else l.a[l.first];
    (l.first, l.(first := f, last := if f == NONE then NONE else l.last))
  }

  /** The pointers and the array hold no list at all. */
  ghost predicate Lost(l: RawList) {
    forall t: seq<nat> {:trigger Chain(l.a, NONE, t)} :: Chain(l.a, NONE, t) ==> !Ends(l.first, l.last, t)
  }

  class QubitList {
    var first: int
    var last: int
    ghost var elems: seq<nat>
    /** The place of the list: the number of its area, and whether it is the allowed list. */
    ghost const area: nat
    ghost const isAllowed: bool

    ghost predicate Valid(a: seq<int>)
      reads this
    {
      Chain(a, NONE, elems) && Ends(first, last, elems)
    }

    function Raw(a: seq<int>): RawList
      reads this
    {
      RawList(a, first, last)
    }

    lemma ValidInRange(a: seq<int>)
      requires Valid(a) && |a| <= NONE
      ensures Raw(a).InRange() && (first == NONE <==> elems == [])
    {
    }

    /** An empty list. */
    constructor (ghost area: nat, ghost isAllowed: bool)
      ensures elems == [] && (forall a :: Valid(a)) && this.area == area && this.isAllowed == isAllowed
    {
      this.area, this.isAllowed := area, isAllowed;
      first, last := NONE, NONE;
      elems := [];
    }

    /** The ids from `min` to `max`, both included. */
    constructor Range(min: nat, max: nat, a: array<int>, ghost area: nat, ghost isAllowed: bool)
      requires min <= max < a.Length <= NONE
      modifies a
      ensures Valid(a[..]) && elems == Sequential(min, max + 1) && this.area == area && this.isAllowed == isAllowed
      ensures forall i :: 0 <= i < min ==> a[i] == old(a[i])
      ensures forall i :: min <= i <= max ==> a[i] >= 0
    {
      for i := min to max
        invariant forall j :: min <= j < i ==> a[j] == j + 1
        invariant forall j :: 0 <= j < min ==> a[j] == old(a[j])
      {
        a[i] := i + 1;
      }
      a[max] := NONE;
      this.area, this.isAllowed := area, isAllowed;
      first, last := min, max;
      elems := Sequential(min, max + 1);
    }

    predicate IsEmpty()
      reads this
    {
      first == NONE
    }

    /**
     Adds an id. At the back of a list that is not empty the link is made but the pointer to the last element
     stays behind; at the front, or to an empty list, an id that is in no list keeps the list.
     */
    method AddQubit(id: nat, addToFront: bool, a: array<int>)
      requires Raw(a[..]).InRange() && id < a.Length <= NONE
      modifies this, a
      ensures !addToFront ==> Raw(a[..]) == AddedBack(old(Raw(a[..])), id)
      ensures old(Valid(a[..])) && id !in old(elems) && (addToFront || old(elems) == []) ==>
        && Valid(a[..]) && elems == [id] + old(elems)
        && a[..] == old(a[..])[id := if old(elems) == [] then NONE else old(elems)[0]]
    {
      hide Chain, NoDuplicates;
      ghost var before := a[..];
      if Valid(before) {
        ValidInRange(before);
        if id !in elems {
          PrependChain(before, NONE, elems, id);
        }
      }
      if IsEmpty() {
        first, last := id, id;
        a[id] := NONE;
        elems := [id] + elems;
        return;
      }
      if addToFront {
        a[id] := first;
        first := id;
        elems := [id] + elems;
      } else {
        a[last] := id;
        a[id] := NONE;
      }
    }

    /** Takes the first id, or NONE from an empty list. */
    method TakeQubitFromFront(a: array<int>) returns (result: int)
      requires Raw(a[..]).InRange() && a.Length <= NONE
      modifies this
      ensures (result, Raw(a[..])) == Taken(old(Raw(a[..])))
      ensures old(Valid(a[..])) ==>
        Valid(a[..]) && (if old(elems) == [] then result == NONE && elems == []
                         else result == old(elems)[0] && elems == old(elems)[1..])
    {
      if Valid(a[..]) {
        ValidInRange(a[..]);
      }
      result := first;
      if !IsEmpty() {
        if Valid(a[..]) {
          TailChain(a[..], NONE, elems);
          elems := elems[1..];
        }
        first := a[first];
      }
      if IsEmpty() {
        last := NONE;
      }
    }

    /** Moves all ids of `source`, in their order, to the front of this list. */
    method MoveAllQubitsFrom(source: QubitList, a: array<int>)
      requires this != source && Valid(a[..]) && source.Valid(a[..]) && a.Length <= NONE
      requires forall q :: q in source.elems ==> q !in elems
      modifies this, source, a
      ensures Valid(a[..]) && source.Valid(a[..])
      ensures elems == old(source.elems) + old(elems) && source.elems == []
      ensures forall i :: 0 <= i < a.Length && i !in old(source.elems) ==> a[i] == old(a[i])
    {
      if source.IsEmpty() {
        return;
      }
      if IsEmpty() {
        last := source.last;
        assert source.elems + elems == source.elems;
      } else {
        JoinChain(a[..], NONE, source.elems, elems);
        a[source.last] := first;
      }
      first := source.first;
      source.first := NONE;
      source.last := NONE;
      elems, source.elems := source.elems + elems, [];
    }
  }

  /** A list object is not disturbed by changes at ids it does not hold. */
  lemma ValidFrame(l: QubitList, a: seq<int>, b: seq<int>, changed: seq<nat>)
    requires l.Valid(a) && |a| <= |b| && forall i :: 0 <= i < |a| && i !in changed ==> b[i] == a[i]
    requires forall q :: q in l.elems ==> q !in changed
    ensures l.Valid(b)
  {
    hide Chain;
    ChainFrame(a, b, NONE, l.elems, changed);
  }

  // ---------------------------------------------------------------- adding at the back

  /**
   Adding at the back leaves a list, pointers included, that holds the old ids and the new one
   exactly when the list was empty.
   */
  lemma BackAddIff(a: seq<int>, s: seq<nat>, first: int, last: int, id: nat)
    requires Chain(a, NONE, s) && Ends(first, last, s) && |a| <= NONE && id < |a| && id !in s
    ensures var a2 := if s == [] then a[id := NONE] else a[last := id][id := NONE];
      var first2, last2 := if s == [] then id else first, if s == [] then id else last;
      s == [] <==> exists t: seq<nat> :: Chain(a2, NONE, t) && Ends(first2, last2, t) && id in t
  {
    if s == [] {
      assert Chain(a[id := NONE], NONE, [id]) && Ends(id, id, [id]) && id in [id];
    } else {
      LinksNonNegative(a, NONE, s);
      BackAddLoses(RawList(a, first, last), s, id);
    }
  }

  /** Added at the back of a list that is not empty, the id leaves pointers that hold no list. */
  lemma BackAddLoses(l: RawList, s: seq<nat>, id: nat)
    requires Chain(l.a, NONE, s) && Ends(l.first, l.last, s) && s != [] && |l.a| <= NONE && id < |l.a| && id !in s
    ensures l.InRange() && Lost(AddedBack(l, id))
  {
    hide NoDuplicates;
    var r := AddedBack(l, id);
    AppendChain(l.a, NONE, s, id);
    forall t: seq<nat> | Chain(r.a, NONE, t) ensures !Ends(r.first, r.last, t) {
      if t != [] && t[0] == s[0] {
        ChainUnique(r.a, NONE, t, s + [id]);
        assert t[|t| - 1] == id;
        assert l.last == s[|s| - 1];
      }
    }
  }

  /** The next id added at the back takes the place of the one before, which is then in no list. */
  lemma SecondBackAddLoses(a: seq<int>, s: seq<nat>, id: nat, next: nat)
    requires Chain(a, NONE, s) && s != [] && id < |a| && next < |a| && id !in s && next !in s && id != next
    ensures var last := s[|s| - 1];
      var a2 := a[last := id][id := NONE];
      Chain(a2[last := next][next := NONE], NONE, s + [next]) && id !in s + [next]
  {
  }

  /** The first `k` ids taken and marked as in use, as far as the list has ids. */
  function IssuedFrom(l: RawList, k: nat): (r: (seq<nat>, RawList))
    decreases k
  {
    if k == 0 || !l.InRange() || l.first == NONE then ([], l)
    else
      var (q, l1) := Taken(l);
      var (ids, l2) := IssuedFrom(l1.(a := l1.a[q := ALLOCATED]), k - 1);
      ([q] + ids, l2)
  }

  /** The list that is left when the first id is taken and marked. */
  lemma IssueOne(l: RawList, t: seq<nat>)
    requires Chain(l.a, NONE, t) && |t| > 1 && l.first == t[0] && l.InRange() && |l.a| <= NONE
    ensures var (q, l1) := Taken(l);
      && q == t[0] < |l.a| && l1 == l.(first := t[1]) && t[1] < |l.a| && t[0] !in t[1..]
      && Chain(l.a[q := ALLOCATED], NONE, t[1..])
  {
    hide Chain, NoDuplicates;
    TailChain(l.a, NONE, t);
    FirstNotAgain(l.a, t);
    ChainFrame(l.a, l.a[t[0] := ALLOCATED], NONE, t[1..], [t[0]]);
  }

  lemma FirstNotAgain(a: seq<int>, t: seq<nat>)
    requires Chain(a, NONE, t) && |t| > 1
    ensures t[0] !in t[1..] && t[0] < |a| && t[1] < |a|
  {
  }

  /** The marks after the ids `s` have been issued. */
  ghost predicate MarkedInUse(a: seq<int>, b: seq<int>, s: seq<nat>) {
    |b| == |a| && forall q: nat :: q < |a| ==> b[q] == if q in s then ALLOCATED else a[q]
  }

  lemma MarkedNone(a: seq<int>)
    ensures MarkedInUse(a, a, [])
  {
  }

  lemma MarkedOneMore(a: seq<int>, b: seq<int>, s: seq<nat>)
    requires s != [] && s[0] < |a| && MarkedInUse(a[s[0] := ALLOCATED], b, s[1..])
    ensures MarkedInUse(a, b, s)
  {
    forall q: nat | q < |a| ensures b[q] == if q in s then ALLOCATED else a[q] {
      assert s == [s[0]] + s[1..];
    }
  }

  /** Taking ids from a list that goes on leaves the pointer to its last element alone. */
  lemma {:induction false} IssueThrough(l: RawList, s: seq<nat>, t: seq<nat>)
    requires Chain(l.a, NONE, s + t) && t != [] && l.first == (s + t)[0] && l.InRange() && |l.a| <= NONE
    ensures var (ids, l2) := IssuedFrom(l, |s|);
      && ids == s && l2.first == t[0] && l2.last == l.last && l2.InRange() && Chain(l2.a, NONE, t)
      && MarkedInUse(l.a, l2.a, s)
    decreases |s|
  {
    hide Chain, NoDuplicates, MarkedInUse;
    if s == [] {
      assert s + t == t;
      MarkedNone(l.a);
    } else {
      var u := s + t;
      IssueOne(l, u);
      assert u[1..] == s[1..] + t && u[0] == s[0] && u[1] == u[1..][0];
      var l1 := Taken(l).1;
      IssueThrough(l1.(a := l1.a[s[0] := ALLOCATED]), s[1..], t);
      MarkedOneMore(l.a, IssuedFrom(l, |s|).1.a, s);
      assert s == [s[0]] + s[1..];
    }
  }

  /**
   What the pointer left behind does next: once the ids before the added one have been issued, it points at an id
   in use, and the next id added at the back overwrites that id's mark. The mark now says that it is free, its
   release is refused, and the added id is in no list.
   */
  lemma StaleOverwrites(l: RawList, s: seq<nat>, id: nat, next: nat)
    requires Chain(l.a, NONE, s) && Ends(l.first, l.last, s) && s != [] && |l.a| <= NONE
    requires id < |l.a| && next < |l.a| && id != next && id !in s && next !in s && l.InRange()
    ensures var last, (ids, l2) := s[|s| - 1], IssuedFrom(AddedBack(l, id), |s|);
      && ids == s && l2.InRange() && |l2.a| == |l.a| && last < |l.a| && l2.a[last] == ALLOCATED
      && var l3 := AddedBack(l2, next); l3.a[last] == next && l3.first == id && Chain(l3.a, NONE, [id])
  {
    hide *;
    LastInside(l, s);
    AddToLonger(l, s, id);
    IssueThrough(AddedBack(l, id), s, [id]);
    var l2 := IssuedFrom(AddedBack(l, id), |s|).1;
    MarkOf(AddedBack(l, id).a, l2.a, s, s[|s| - 1]);
    AddBehindStale(l2, id, s[|s| - 1], next);
  }

  lemma LastInside(l: RawList, s: seq<nat>)
    requires Chain(l.a, NONE, s) && s != []
    ensures s[|s| - 1] in s && s[|s| - 1] < |l.a|
  {
  }

  lemma MarkOf(a: seq<int>, b: seq<int>, s: seq<nat>, q: nat)
    requires MarkedInUse(a, b, s) && q in s && q < |a|
    ensures |b| == |a| && b[q] == ALLOCATED
  {
  }

  /** The id goes to the end of the list, where the pointer does not follow. */
  lemma AddToLonger(l: RawList, s: seq<nat>, id: nat)
    requires Chain(l.a, NONE, s) && Ends(l.first, l.last, s) && s != [] && |l.a| <= NONE
    requires l.InRange() && id < |l.a| && id !in s
    ensures var r := AddedBack(l, id);
      && Chain(r.a, NONE, s + [id]) && r.first == (s + [id])[0] && r.last == s[|s| - 1] && r.InRange() && |r.a| == |l.a|
  {
    hide Chain;
    LastInside(l, s);
    Link(l.a, NONE, s, 0);
    AppendChain(l.a, NONE, s, id);
  }

  /** One more id at the back, where the last pointer is at an id in no list. */
  lemma AddBehindStale(l: RawList, id: nat, last: nat, next: nat)
    requires Chain(l.a, NONE, [id]) && l.first == id < |l.a| <= NONE && l.last == last < |l.a|
    requires l.InRange() && next < |l.a| && last != id && next != id && last != next
    ensures var r := AddedBack(l, next); r.a[last] == next && r.first == id && Chain(r.a, NONE, [id])
  {
  }

  /**
   A capacity of `n` that is fixed, with reuse discouraged: ids 0 and 1 are taken, 0 is released, the others are
   taken, and 1 is released. The mark of id n - 1, which is in use, is then a link to 1, and 1 is in no list.
   */
  lemma StaleRun(n: nat, a: seq<int>)
    requires 3 <= n == |a| && n <= NONE && Chain(a, NONE, Sequential(0, n))
    ensures var (ids, l1) := IssuedFrom(RawList(a, 0, n - 1), 2);
      l1.InRange() && |l1.a| == n &&
      var (more, l2) := IssuedFrom(AddedBack(l1, 0), n - 2);
      ids == [0, 1] && more == Sequential(2, n) && l2.InRange() && |l2.a| == n && l2.a[n - 1] == ALLOCATED &&
      var l3 := AddedBack(l2, 1);
      l3.a[n - 1] == 1 && l3.first == 0 && Chain(l3.a, NONE, [0])
  {
    hide Chain, NoDuplicates, IssuedFrom, AddedBack, Sequential;
    SplitSequential(n);
    var l := RawList(a, 0, n - 1);
    assert |[0, 1]| == 2;
    IssueThrough(l, [0, 1], Sequential(2, n));
    StaleOverwrites(IssuedFrom(l, 2).1, Sequential(2, n), 0, 1);
  }

  lemma SplitSequential(n: nat)
    requires 3 <= n
    ensures [0, 1] + Sequential(2, n) == Sequential(0, n)
    ensures Sequential(0, n)[0] == 0
    ensures Sequential(2, n) != [] && Sequential(2, n)[0] == 2 && Sequential(2, n)[|Sequential(2, n)| - 1] == n - 1
    ensures 0 !in Sequential(2, n) && 1 !in Sequential(2, n) && |Sequential(2, n)| == n - 2
  {
  }

  // ---------------------------------------------------------------- the manager

  /** The two lists of an area; they are never exchanged for others. */
  datatype AreaLists = AreaLists(prohibited: QubitList, allowed: QubitList)

  /** The ids marked `mark` in the status array. */
  function Marked(a: seq<int>, mark: int): set<nat> { set i: nat | i < |a| && a[i] == mark }

  /** The ids whose status is not negative. */
  function FreeIds(a: seq<int>): set<nat> { set i: nat | i < |a| && a[i] >= 0 }

  /**
   The marks in the status array, the pool and the counters agree. Every id in a list has a status
   that is not negative; with reuse encouraged there are no other such ids.
   */
  ghost predicate Accounts(a: seq<int>, p: Pool, encourageReuse: bool, free: int, inUse: int, disabled: int) {
    && |a| <= NONE
    && Proper(p)
    && p.capacity == |a|
    && p.inUse == Marked(a, ALLOCATED)
    && (forall i :: 0 <= i < |a| ==> a[i] >= 0 || a[i] == ALLOCATED || a[i] == DISABLED)
    && (forall q :: q in Content(p.areas) ==> q in FreeIds(a))
    && (encourageReuse ==> forall q :: q in FreeIds(a) ==> q in Content(p.areas))
    && free == |FreeIds(a)|
    && inUse == |Marked(a, ALLOCATED)|
    && disabled == |Marked(a, DISABLED)|
  }

  /** Moving ids between lists, with their links changed, keeps the accounts. */
  lemma AccountsMoved(a: seq<int>, b: seq<int>, p: Pool, p2: Pool, encourageReuse: bool,
                      free: int, inUse: int, disabled: int)
    requires Accounts(a, p, encourageReuse, free, inUse, disabled)
    requires |a| == |b| && forall i :: 0 <= i < |a| ==> a[i] == b[i] || (a[i] >= 0 && b[i] >= 0)
    requires p2.capacity == p.capacity && p2.inUse == p.inUse && |p2.areas| >= 1
    requires forall q :: Content(p2.areas)[q] == Content(p.areas)[q]
    ensures Accounts(b, p2, encourageReuse, free, inUse, disabled)
  {
    hide Content, Marked, FreeIds;
    SameMarks(a, b);
  }

  lemma AccountsEnded(a: seq<int>, b: seq<int>, p: Pool, encourageReuse: bool, free: int, inUse: int, disabled: int)
    requires Accounts(a, p, encourageReuse, free, inUse, disabled) && |p.areas| >= 2
    requires |a| == |b| && forall i :: 0 <= i < |a| ==> a[i] == b[i] || (a[i] >= 0 && b[i] >= 0)
    ensures Accounts(b, End(p), encourageReuse, free, inUse, disabled)
  {
    hide Content, Marked, FreeIds, Proper;
    EndKeeps(p);
    AccountsMoved(a, b, p, End(p), encourageReuse, free, inUse, disabled);
  }

  /** Every list object is in its own place, so no two are the same. */
  ghost predicate Placed(areas: seq<AreaLists>) {
    forall k :: 0 <= k < |areas| ==>
      && areas[k].prohibited.area == k && !areas[k].prohibited.isAllowed
      && areas[k].allowed.area == k && areas[k].allowed.isAllowed
  }

  /** The object is a list of the ids through `a`. */
  ghost predicate Holds(l: QubitList, a: seq<int>, ids: seq<nat>)
    reads l
  {
    l.Valid(a) && l.elems == ids
  }

  /** New links at the ids of area `k` disturb no list of the areas around it. */
  lemma Reframe(areas: seq<AreaLists>, a: seq<int>, b: seq<int>, p: Pool, k: nat, m: nat)
    requires Proper(p) && m <= k < |p.areas| && |areas| >= k
    requires |a| == |b|
    requires forall q: nat :: q < |a| && q !in p.areas[k].prohibited && q !in p.areas[k].allowed ==> b[q] == a[q]
    requires forall j :: 0 <= j < k ==> Holds(areas[j].prohibited, a, p.areas[j].prohibited)
    requires forall j :: 0 <= j < m ==> Holds(areas[j].allowed, a, p.areas[j].allowed)
    ensures forall j :: 0 <= j < k ==> Holds(areas[j].prohibited, b, p.areas[j].prohibited)
    ensures forall j :: 0 <= j < m ==> Holds(areas[j].allowed, b, p.areas[j].allowed)
  {
    hide Proper, Content, Chain, NoDuplicates;
    var changed := p.areas[k].prohibited + p.areas[k].allowed;
    forall j | 0 <= j < k
      ensures Holds(areas[j].prohibited, b, p.areas[j].prohibited)
      ensures j < m ==> Holds(areas[j].allowed, b, p.areas[j].allowed)
    {
      ListsDisjoint(p, j, k);
      ListsDisjoint(p, k, j);
      ValidFrame(areas[j].prohibited, a, b, changed);
      if j < m {
        ValidFrame(areas[j].allowed, a, b, changed);
      }
    }
  }

  /** The allowed list of an area to the front of its prohibited list. */
  method BarSegment(current: AreaLists, ghost p: Pool, ghost k: nat, a: array<int>)
    requires Proper(p) && k < |p.areas| && a.Length <= NONE && current.prohibited != current.allowed
    requires Holds(current.prohibited, a[..], p.areas[k].prohibited)
    requires Holds(current.allowed, a[..], p.areas[k].allowed)
    modifies current.prohibited, current.allowed, a
    ensures Holds(current.prohibited, a[..], p.areas[k].allowed + p.areas[k].prohibited)
    ensures Holds(current.allowed, a[..], [])
    ensures forall i :: 0 <= i < a.Length ==> a[i] == old(a[i]) || (a[i] >= 0 && old(a[i]) >= 0)
    ensures forall i :: 0 <= i < a.Length && i !in p.areas[k].prohibited && i !in p.areas[k].allowed ==>
      a[i] == old(a[i])
  {
    hide Proper, Content, Chain, NoDuplicates;
    ListsDisjoint(p, k, k);
    LinksNonNegative(a[..], NONE, p.areas[k].allowed);
    current.prohibited.MoveAllQubitsFrom(current.allowed, a);
    LinksNonNegative(a[..], NONE, current.prohibited.elems);
  }

  /** Both lists of the area that ends, one after the other, to the front of the containing area's allowed list. */
  method MergeArea(target: QubitList, ended: AreaLists, ghost p: Pool, ghost k: nat, a: array<int>)
    requires Proper(p) && 1 <= k < |p.areas| && a.Length <= NONE
    requires target != ended.prohibited && target != ended.allowed && ended.prohibited != ended.allowed
    requires Holds(target, a[..], p.areas[k - 1].allowed)
    requires Holds(ended.prohibited, a[..], p.areas[k].prohibited) && Holds(ended.allowed, a[..], p.areas[k].allowed)
    modifies target, ended.prohibited, ended.allowed, a
    ensures Holds(target, a[..], p.areas[k].allowed + (p.areas[k].prohibited + p.areas[k - 1].allowed))
    ensures forall i :: 0 <= i < a.Length ==> a[i] == old(a[i]) || (a[i] >= 0 && old(a[i]) >= 0)
    ensures forall i :: 0 <= i < a.Length && i !in p.areas[k].prohibited && i !in p.areas[k].allowed ==>
      a[i] == old(a[i])
  {
    hide Proper, Content, Chain, NoDuplicates;
    ListsDisjoint(p, k, k);
    ListsDisjoint(p, k, k - 1);
    ListsDisjoint(p, k - 1, k);
    ghost var before := a[..];
    LinksNonNegative(before, NONE, p.areas[k].prohibited);
    LinksNonNegative(before, NONE, p.areas[k].allowed);
    target.MoveAllQubitsFrom(ended.prohibited, a);
    ValidFrame(ended.allowed, before, a[..], p.areas[k].prohibited);
    target.MoveAllQubitsFrom(ended.allowed, a);
    LinksNonNegative(a[..], NONE, target.elems);
  }

  /** A larger array that begins like the old one. */
  method CopyOf(a: array<int>, n: nat) returns (b: array<int>)
    requires n >= a.Length
    ensures fresh(b) && b.Length == n && forall i :: 0 <= i < a.Length ==> b[i] == a[i]
  {
    b := new int[n];
    forall i | 0 <= i < a.Length {
      b[i] := a[i];
    }
  }

  /** The new ids to the front of the outermost area's allowed list. */
  method TakeIn(outer: QubitList, more: QubitList, ghost p: Pool, ghost before: seq<int>, a: array<int>)
    requires Proper(p) && outer != more && |before| == p.capacity < a.Length <= NONE
    requires Holds(outer, before, p.areas[0].allowed)
    requires more.Valid(a[..]) && more.elems == Sequential(p.capacity, a.Length)
    requires forall i :: 0 <= i < |before| ==> a[i] == before[i]
    requires forall i :: |before| <= i < a.Length ==> a[i] >= 0
    modifies outer, more, a
    ensures Holds(outer, a[..], Sequential(p.capacity, a.Length) + p.areas[0].allowed)
    ensures forall i :: 0 <= i < |before| ==> a[i] == before[i]
    ensures forall i :: |before| <= i < a.Length ==> a[i] >= 0
  {
    hide Proper, Content, Chain, NoDuplicates, Sequential;
    LinksNonNegative(before, NONE, outer.elems);
    ChainFrame(before, a[..], NONE, outer.elems, []);
    outer.MoveAllQubitsFrom(more, a);
    LinksNonNegative(a[..], NONE, outer.elems);
    forall i | |before| <= i < a.Length ensures a[i] >= 0 {
      assert Sequential(p.capacity, a.Length)[i - |before|] == i;
      assert outer.elems[i - |before|] == i;
    }
  }

  /** A longer array disturbs no list but the one the new ids went to. */
  lemma ReframeOuter(areas: seq<AreaLists>, a: seq<int>, b: seq<int>, p: Pool)
    requires |areas| == |p.areas| && |a| <= |b| && forall i :: 0 <= i < |a| ==> b[i] == a[i]
    requires forall j :: 0 <= j < |areas| ==> Holds(areas[j].prohibited, a, p.areas[j].prohibited)
    requires forall j :: 0 < j < |areas| ==> Holds(areas[j].allowed, a, p.areas[j].allowed)
    ensures forall j :: 0 <= j < |areas| ==> Holds(areas[j].prohibited, b, p.areas[j].prohibited)
    ensures forall j :: 0 < j < |areas| ==> Holds(areas[j].allowed, b, p.areas[j].allowed)
  {
    hide Chain;
    forall j | 0 <= j < |areas|
      ensures Holds(areas[j].prohibited, b, p.areas[j].prohibited)
      ensures j > 0 ==> Holds(areas[j].allowed, b, p.areas[j].allowed)
    {
      ValidFrame(areas[j].prohibited, a, b, []);
      if j > 0 {
        ValidFrame(areas[j].allowed, a, b, []);
      }
    }
  }

  /** A change at an id of no list disturbs no list. */
  lemma ReframeOne(areas: seq<AreaLists>, a: seq<int>, b: seq<int>, p: Pool, q: nat)
    requires |areas| == |p.areas| && q < |a| == |b| && b == a[q := b[q]] && q !in Content(p.areas)
    requires forall j :: 0 <= j < |areas| ==> Holds(areas[j].prohibited, a, p.areas[j].prohibited)
    requires forall j :: 0 <= j < |areas| ==> Holds(areas[j].allowed, a, p.areas[j].allowed)
    ensures forall j :: 0 <= j < |areas| ==> Holds(areas[j].prohibited, b, p.areas[j].prohibited)
    ensures forall j :: 0 <= j < |areas| ==> Holds(areas[j].allowed, b, p.areas[j].allowed)
  {
    hide Chain, Content;
    forall j | 0 <= j < |areas|
      ensures Holds(areas[j].prohibited, b, p.areas[j].prohibited) && Holds(areas[j].allowed, b, p.areas[j].allowed)
    {
      ContentAtLeast(p.areas, j, j, q);
      assert q !in multiset(p.areas[j].prohibited) && q !in multiset(p.areas[j].allowed);
      ValidFrame(areas[j].prohibited, a, b, [q]);
      ValidFrame(areas[j].allowed, a, b, [q]);
    }
  }

  /** New ids at the end of the array are free, and change no mark. */
  lemma {:induction false} MarksGrown(a: seq<int>, b: seq<int>)
    requires |a| <= |b| && a == b[..|a|] && forall i :: |a| <= i < |b| ==> b[i] >= 0
    ensures |FreeIds(b)| == |FreeIds(a)| + |b| - |a|
    ensures forall q: nat :: q in FreeIds(b) <==> q in FreeIds(a) || |a| <= q < |b|
    ensures Marked(b, ALLOCATED) == Marked(a, ALLOCATED) && Marked(b, DISABLED) == Marked(a, DISABLED)
    decreases |b|
  {
    if |a| == |b| {
      assert a == b;
    } else {
      var n := |b| - 1;
      MarksGrown(a, b[..n]);
      assert FreeIds(b) == FreeIds(b[..n]) + {n};
    }
  }

  lemma AccountsGrown(a: seq<int>, b: seq<int>, p: Pool, encourageReuse: bool, free: int, inUse: int, disabled: int)
    requires Accounts(a, p, encourageReuse, free, inUse, disabled)
    requires |a| < |b| <= NONE && a == b[..|a|] && forall i :: |a| <= i < |b| ==> b[i] >= 0
    ensures Proper(p) && Accounts(b, Grow(p, |b|), encourageReuse, free + |b| - |a|, inUse, disabled)
  {
    hide Content, Marked, FreeIds, Grow;
    MarksGrown(a, b);
    GrowProper(p, |b|);
  }

  /** The counts after one free id is marked as in use. */
  lemma AccountsTaken(a: seq<int>, p: Pool, p2: Pool, q: nat, encourageReuse: bool, free: int, inUse: int,
                      disabled: int)
    requires Accounts(a, p, encourageReuse, free, inUse, disabled) && Proper(p2)
    requires q in Content(p.areas) && q !in Content(p2.areas) && p2.inUse == p.inUse + {q} && p2.capacity == p.capacity
    requires forall r :: r in Content(p.areas) <==> r == q || r in Content(p2.areas)
    ensures q < |a| && Accounts(a[q := ALLOCATED], p2, encourageReuse, free - 1, inUse + 1, disabled)
  {
    hide Content, Proper;
    var b := a[q := ALLOCATED];
    assert FreeIds(b) == FreeIds(a) - {q};
    assert Marked(b, ALLOCATED) == Marked(a, ALLOCATED) + {q};
    assert Marked(b, DISABLED) == Marked(a, DISABLED);
  }

  /** The counts after one id in use is linked to some id, or to none. */
  lemma AccountsReleased(a: seq<int>, p: Pool, p2: Pool, q: nat, v: int, encourageReuse: bool, free: int, inUse: int,
                         disabled: int)
    requires Accounts(a, p, encourageReuse, free, inUse, disabled) && Proper(p2)
    requires q < |a| && q in p.inUse && v >= 0 && p2.inUse == p.inUse - {q} && p2.capacity == p.capacity
    requires forall r :: r in Content(p2.areas) ==> r == q || r in Content(p.areas)
    requires encourageReuse ==> q in Content(p2.areas) && forall r :: r in Content(p.areas) ==> r in Content(p2.areas)
    ensures Accounts(a[q := v], p2, encourageReuse, free + 1, inUse - 1, disabled)
  {
    hide Content, Proper;
    var b := a[q := v];
    assert FreeIds(b) == FreeIds(a) + {q};
    assert Marked(b, ALLOCATED) == Marked(a, ALLOCATED) - {q};
    assert Marked(b, DISABLED) == Marked(a, DISABLED);
  }

  /** The counts after one id in use is disabled. */
  lemma AccountsDisabled(a: seq<int>, p: Pool, q: nat, encourageReuse: bool, free: int, inUse: int, disabled: int)
    requires Accounts(a, p, encourageReuse, free, inUse, disabled)
    requires q < |a| && q in p.inUse
    ensures Accounts(a[q := DISABLED], Disable(p, q), encourageReuse, free, inUse - 1, disabled + 1)
  {
    hide Content;
    var b := a[q := DISABLED];
    assert FreeIds(b) == FreeIds(a);
    assert Marked(b, ALLOCATED) == Marked(a, ALLOCATED) - {q};
    assert Marked(b, DISABLED) == Marked(a, DISABLED) + {q};
  }

  /** An id to the front of an area's allowed list, or to the back; returns what it then links to. */
  method AddTo(l: QubitList, id: nat, addToFront: bool, ghost p: Pool, ghost k: nat, a: array<int>)
    returns (ghost v: int)
    requires Proper(p) && k < |p.areas| && id in p.inUse && id < a.Length <= NONE
    requires Holds(l, a[..], p.areas[k].allowed)
    modifies l, a
    ensures var ids := p.areas[k].allowed;
      if addToFront || ids == []
      then Holds(l, a[..], [id] + ids) && v >= 0 && a[..] == old(a[..])[id := v]
      else ReleasedBack(old(l.Raw(a[..])), id, l.Raw(a[..])) && Lost(l.Raw(a[..]))
  {
    hide Proper, Content, Chain, NoDuplicates;
    UsedInNoList(p, id);
    ContentAtLeast(p.areas, k, k, id);
    assert id !in multiset(p.areas[k].allowed);
    LinksNonNegative(a[..], NONE, l.elems);
    v := if l.elems == [] then NONE else l.elems[0];
    l.ValidInRange(a[..]);
    if l.elems != [] {
      BackAddLoses(l.Raw(a[..]), l.elems, id);
    }
    l.AddQubit(id, addToFront, a);
  }

  lemma UsedInNoList(p: Pool, q: nat)
    requires Proper(p) && q in p.inUse
    ensures q !in Content(p.areas)
  {
    hide Content;
  }

  /** A change at an id in use disturbs no list but the one it goes to. */
  lemma ReframeOthers(areas: seq<AreaLists>, a: seq<int>, b: seq<int>, p: Pool, q: nat, k: nat)
    requires Proper(p) && |areas| == |p.areas| && q < |a| == |b| && b == a[q := b[q]] && q in p.inUse && k < |areas|
    requires forall j :: 0 <= j < |areas| ==> Holds(areas[j].prohibited, a, p.areas[j].prohibited)
    requires forall j :: 0 <= j < |areas| && j != k ==> Holds(areas[j].allowed, a, p.areas[j].allowed)
    ensures forall j :: 0 <= j < |areas| ==> Holds(areas[j].prohibited, b, p.areas[j].prohibited)
    ensures forall j :: 0 <= j < |areas| && j != k ==> Holds(areas[j].allowed, b, p.areas[j].allowed)
  {
    hide Chain, Content, Proper;
    forall j | 0 <= j < |areas|
      ensures Holds(areas[j].prohibited, b, p.areas[j].prohibited)
      ensures (j != k ==> Holds(areas[j].allowed, b, p.areas[j].allowed))
    {
      UsedInNoList(p, q);
      ContentAtLeast(p.areas, j, j, q);
      assert q !in multiset(p.areas[j].prohibited) && q !in multiset(p.areas[j].allowed);
      ValidFrame(areas[j].prohibited, a, b, [q]);
      if j != k {
        ValidFrame(areas[j].allowed, a, b, [q]);
      }
    }
  }

  /** What is in the lists of `p` is in those of `p2`, and there only new ids besides. */
  ghost predicate SameContent(p: Pool, p2: Pool) {
    && (forall q :: q in Content(p.areas) ==> q in Content(p2.areas))
    && (forall q :: q in Content(p2.areas) ==> q in Content(p.areas) || q >= p.capacity)
  }

  /** In `p2` the ids `ids`, free in `p` or new, are in use as well as those of `p`; all else free in `p` still is. */
  ghost predicate Split(p: Pool, p2: Pool, ids: seq<nat>) {
    && NoDuplicates(ids) && p.capacity <= p2.capacity
    && (forall q :: q in p2.inUse <==> q in p.inUse || q in ids)
    && (forall q :: q in ids ==> q !in p.inUse && (q in Content(p.areas) || q >= p.capacity))
    && (forall q :: q in Content(p.areas) ==> q in Content(p2.areas) || q in ids)
    && (forall q :: q in Content(p2.areas) ==> q in Content(p.areas) || q >= p.capacity)
  }

  lemma SplitStart(p: Pool)
    ensures Split(p, p, [])
  {
  }

  lemma SplitIds(p: Pool, p2: Pool, ids: seq<nat>)
    requires Split(p, p2, ids)
    ensures NoDuplicates(ids) && p2.inUse == p.inUse + (set q | q in ids)
    ensures forall q :: q in ids ==> q !in p.inUse && (q in Content(p.areas) || q >= p.capacity)
  {
    hide Content, NoDuplicates;
  }

  lemma SplitOne(p: Pool, p2: Pool, ids: seq<nat>, encourageReuse: bool)
    requires Split(p, p2, ids) && Proper(p2) && Take(p2, encourageReuse).0.Some?
    requires forall q :: q in p.inUse ==> q < p.capacity
    ensures Split(p, Take(p2, encourageReuse).1, ids + [Take(p2, encourageReuse).0.value])
  {
    hide Content, Proper, Take;
    TakeKeeps(p2, encourageReuse);
    InListNotInUse(p2, Take(p2, encourageReuse).0.value);
  }

  lemma SplitGrown(p: Pool, p2: Pool, ids: seq<nat>, capacity: nat)
    requires Split(p, p2, ids) && Proper(p2)
    ensures Split(p, Grow(p2, capacity), ids) && Proper(Grow(p2, capacity))
  {
    hide Content, Proper, NoDuplicates;
    AreasOf(p2);
    GrowProper(p2, capacity);
  }

  lemma AreasOf(p: Pool)
    requires Proper(p)
    ensures |p.areas| >= 1 && forall q :: q in p.inUse ==> q < p.capacity
  {
    hide Content;
  }

  lemma SplitTake(p: Pool, p2: Pool, ids: seq<nat>, o: Options)
    requires Split(p, p2, ids) && Proper(p2) && Proper(p)
    ensures var (q, p3) := Allocate(p2, o);
      Split(p, p3, if q.Some? then ids + [q.value] else ids)
  {
    hide Content, Proper, Take, Grow, Split;
    AreasOf(p);
    AreasOf(p2);
    if Take(p2, o.encourageReuse).0.Some? {
      SplitOne(p, p2, ids, o.encourageReuse);
    } else {
      TakeNone(p2, o.encourageReuse);
      var p3 := Grow(p2, Doubled(p2.capacity));
      SplitGrown(p, p2, ids, Doubled(p2.capacity));
      if Take(p3, o.encourageReuse).0.Some? {
        SplitOne(p, p3, ids, o.encourageReuse);
      } else {
        TakeNone(p3, o.encourageReuse);
      }
    }
  }

  lemma InListNotInUse(p: Pool, q: nat)
    requires Proper(p) && q in Content(p.areas)
    ensures q !in p.inUse
  {
    hide Content;
  }

  /** Of the ids taken since `p`, those of `ids` are still to be released. */
  ghost predicate Undone(p: Pool, p2: Pool, ids: seq<nat>, o: Options) {
    && NoDuplicates(ids)
    && (forall q :: q in p2.inUse <==> q in p.inUse || q in ids)
    && (forall q :: q in ids ==> q !in p.inUse)
    && (!o.NeverReuses() ==> forall q :: q in Content(p.areas) ==> q in Content(p2.areas) || q in ids)
    && (forall q :: q in ids ==> q in Content(p.areas) || q >= p.capacity)
    && (forall q :: q in Content(p2.areas) ==> q in Content(p.areas) || q >= p.capacity)
  }

  lemma UndoneNothing(p: Pool, p2: Pool, ids: seq<nat>, o: Options)
    requires Split(p, p2, ids)
    ensures Undone(p, p2, ids, o)
  {
    hide Content, NoDuplicates;
  }

  lemma UndoneRelease(p: Pool, p2: Pool, ids: seq<nat>, o: Options)
    requires Undone(p, p2, ids, o) && Proper(p2) && ids != []
    ensures ids[0] in p2.inUse && Undone(p, ReusePool.Release(p2, ids[0], o), ids[1..], o)
  {
    hide Content, Release;
    assert ids == [ids[0]] + ids[1..];
    ReleaseKeeps(p2, ids[0], o);
  }

  lemma UndoneAll(p: Pool, p2: Pool, o: Options)
    requires Undone(p, p2, [], o)
    ensures p2.inUse == p.inUse && (!o.NeverReuses() ==> SameContent(p, p2))
  {
    hide Content;
  }

  /** No list offers an id. */
  predicate NoneAllowed(p: Pool) { forall k :: 0 <= k < |p.areas| ==> p.areas[k].allowed == [] }

  /** A failed allocation leaves the pool, and without growth no list offers an id. */
  lemma AllocateFails(p: Pool, o: Options)
    requires |p.areas| >= 1 && Allocate(p, o).0.None?
    ensures !o.mayExtend ==> Allocate(p, o).1 == p && NoneAllowed(p)
  {
    hide Take, Supply;
    TakeSupply(p, o.encourageReuse);
    TakeNone(p, o.encourageReuse);
  }

  lemma OthersKept(p: Pool, e: Event, o: Options)
    requires |p.areas| >= 1
    ensures !e.Releasing? ==> Kept(p, e, o)
  {
  }

  lemma StepIs(p: Pool, e: Event, o: Options)
    requires |p.areas| >= 1
    ensures Step(p, e, o) == match e
      case Starting => (None, Start(p))
      case Advancing => (None, Next(p))
      case Ending => (None, End(p))
      case Allocating => Allocate(p, o)
      case Releasing(q) => (None, Release(p, q, o))
      case Disabling(q) => (None, Disable(p, q))
  {
    hide Start, Next, End, Allocate, Release, Disable;
  }

  class QubitManagerRestrictedReuse {
    var status: array<int>
    /** The stack of areas, outermost first. */
    var areas: seq<AreaLists>
    /** The outermost area's allowed list, which also gets the new ids. */
    const freeQubitsFresh: QubitList
    const mayExtendCapacity: bool
    const encourageReuse: bool
    var allocatedQubitsCount: int
    var disabledQubitsCount: int
    var freeQubitsCount: int

    /** What the lists and the marks stand for. */
    ghost var pool: Pool

    ghost function Opts(): Options { Options(mayExtendCapacity, encourageReuse) }

    ghost function Lists(): set<object>
      reads this`areas
    {
      (set k | 0 <= k < |areas| :: areas[k].prohibited) + (set k | 0 <= k < |areas| :: areas[k].allowed)
    }

    /** The list objects are different and hold what the pool says, linked through the status array. */
    ghost predicate Linked()
      reads this, status, Lists()
    {
      && |pool.areas| == |areas| >= 1
      && Placed(areas) && areas[0].allowed == freeQubitsFresh
      && (forall k :: 0 <= k < |areas| ==> Holds(areas[k].prohibited, status[..], pool.areas[k].prohibited))
      && (forall k :: 0 <= k < |areas| ==> Holds(areas[k].allowed, status[..], pool.areas[k].allowed))
    }

    ghost predicate Valid()
      reads this, status, Lists()
    {
      && Linked()
      && Accounts(status[..], pool, encourageReuse, freeQubitsCount, allocatedQubitsCount, disabledQubitsCount)
    }

    constructor (qubitCapacity: int, mayExtendCapacity: bool, encourageReuse: bool)
      requires qubitCapacity <= NONE
      ensures Valid() && fresh(status) && fresh(Lists())
      ensures pool == Initial(if qubitCapacity <= 0 then MINIMUM_CAPACITY else qubitCapacity)
      ensures this.mayExtendCapacity == mayExtendCapacity && this.encourageReuse == encourageReuse
    {
      hide Proper, Content, Chain, Marked, FreeIds, Sequential;
      var n: nat := if qubitCapacity <= 0 then MINIMUM_CAPACITY else qubitCapacity;
      var a := new int[n];
      var freshQubits := new QubitList.Range(0, n - 1, a, 0, true);
      var none := new QubitList(0, false);
      status, freeQubitsFresh := a, freshQubits;
      areas := [AreaLists(none, freshQubits)];
      this.mayExtendCapacity, this.encourageReuse := mayExtendCapacity, encourageReuse;
      allocatedQubitsCount, disabledQubitsCount, freeQubitsCount := 0, 0, n;
      pool := Initial(n);
      new;
      SequentialProper(n);
      SequentialStatus(status[..]);
      FreeBelow(status[..]);
    }

    lemma AccountedIsProper()
      requires Valid()
      ensures Proper(pool) && status.Length <= NONE && pool.capacity == status.Length && |pool.areas| == |areas|
      ensures freeQubitsFresh in Lists()
      ensures forall q :: q in pool.inUse <==> 0 <= q < status.Length && status[q] == ALLOCATED
    {
    }

    lemma InnermostIds()
      requires Valid()
      ensures |areas| == |pool.areas| >= 1
      ensures areas[|areas| - 1].allowed.elems == pool.areas[|areas| - 1].allowed
    {
      hide Accounts;
    }

    // -------------------------------------------------------------- areas and segments

    method StartRestrictedReuseArea()
      requires Valid()
      modifies this
      ensures Valid() && fresh(Lists() - old(Lists())) && status == old(status)
      ensures pool == Start(old(pool))
    {
      hide Accounts, Content, Proper, NoDuplicates, QubitList.Valid;
      var p := new QubitList(|areas|, false);
      var q := new QubitList(|areas|, true);
      StartKeeps(pool);
      AccountsMoved(status[..], status[..], pool, Start(pool), encourageReuse,
                    freeQubitsCount, allocatedQubitsCount, disabledQubitsCount);
      areas := areas + [AreaLists(p, q)];
      pool := Start(pool);
    }

    /** A new segment: everything free in the current area becomes prohibited. False without an active area. */
    method NextRestrictedReuseSegment() returns (ok: bool)
      requires Valid()
      modifies this, status, Lists()
      ensures Valid() && areas == old(areas) && status == old(status)
      ensures pool == Next(old(pool)) && ok == (|old(areas)| > 1)
    {
      hide Accounts, Content, Proper, NoDuplicates, Holds;
      if |areas| <= 1 {
        return false;
      }
      var k := |areas| - 1;
      ghost var before, p := status[..], pool;
      AccountedIsProper();
      NextKeeps(pool);
      BarSegment(areas[k], p, k, status);
      pool := Next(pool);
      AccountsMoved(before, status[..], p, pool, encourageReuse,
                    freeQubitsCount, allocatedQubitsCount, disabledQubitsCount);
      Reframe(areas, before, status[..], p, k, k);
      ok := true;
    }

    /** The end of an area: what was free in it may be reused in the containing area. False without an active area. */
    method EndRestrictedReuseArea() returns (ok: bool)
      requires Valid()
      modifies this, status, Lists()
      ensures Valid() && Lists() <= old(Lists()) && status == old(status)
      ensures pool == End(old(pool)) && ok == (|old(areas)| >= 2)
    {
      hide Accounts, Content, Proper, NoDuplicates, Holds;
      if |areas| < 2 {
        return false;
      }
      var k := |areas| - 1;
      ghost var before, p := status[..], pool;
      AccountedIsProper();
      var areaAboutToEnd, containing := areas[k], areas[k - 1];
      areas := areas[..k];
      MergeArea(containing.allowed, areaAboutToEnd, p, k, status);
      pool := End(pool);
      AccountsEnded(before, status[..], p, encourageReuse, freeQubitsCount, allocatedQubitsCount, disabledQubitsCount);
      Reframe(areas, before, status[..], p, k, k - 1);
      ok := true;
    }

    // -------------------------------------------------------------- allocation

    /** Takes an id from the lists, or NONE; the caller marks it. */
    method AllocateQubit() returns (id: int)
      requires Valid()
      modifies this`pool, Lists()
      ensures Linked() && pool == old(pool).(areas := Take(old(pool), encourageReuse).1.areas)
      ensures id == match Take(old(pool), encourageReuse).0 case None => NONE case Some(q) => q
      ensures id != NONE ==> 0 <= id < status.Length
    {
      hide Accounts, Content, Proper, Linked, Take;
      AccountedIsProper();
      TakeProper(pool, encourageReuse);
      if encourageReuse {
        id := FromInnermost();
      } else {
        id := FromOutermost();
      }
    }

    /** The search from the innermost area out. */
    method FromInnermost() returns (id: int)
      requires Linked() && |areas| == |pool.areas| && status.Length <= NONE
      modifies this`pool, Lists()
      ensures Linked() && pool == old(pool).(areas := Take(old(pool), true).1.areas)
      ensures id == match Take(old(pool), true).0 case None => NONE case Some(q) => q
    {
      hide Linked, Source;
      var i := |areas| - 1;
      while i >= 0
        invariant -1 <= i < |areas| && Linked() && pool == old(pool)
        invariant forall k :: i < k < |areas| ==> pool.areas[k].allowed == []
      {
        id := TakeFrom(i);
        if id != NONE {
          return;
        }
        i := i - 1;
      }
      id := NONE;
    }

    /** The search from the outermost area in. */
    method FromOutermost() returns (id: int)
      requires Linked() && |areas| == |pool.areas| && status.Length <= NONE
      modifies this`pool, Lists()
      ensures Linked() && pool == old(pool).(areas := Take(old(pool), false).1.areas)
      ensures id == match Take(old(pool), false).0 case None => NONE case Some(q) => q
    {
      hide Linked, Source;
      var i := 0;
      while i < |areas|
        invariant 0 <= i <= |areas| && Linked() && pool == old(pool)
        invariant forall k :: 0 <= k < i ==> pool.areas[k].allowed == []
      {
        id := TakeFrom(i);
        if id != NONE {
          return;
        }
        i := i + 1;
      }
      id := NONE;
    }

    /** Takes the first id of one area's allowed list. */
    method TakeFrom(k: nat) returns (id: int)
      requires Linked() && k < |areas| && status.Length <= NONE
      modifies this`pool, Lists()
      ensures Linked()
      ensures if old(pool).areas[k].allowed == [] then id == NONE && pool == old(pool)
              else id == old(pool).areas[k].allowed[0] && id != NONE
                   && pool == old(pool).(areas :=
                        old(pool).areas[k := old(pool).areas[k].(allowed := old(pool).areas[k].allowed[1..])])
    {
      hide Chain;
      ghost var had := areas[k].allowed.elems;
      LinksNonNegative(status[..], NONE, had);
      assert had != [] ==> had[0] in had;
      areas[k].allowed.ValidInRange(status[..]);
      id := areas[k].allowed.TakeQubitFromFront(status);
      if had != [] {
        pool := pool.(areas := pool.areas[k := pool.areas[k].(allowed := had[1..])]);
      }
    }

    /** Marks an id that is in no list. */
    method Mark(id: nat, mark: int)
      requires Linked() && id < status.Length && id !in Content(pool.areas)
      modifies status
      ensures Linked() && status[..] == old(status[..])[id := mark]
    {
      hide Content, Holds;
      ghost var before := status[..];
      status[id] := mark;
      ReframeOne(areas, before, status[..], pool, id);
    }

    /** More capacity: a larger array whose new ids go to the front of the outermost area's allowed list. */
    method EnsureCapacity(requestedCapacity: int)
      requires Valid() && requestedCapacity <= NONE
      modifies this, freeQubitsFresh
      ensures Valid() && areas == old(areas) && (status == old(status) || fresh(status))
      ensures pool == Grow(old(pool), if requestedCapacity < 0 then 0 else requestedCapacity)
    {
      hide Accounts, Content, Proper, Holds, Sequential, QubitList.Valid;
      AccountedIsProper();
      var n := status.Length;
      if requestedCapacity <= n {
        return;
      }
      var newStatusArray := CopyOf(status, requestedCapacity);
      var newFreeItems := new QubitList.Range(n, requestedCapacity - 1, newStatusArray, |areas|, true);
      Adopt(newStatusArray, newFreeItems);
    }

    /** Takes over a larger array that begins like the old one, with the list of its new ids. */
    method Adopt(newStatusArray: array<int>, newFreeItems: QubitList)
      requires Valid() && status.Length < newStatusArray.Length <= NONE && newStatusArray != status
      requires newFreeItems !in Lists() && newFreeItems.Valid(newStatusArray[..])
      requires newFreeItems.elems == Sequential(status.Length, newStatusArray.Length)
      requires forall i :: 0 <= i < status.Length ==> newStatusArray[i] == status[i]
      requires forall i :: status.Length <= i < newStatusArray.Length ==> newStatusArray[i] >= 0
      modifies this, freeQubitsFresh, newFreeItems, newStatusArray
      ensures Valid() && areas == old(areas) && status == newStatusArray
      ensures pool == Grow(old(pool), newStatusArray.Length)
    {
      hide Accounts, Content, Proper, Holds, Sequential, QubitList.Valid;
      AccountedIsProper();
      ghost var before, p, n := status[..], pool, newStatusArray.Length - status.Length;
      freeQubitsCount := freeQubitsCount + newStatusArray.Length - status.Length;
      status := newStatusArray;
      TakeIn(freeQubitsFresh, newFreeItems, p, before, status);
      pool := Grow(pool, status.Length);
      AccountsGrown(before, status[..], p, encourageReuse, freeQubitsCount - n, allocatedQubitsCount,
                    disabledQubitsCount);
      ReframeOuter(areas, before, status[..], p);
    }

    /**
     Allocates a qubit, doubling the capacity once if that is allowed and
     no list offers an id; None without an id.
     */
    method Allocate() returns (r: Option<nat>)
      requires Valid()
      modifies this, status, Lists()
      ensures Valid() && areas == old(areas) && (status == old(status) || fresh(status))
      ensures (r, pool) == ReusePool.Allocate(old(pool), Opts())
      ensures r.Some? <==>
        || Supply(old(pool).areas) > 0
        || (mayExtendCapacity && 0 < old(status.Length) && 2 * old(status.Length) <= LARGEST)
      ensures status.Length ==
        if r.None? || Supply(old(pool).areas) > 0 then old(status.Length) else 2 * old(status.Length)
    {
      hide Accounts, Content, Proper, Linked, Take, Supply, Room;
      AccountedIsProper();
      AtLeastOneArea();
      TakeProper(pool, encourageReuse);
      AllocateIff(pool, Opts());
      ghost var p := pool;
      var id := AllocateQubit();
      if id == NONE && mayExtendCapacity {
        TakeNone(p, encourageReuse);
        EnsureCapacity(Wrapped(2 * status.Length));
        AccountedIsProper();
        TakeProper(pool, encourageReuse);
        p := pool;
        id := AllocateQubit();
      }
      if id == NONE {
        TakeNone(p, encourageReuse);
        AccountedIsProper();
        return None;
      }
      ChangeStatusToAllocated(id, p);
      AccountedIsProper();
      r := Some(id);
    }

    method ChangeStatusToAllocated(id: nat, ghost p: Pool)
      requires Linked()
      requires Accounts(status[..], p, encourageReuse, freeQubitsCount, allocatedQubitsCount, disabledQubitsCount)
      requires Take(p, encourageReuse).0 == Some(id) && pool == p.(areas := Take(p, encourageReuse).1.areas)
      modifies status, this`allocatedQubitsCount, this`freeQubitsCount, this`pool
      ensures Valid() && pool == Take(p, encourageReuse).1
    {
      hide Content, Proper, Holds, Take;
      ghost var before := status[..];
      ghost var p2 := Take(p, encourageReuse).1;
      TakeKeeps(p, encourageReuse);
      Mark(id, ALLOCATED);
      pool := p2;
      allocatedQubitsCount := allocatedQubitsCount + 1;
      freeQubitsCount := freeQubitsCount - 1;
      AccountsTaken(before, p, p2, id, encourageReuse, freeQubitsCount + 1, allocatedQubitsCount - 1,
                    disabledQubitsCount);
    }

    /**
     Releases an id; false for one that does not exist or is neither in use nor disabled. With reuse discouraged and a
     fixed capacity the id goes to the back, which keeps the lists exactly while that list is empty.
     */
    method Release(id: nat) returns (ok: bool)
      requires Valid()
      modifies this, status, Lists()
      ensures areas == old(areas) && status == old(status)
      ensures ok <==> id < status.Length && (old(status[..])[id] == ALLOCATED || old(status[..])[id] == DISABLED)
      ensures |old(pool).areas| >= 1 && (Valid() <==> Kept(old(pool), Releasing(id), Opts()))
      ensures var l := old(areas)[|old(areas)| - 1].allowed;
        if Kept(old(pool), Releasing(id), Opts()) then pool == ReusePool.Release(old(pool), id, Opts())
        else ReleasedBack(old(l.Raw(status[..])), id, l.Raw(status[..])) && Lost(l.Raw(status[..]))
    {
      hide Accounts, Content, Proper, Holds, Lost;
      AccountedIsProper();
      InnermostIds();
      if id >= status.Length {
        return false;
      }
      if status[id] == DISABLED {
        return true;
      }
      if status[id] != ALLOCATED {
        return false;
      }
      ReleaseInUse(id);
      if Valid() {
        ValidIsNotLost();
      }
      ok := true;
    }

    /** No list of a valid manager is lost. */
    lemma ValidIsNotLost()
      requires Valid()
      ensures areas != [] && !Lost(areas[|areas| - 1].allowed.Raw(status[..]))
    {
      hide Accounts, Chain;
      assert Holds(areas[|areas| - 1].allowed, status[..], pool.areas[|areas| - 1].allowed);
    }

    /** Releases an id in use. */
    method ReleaseInUse(id: nat)
      requires Valid() && id < status.Length && id in pool.inUse
      modifies this, status, Lists()
      ensures areas == old(areas) && status == old(status)
      ensures var l := old(areas)[|old(areas)| - 1].allowed;
        if encourageReuse || mayExtendCapacity || old(l.elems) == []
        then Valid() && pool == ReusePool.Release(old(pool), id, Opts())
        else ReleasedBack(old(l.Raw(status[..])), id, l.Raw(status[..])) && Lost(l.Raw(status[..]))
    {
      hide Accounts, Content, Proper, Holds, ReusePool.Release, ReleasedBack;
      AtLeastOneArea();
      if mayExtendCapacity && !encourageReuse {
        ReleaseUnlisted(id);
      } else {
        ReleaseQubit(id);
      }
      freeQubitsCount := freeQubitsCount + 1;
      allocatedQubitsCount := allocatedQubitsCount - 1;
    }

    /** Marks an id as free, in no list. */
    method ReleaseUnlisted(id: nat)
      requires Valid() && id < status.Length && id in pool.inUse && Opts().NeverReuses()
      modifies this`pool, status
      ensures pool == ReusePool.Release(old(pool), id, Opts()) && Linked()
      ensures Accounts(status[..], pool, encourageReuse,
                       freeQubitsCount + 1, allocatedQubitsCount - 1, disabledQubitsCount)
    {
      hide Accounts, Content, Proper, Holds;
      AccountedIsProper();
      UsedInNoList(pool, id);
      ghost var before, p := status[..], pool;
      ghost var p2 := ReusePool.Release(p, id, Opts());
      ReleaseKeeps(p, id, Opts());
      Mark(id, NONE);
      AccountsReleased(before, p, p2, id, NONE, encourageReuse,
                       freeQubitsCount, allocatedQubitsCount, disabledQubitsCount);
      pool := p2;
    }

    /** Adds an id to the innermost area's allowed list. */
    method ReleaseQubit(id: nat)
      requires Valid() && id < status.Length && id in pool.inUse && (encourageReuse || !mayExtendCapacity)
      modifies this`pool, status, Lists()
      ensures var l := old(areas)[|old(areas)| - 1].allowed;
        if encourageReuse || old(l.elems) == []
        then pool == ReusePool.Release(old(pool), id, Opts()) && Linked()
          && Accounts(status[..], pool, encourageReuse,
                      freeQubitsCount + 1, allocatedQubitsCount - 1, disabledQubitsCount)
        else ReleasedBack(old(l.Raw(status[..])), id, l.Raw(status[..])) && Lost(l.Raw(status[..]))
    {
      hide Accounts, Content, Proper, Holds;
      AccountedIsProper();
      ReleaseKeeps(pool, id, Opts());
      InnermostIds();
      ghost var before, p := status[..], pool;
      ghost var p2 := ReusePool.Release(p, id, Opts());
      var k := |areas| - 1;
      var v := AddTo(areas[k].allowed, id, encourageReuse, p, k, status);
      if encourageReuse || p.areas[k].allowed == [] {
        AccountsReleased(before, p, p2, id, v, encourageReuse, freeQubitsCount,
                         allocatedQubitsCount, disabledQubitsCount);
        ReframeOthers(areas, before, status[..], p, id, k);
        pool := p2;
      }
    }

    /** Disables an id in use for good; false for any other. */
    method Disable(id: nat) returns (ok: bool)
      requires Valid()
      modifies this, status
      ensures Valid() && areas == old(areas) && status == old(status)
      ensures pool == ReusePool.Disable(old(pool), id) && ok == (id in old(pool).inUse)
    {
      hide Accounts, Content, Proper, Holds;
      AccountedIsProper();
      if id >= status.Length || status[id] != ALLOCATED {
        return false;
      }
      UsedInNoList(pool, id);
      AccountsDisabled(status[..], pool, id, encourageReuse, freeQubitsCount, allocatedQubitsCount,
                       disabledQubitsCount);
      Mark(id, DISABLED);
      disabledQubitsCount := disabledQubitsCount + 1;
      allocatedQubitsCount := allocatedQubitsCount - 1;
      pool := ReusePool.Disable(pool, id);
      ok := true;
    }

    /**
     Allocates several qubits at once. When the lists run out and the capacity cannot grow, the qubits already
     taken are released again: no more ids are in use, and unless ids are never reused the same ids are in the lists.
     With reuse discouraged and a fixed capacity that must not be more than one, as the second would break the list.
     */
    method AllocateMany(numToAllocate: nat) returns (r: Option<seq<nat>>)
      requires Valid()
      requires encourageReuse || mayExtendCapacity || numToAllocate <= Supply(pool.areas) || Supply(pool.areas) <= 1
      modifies this, status, Lists()
      ensures Valid() && areas == old(areas) && (status == old(status) || fresh(status))
      ensures r.Some? ==>
        && |r.value| == numToAllocate && NoDuplicates(r.value)
        && (forall q :: q in r.value ==>
             q !in old(pool).inUse && (q in Content(old(pool).areas) || q >= old(pool).capacity))
        && pool.inUse == old(pool).inUse + (set q | q in r.value)
      ensures r.None? ==> pool.inUse == old(pool).inUse && (!Opts().NeverReuses() ==> SameContent(old(pool), pool))
      ensures r.Some? <==> numToAllocate <= Room(old(pool), Opts())
    {
      hide Accounts, Content, Proper, Linked, ReusePool.Allocate, ReusePool.Release, QubitList.Valid, Split, Supply;
      var ids: seq<nat> := [];
      SplitStart(pool);
      AccountedIsProper();
      while |ids| < numToAllocate
        invariant |ids| <= numToAllocate && (status == old(status) || fresh(status))
        invariant Valid() && areas == old(areas)
        invariant Split(old(pool), pool, ids)
        invariant Room(pool, Opts()) + |ids| == Room(old(pool), Opts())
      {
        AccountedIsProper();
        SplitTake(old(pool), pool, ids, Opts());
        AtLeastOneArea();
        AllocateIff(pool, Opts());
        ghost var p := pool;
        var next := Allocate();
        AccountedIsProper();
        if next.None? {
          r := None;
          AllocateFails(p, Opts());
          ReleaseAll(ids, old(pool));
          return;
        }
        ids := ids + [next.value];
      }
      AccountedIsProper();
      SplitIds(old(pool), pool, ids);
      r := Some(ids);
    }

    /** Releases ids in use. */
    method ReleaseAll(ids: seq<nat>, ghost p: Pool)
      requires Valid() && Split(p, pool, ids)
      requires encourageReuse || mayExtendCapacity || ids == [] || (|ids| == 1 && NoneAllowed(pool))
      modifies this, status, Lists()
      ensures Valid() && areas == old(areas) && status == old(status)
      ensures pool.inUse == p.inUse && (!Opts().NeverReuses() ==> SameContent(p, pool))
    {
      hide Accounts, Content, Proper, Linked, ReusePool.Release, QubitList.Valid, Undone, SameContent;
      UndoneNothing(p, pool, ids, Opts());
      assert ids[0..] == ids;
      for k := 0 to |ids|
        invariant Valid() && areas == old(areas) && status == old(status)
        invariant Undone(p, pool, ids[k..], Opts())
        invariant encourageReuse || mayExtendCapacity || k == |ids| || NoneAllowed(pool)
      {
        AccountedIsProper();
        AtLeastOneArea();
        UndoneRelease(p, pool, ids[k..], Opts());
        assert ids[k..][1..] == ids[k + 1..];
        var ok := Release(ids[k]);
      }
      assert ids[|ids|..] == [];
      UndoneAll(p, pool, Opts());
    }

    /** One event: the lists and the marks do what the pool does, exactly when the event does not break a list. */
    method Perform(e: Event) returns (r: Option<nat>)
      requires Valid()
      modifies this, status, Lists()
      ensures |old(pool).areas| >= 1 && (Valid() <==> Kept(old(pool), e, Opts()))
      ensures Kept(old(pool), e, Opts()) ==> (r, pool) == Step(old(pool), e, Opts())
      ensures (status == old(status) || fresh(status)) && fresh(Lists() - old(Lists()))
    {
      hide *;
      AtLeastOneArea();
      StepIs(pool, e, Opts());
      OthersKept(pool, e, Opts());
      r := None;
      match e {
        case Starting => StartRestrictedReuseArea();
        case Advancing => var ok := NextRestrictedReuseSegment();
        case Ending => var ok := EndRestrictedReuseArea();
        case Allocating => r := Allocate();
        case Releasing(q) => var ok := Release(q);
        case Disabling(q) => var ok := Disable(q);
      }
    }

    /** A whole run: what each event returns, and the ids issued. */
    method Run(events: seq<Event>) returns (results: seq<Option<nat>>, issued: seq<nat>)
      requires Valid() && |pool.areas| >= 1 && KeptRun(pool, events, Opts())
      modifies this, status, Lists()
      ensures Valid() && Proper(old(pool)) && |old(pool).areas| >= 1
      ensures pool == ReusePool.Run(old(pool), events, Opts()) && issued == Issued(old(pool), events, Opts())
      ensures results == Results(old(pool), events, Opts())
    {
      hide Proper, Step, QubitManagerRestrictedReuse.Valid, ReusePool.Run, Issued, Results, Ran, Kept, KeptRun;
      AtLeastOneArea();
      AccountedIsProper();
      ghost var p := pool;
      results, issued := [], [];
      RanNone(p, events, Opts());
      for i := 0 to |events|
        invariant Valid() && (status == old(status) || fresh(status)) && fresh(Lists() - old(Lists()))
        invariant Ran(p, events, i, Opts(), pool, issued, results)
      {
        AtLeastOneArea();
        KeptNext(p, events, i, Opts(), pool, issued, results);
        RanOneMore(p, events, i, Opts(), pool, issued, results);
        var q := Perform(events[i]);
        issued := if q.Some? then issued + [q.value] else issued;
        results := results + [q];
      }
      RanAll(p, events, Opts(), pool, issued, results);
    }

    lemma AtLeastOneArea()
      requires Valid()
      ensures |pool.areas| >= 1
    {
    }
  }

  /**
   A manager made and run, on events that break no list: no id released in a segment of an area is returned in a later
   segment before that area ends; with reuse discouraged and a growing capacity, the ids are 0, 1, 2, ...
   */
  method RunManager(qubitCapacity: int, o: Options, events: seq<Event>)
    returns (m: QubitManagerRestrictedReuse, results: seq<Option<nat>>, issued: seq<nat>)
    requires qubitCapacity <= NONE
    requires KeptRun(Initial(if qubitCapacity <= 0 then MINIMUM_CAPACITY else qubitCapacity), events, o)
    ensures fresh(m) && m.Valid()
    ensures var p := Initial(if qubitCapacity <= 0 then MINIMUM_CAPACITY else qubitCapacity);
      && m.pool == ReusePool.Run(p, events, o) && issued == Issued(p, events, o)
      && results == Results(p, events, o) && SafeResults(p, events, o, results)
    ensures o.NeverReuses() ==> issued == Sequential(0, |issued|)
  {
    hide Proper, Step, Initial, QubitManagerRestrictedReuse.Valid, Issued, SafeResults, Results, ReusePool.Run,
         Sequential, KeptRun;
    m := new QubitManagerRestrictedReuse(qubitCapacity, o.mayExtend, o.encourageReuse);
    ghost var p := m.pool;
    m.AtLeastOneArea();
    results, issued := m.Run(events);
    ResultsSafe(p, events, o);
    if o.NeverReuses() {
      NeverReissued(if qubitCapacity <= 0 then MINIMUM_CAPACITY else qubitCapacity, events, o);
    }
  }

  lemma FreeBelow(a: seq<int>)
    requires forall i :: 0 <= i < |a| ==> a[i] >= 0
    ensures forall q :: q in FreeIds(a) <==> 0 <= q < |a|
  {
  }

  /** Changing links changes no marks. */
  lemma SameMarks(a: seq<int>, b: seq<int>)
    requires |a| == |b| && forall i :: 0 <= i < |a| ==> a[i] == b[i] || (a[i] >= 0 && b[i] >= 0)
    ensures FreeIds(a) == FreeIds(b)
    ensures Marked(a, ALLOCATED) == Marked(b, ALLOCATED) && Marked(a, DISABLED) == Marked(b, DISABLED)
  {
  }

  lemma SequentialProper(n: nat)
    requires n > 0
    ensures Proper(Initial(n))
    ensures forall i: nat :: i < n <==> i in Content([Area([], Sequential(0, n))])
  {
    var areas := [Area([], Sequential(0, n))];
    assert areas[..0] == [];
    forall q: nat ensures Content(areas)[q] == if q < n then 1 else 0 {
      SequentialIds(0, n, q);
    }
  }

  lemma SequentialStatus(a: seq<int>)
    requires forall i :: 0 <= i < |a| ==> a[i] >= 0
    ensures |FreeIds(a)| == |a| && Marked(a, ALLOCATED) == {} && Marked(a, DISABLED) == {}
  {
    if a != [] {
      var n := |a| - 1;
      SequentialStatus(a[..n]);
      assert FreeIds(a) == FreeIds(a[..n]) + {n};
    }
  }
}
