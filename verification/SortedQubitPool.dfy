/**
 The pool of qubits sorted by time: a binary search tree with a chain of ids at each time, searched with
 a comparer that harvests the neighbours of an absent sample.
 */
module SortedQubitPools {
  import opened ComplexTimes

  /** One node a time; the ids with that time are the node's own and those chained behind it. */
  datatype Tree = Leaf | Node(left: Tree, time: ComplexTime, id: int, chain: seq<int>, right: Tree)

  function Times(t: Tree): set<ComplexTime> {
    match t
    case Leaf => {}
    case Node(l, time, _, _, r) => Times(l) + {time} + Times(r)
  }

  ghost predicate Sorted(t: Tree) {
    match t
    case Leaf => true
    case Node(l, time, _, _, r) =>
      && time.Time? && Sorted(l) && Sorted(r)
      && (forall x :: x in Times(l) ==> Lt(x, time))
      && (forall x :: x in Times(r) ==> Lt(time, x))
  }

  function Pairs(ids: seq<int>, time: ComplexTime): multiset<(int, ComplexTime)> {
    if ids == [] then multiset{} else Pairs(ids[..|ids| - 1], time) + multiset{(ids[|ids| - 1], time)}
  }

  /** The ids with their times. */
  function Content(t: Tree): multiset<(int, ComplexTime)> {
    match t
    case Leaf => multiset{}
    case Node(l, time, id, chain, r) => Content(l) + multiset{(id, time)} + Pairs(chain, time) + Content(r)
  }

  lemma {:induction false} PairsAt(ids: seq<int>, time: ComplexTime, p: (int, ComplexTime))
    requires p in Pairs(ids, time)
    ensures p.1 == time && ids != []
  {
    var n := |ids| - 1;
    if p != (ids[n], time) {
      PairsAt(ids[..n], time, p);
    }
  }

  /** The times of the nodes are the times of the ids. */
  lemma {:induction false} TimesOfContent(t: Tree)
    ensures forall p :: p in Content(t) ==> p.1 in Times(t)
    ensures forall x :: x in Times(t) ==> exists p :: p in Content(t) && p.1 == x
  {
    match t
    case Leaf =>
    case Node(l, time, id, chain, r) =>
      TimesOfContent(l);
      TimesOfContent(r);
      forall p | p in Content(t) ensures p.1 in Times(t) {
        if p in Pairs(chain, time) {
          PairsAt(chain, time, p);
        }
      }
      forall x | x in Times(t) ensures exists p :: p in Content(t) && p.1 == x {
        TimeHasPair(t, x);
      }
  }

  lemma TimeHasPair(t: Tree, x: ComplexTime)
    requires t.Node? && x in Times(t)
    requires x in Times(t.left) ==> exists p :: p in Content(t.left) && p.1 == x
    requires x in Times(t.right) ==> exists p :: p in Content(t.right) && p.1 == x
    ensures exists p :: p in Content(t) && p.1 == x
  {
    hide Content;
    if x in Times(t.left) {
      var p :| p in Content(t.left) && p.1 == x;
      PairInNode(t, p);
    } else if x in Times(t.right) {
      var p :| p in Content(t.right) && p.1 == x;
      PairInNode(t, p);
    } else {
      PairInNode(t, (t.id, t.time));
    }
  }

  lemma PairInNode(t: Tree, p: (int, ComplexTime))
    requires t.Node? && (p in Content(t.left) || p in Content(t.right) || p == (t.id, t.time))
    ensures p in Content(t)
  {
  }

  // ---------------------------------------------------------------- the comparer

  class VisitingComparer {
    var maxLowerBound: ComplexTime
    var minUpperBound: ComplexTime

    constructor ()
    {
      maxLowerBound, minUpperBound := Least, Greatest;
    }

    method ResetForComparison()
      modifies this
      ensures maxLowerBound == Least && minUpperBound == Greatest
    {
      maxLowerBound, minUpperBound := Least, Greatest;
    }

    /** Compares the sample with the time of a node, and harvests the node's time. */
    method CompareSample(sample: ComplexTime, time: ComplexTime) returns (result: int)
      modifies this
      ensures result == Compare(sample, time)
      ensures maxLowerBound
        == (if result > 0 then Max(old(maxLowerBound), time) else if result == 0 then time else old(maxLowerBound))
      ensures minUpperBound
        == (if result < 0 then Min(old(minUpperBound), time) else if result == 0 then time else old(minUpperBound))
    {
      result := Compare(sample, time);
      if result > 0 {
        maxLowerBound := Max(maxLowerBound, time);
      } else if result < 0 {
        minUpperBound := Min(minUpperBound, time);
      } else {
        maxLowerBound := time;
        minUpperBound := time;
      }
    }
  }

  /** The greatest of `times` that is at most `sample`, or `Least`. */
  ghost predicate IsLowerBound(times: set<ComplexTime>, sample: ComplexTime, x: ComplexTime) {
    && (x == Least || (x in times && Le(x, sample)))
    && (forall y :: y in times && Le(y, sample) ==> Le(y, x))
  }

  /** The least of `times` that is at least `sample`, or `Greatest`. */
  ghost predicate IsUpperBound(times: set<ComplexTime>, sample: ComplexTime, x: ComplexTime) {
    && (x == Greatest || (x in times && Le(sample, x)))
    && (forall y :: y in times && Le(sample, y) ==> Le(x, y))
  }

  /** What is harvested bounds everything outside the subtree that is still to be searched. */
  ghost predicate Harvested(times: set<ComplexTime>, rest: set<ComplexTime>, sample: ComplexTime, lo: ComplexTime,
                            hi: ComplexTime) {
    && rest <= times
    && (lo == Least || (lo in times && Lt(lo, sample)))
    && (hi == Greatest || (hi in times && Lt(sample, hi)))
    && (forall y :: y in times ==> y in rest || Le(y, lo) || Le(hi, y))
    && (forall y :: y in rest ==> Lt(lo, y) && Lt(y, hi))
  }

  /** One comparison with the node at the top of the rest. */
  lemma HarvestStep(times: set<ComplexTime>, t: Tree, sample: ComplexTime, lo: ComplexTime, hi: ComplexTime)
    requires t.Node? && Sorted(t) && sample.Time? && Harvested(times, Times(t), sample, lo, hi) && sample != t.time
    ensures Lt(t.time, sample) ==> Max(lo, t.time) == t.time && Harvested(times, Times(t.right), sample, t.time, hi)
    ensures Lt(sample, t.time) ==> Min(hi, t.time) == t.time && Harvested(times, Times(t.left), sample, lo, t.time)
  {
    assert t.time in Times(t);
    forall y | y in times ensures
      && (y in Times(t) ==> Lt(lo, y) && Lt(y, hi))
      && (Lt(t.time, sample) ==> y in Times(t.right) || Le(y, t.time) || Le(hi, y))
      && (Lt(sample, t.time) ==> y in Times(t.left) || Le(y, lo) || Le(t.time, y))
    {
      TotalOrder(y, lo, t.time);
      TotalOrder(t.time, hi, y);
      TotalOrder(y, t.time, y);
    }
  }

  /** When nothing is left to search, the harvest is the neighbours of the sample. */
  lemma HarvestDone(times: set<ComplexTime>, sample: ComplexTime, lo: ComplexTime, hi: ComplexTime)
    requires Harvested(times, {}, sample, lo, hi) && sample.Time?
    ensures sample !in times && IsLowerBound(times, sample, lo) && IsUpperBound(times, sample, hi)
  {
    forall y | y in times ensures y != sample && (Le(y, sample) ==> Le(y, lo)) && (Le(sample, y) ==> Le(hi, y)) {
      TotalOrder(y, lo, sample);
      TotalOrder(sample, hi, y);
      TotalOrder(sample, y, lo);
      TotalOrder(hi, y, sample);
    }
  }

  lemma HarvestStart(t: Tree, sample: ComplexTime)
    requires Sorted(t)
    ensures Harvested(Times(t), Times(t), sample, Least, Greatest)
  {
    AllFinite(t);
  }

  lemma {:induction false} AllFinite(t: Tree)
    requires Sorted(t)
    ensures forall x :: x in Times(t) ==> x.Time?
  {
    if t.Node? {
      AllFinite(t.left);
      AllFinite(t.right);
    }
  }

  /** The node with a time. */
  function Find(t: Tree, time: ComplexTime): (r: Tree)
    ensures r.Node? ==> r.time == time
  {
    match t
    case Leaf => Leaf
    case Node(l, x, _, _, r) =>
      if time == x then t else if Lt(time, x) then Find(l, time) else Find(r, time)
  }

  lemma {:induction false} FindFinds(t: Tree, time: ComplexTime)
    requires Sorted(t)
    ensures Find(t, time).Node? <==> time in Times(t)
    ensures Find(t, time).Node? ==> (Find(t, time).id, time) in Content(t)
  {
    hide Content, Compare;
    match t
    case Leaf =>
    case Node(l, x, _, _, r) =>
      FindFinds(l, time);
      FindFinds(r, time);
      TotalOrder(time, x, time);
      if Find(t, time).Node? {
        PairInNode(t, (Find(t, time).id, time));
      }
  }

  /** A node for a new time, or a second place in the chain of a time that is there. */
  function Insert(t: Tree, id: int, time: ComplexTime): Tree {
    match t
    case Leaf => Node(Leaf, time, id, [], Leaf)
    case Node(l, x, own, chain, r) =>
      if time == x then Node(l, x, own, [id] + chain, r)
      else if Lt(time, x) then Node(Insert(l, id, time), x, own, chain, r)
      else Node(l, x, own, chain, Insert(r, id, time))
  }

  lemma {:induction false} PairsFront(id: int, ids: seq<int>, time: ComplexTime)
    ensures Pairs([id] + ids, time) == multiset{(id, time)} + Pairs(ids, time)
  {
    if ids == [] {
      assert [id] + ids == [id];
      assert Pairs([id][..0], time) == multiset{};
    } else {
      var n := |ids| - 1;
      PairsFront(id, ids[..n], time);
      assert ([id] + ids)[..n + 1] == [id] + ids[..n];
    }
  }

  lemma {:induction false} InsertAdds(t: Tree, id: int, time: ComplexTime)
    requires Sorted(t) && time.Time?
    ensures Sorted(Insert(t, id, time)) && Times(Insert(t, id, time)) == Times(t) + {time}
  {
    hide Compare;
    match t
    case Leaf =>
    case Node(l, x, own, chain, r) =>
      TotalOrder(time, x, time);
      if time != x {
        if Lt(time, x) {
          InsertAdds(l, id, time);
        } else {
          InsertAdds(r, id, time);
        }
      }
  }

  function NodeContent(t: Tree): multiset<(int, ComplexTime)>
    requires t.Node?
  {
    multiset{(t.id, t.time)} + Pairs(t.chain, t.time)
  }

  /** The content of a node, from its parts. */
  function Joined(l: multiset<(int, ComplexTime)>, own: multiset<(int, ComplexTime)>, r: multiset<(int, ComplexTime)>)
    : multiset<(int, ComplexTime)>
  {
    l + own + r
  }

  lemma JoinedMore(l: multiset<(int, ComplexTime)>, own: multiset<(int, ComplexTime)>, r: multiset<(int, ComplexTime)>,
                   more: multiset<(int, ComplexTime)>)
    ensures Joined(l + more, own, r) == Joined(l, own, r) + more
    ensures Joined(l, own + more, r) == Joined(l, own, r) + more
    ensures Joined(l, own, r + more) == Joined(l, own, r) + more
    ensures Joined(l, own, multiset{}) == l + own && Joined(multiset{}, own, r) == r + own
  {
  }

  lemma ContentOf(t: Tree)
    requires t.Node?
    ensures Content(t) == Joined(Content(t.left), NodeContent(t), Content(t.right))
  {
    hide Pairs;
  }

  lemma {:induction false} InsertContent(t: Tree, id: int, time: ComplexTime)
    ensures Content(Insert(t, id, time)) == Content(t) + multiset{(id, time)}
  {
    hide Lt, Content, Joined;
    var u := Insert(t, id, time);
    ContentOf(u);
    if t.Leaf? {
      EmptyContent();
      JoinedMore(multiset{}, NodeContent(u), multiset{}, multiset{});
    } else {
      ContentOf(t);
      JoinedMore(Content(t.left), NodeContent(t), Content(t.right), multiset{(id, time)});
      if time == t.time {
        PairsFront(id, t.chain, time);
        assert NodeContent(u) == NodeContent(t) + multiset{(id, time)};
      } else if Lt(time, t.time) {
        InsertContent(t.left, id, time);
      } else {
        InsertContent(t.right, id, time);
      }
    }
  }

  lemma EmptyContent()
    ensures Content(Leaf) == multiset{}
    ensures forall time :: Pairs([], time) == multiset{}
  {
  }

  /** The greatest node of a tree, and the tree without it. */
  function TakeGreatest(t: Tree): (r: (Tree, Tree))
    requires t.Node?
    ensures r.0.Node?
  {
    if t.right.Leaf? then (t, t.left)
    else
      var (g, rest) := TakeGreatest(t.right);
      (g, t.(right := rest))
  }

  lemma {:induction false} TakeGreatestTakes(t: Tree)
    requires t.Node? && Sorted(t)
    ensures var (g, rest) := TakeGreatest(t);
      && Sorted(rest) && g.time.Time? && Times(t) == Times(rest) + {g.time}
      && (forall x :: x in Times(rest) ==> Lt(x, g.time))
  {
    hide Compare;
    if t.right.Node? {
      TakeGreatestTakes(t.right);
      var (g, rest) := TakeGreatest(t.right);
      assert g.time in Times(t.right);
      forall x | x in Times(t.left) + {t.time} ensures Lt(x, g.time) {
        TotalOrder(x, t.time, g.time);
        TotalOrder(g.time, x, t.time);
      }
    }
  }

  lemma {:induction false} TakeGreatestContent(t: Tree)
    requires t.Node?
    ensures var (g, rest) := TakeGreatest(t); Content(t) == Content(rest) + NodeContent(g)
  {
    hide Content, Joined, NodeContent;
    ContentOf(t);
    EmptyContent();
    if t.right.Leaf? {
      JoinedMore(Content(t.left), NodeContent(t), multiset{}, multiset{});
    } else {
      TakeGreatestContent(t.right);
      var (g, rest) := TakeGreatest(t.right);
      ContentOf(t.(right := rest));
      SameNode(t, t.(right := rest));
      JoinedMore(Content(t.left), NodeContent(t), Content(rest), NodeContent(g));
    }
  }

  lemma SameNode(t: Tree, u: Tree)
    requires t.Node? && u.Node? && t.id == u.id && t.time == u.time && t.chain == u.chain
    ensures NodeContent(t) == NodeContent(u)
  {
  }

  /** The tree without the node of a time. */
  function Delete(t: Tree, time: ComplexTime): Tree {
    match t
    case Leaf => Leaf
    case Node(l, x, own, chain, r) =>
      if time == x then
        if l.Leaf? then r
        else
          var (g, rest) := TakeGreatest(l);
          Node(rest, g.time, g.id, g.chain, r)
      else if Lt(time, x) then t.(left := Delete(l, time))
      else t.(right := Delete(r, time))
  }

  lemma {:induction false} DeleteDeletes(t: Tree, time: ComplexTime)
    requires Sorted(t) && Find(t, time).Node?
    ensures Sorted(Delete(t, time)) && Times(Delete(t, time)) <= Times(t)
  {
    hide Compare;
    TotalOrder(time, t.time, time);
    if time == t.time {
      if t.left.Node? {
        TakeGreatestTakes(t.left);
        var (g, rest) := TakeGreatest(t.left);
        assert g.time in Times(t.left);
        forall x | x in Times(t.right) ensures Lt(g.time, x) {
          TotalOrder(g.time, t.time, x);
          TotalOrder(x, g.time, t.time);
        }
      }
    } else if Lt(time, t.time) {
      DeleteDeletes(t.left, time);
    } else {
      DeleteDeletes(t.right, time);
    }
  }

  lemma {:induction false} DeleteContent(t: Tree, time: ComplexTime)
    requires Find(t, time).Node?
    ensures Content(t) == Content(Delete(t, time)) + NodeContent(Find(t, time))
  {
    hide Content, Joined, NodeContent, Lt;
    ContentOf(t);
    EmptyContent();
    var n := NodeContent(Find(t, time));
    var u := Delete(t, time);
    if time == t.time {
      if t.left.Leaf? {
        JoinedMore(multiset{}, n, Content(t.right), multiset{});
      } else {
        TakeGreatestContent(t.left);
        var (g, rest) := TakeGreatest(t.left);
        ContentOf(u);
        SameNode(u, g);
        JoinedSwap(Content(rest), NodeContent(g), n, Content(t.right));
      }
    } else if Lt(time, t.time) {
      DeleteContent(t.left, time);
      ContentOf(u);
      SameNode(t, u);
      JoinedMore(Content(u.left), NodeContent(t), Content(t.right), n);
    } else {
      DeleteContent(t.right, time);
      ContentOf(u);
      SameNode(t, u);
      JoinedMore(Content(t.left), NodeContent(t), Content(u.right), n);
    }
  }

  lemma JoinedSwap(l: multiset<(int, ComplexTime)>, g: multiset<(int, ComplexTime)>, n: multiset<(int, ComplexTime)>,
                   r: multiset<(int, ComplexTime)>)
    ensures Joined(l + g, n, r) == Joined(l, g, r) + n
  {
  }

  /** The chain behind a node, without its first id. */
  function Unchain(t: Tree, time: ComplexTime): Tree {
    match t
    case Leaf => Leaf
    case Node(l, x, own, chain, r) =>
      if time == x then (if chain == [] then t else t.(chain := chain[1..]))
      else if Lt(time, x) then t.(left := Unchain(l, time))
      else t.(right := Unchain(r, time))
  }

  lemma {:induction false} UnchainTakes(t: Tree, time: ComplexTime)
    requires Sorted(t) && Find(t, time).Node?
    ensures Sorted(Unchain(t, time)) && Times(Unchain(t, time)) == Times(t)
  {
    hide Compare;
    if time != t.time {
      if Lt(time, t.time) {
        UnchainTakes(t.left, time);
      } else {
        UnchainTakes(t.right, time);
      }
    }
  }

  lemma {:induction false} UnchainContent(t: Tree, time: ComplexTime)
    requires Find(t, time).Node? && Find(t, time).chain != []
    ensures Content(t) == Content(Unchain(t, time)) + multiset{(Find(t, time).chain[0], time)}
  {
    hide Content, Joined, Lt, NodeContent;
    var u, p := Unchain(t, time), multiset{(Find(t, time).chain[0], time)};
    ContentOf(t);
    ContentOf(u);
    JoinedMore(Content(u.left), NodeContent(u), Content(u.right), p);
    if time == t.time {
      UnchainNode(t);
    } else if Lt(time, t.time) {
      UnchainContent(t.left, time);
      SameNode(t, u);
    } else {
      UnchainContent(t.right, time);
      SameNode(t, u);
    }
  }

  lemma UnchainNode(t: Tree)
    requires t.Node? && t.chain != []
    ensures NodeContent(t) == NodeContent(t.(chain := t.chain[1..])) + multiset{(t.chain[0], t.time)}
  {
    hide Pairs;
    PairsFront(t.chain[0], t.chain[1..], t.time);
    assert [t.chain[0]] + t.chain[1..] == t.chain;
  }

  // ---------------------------------------------------------------- the pool

  class SortedQubitPool {
    var qubitsSortedByTime: Tree
    const nodeComparer: VisitingComparer

    ghost predicate Valid()
      reads this
    {
      Sorted(qubitsSortedByTime)
    }

    ghost function Contents(): multiset<(int, ComplexTime)>
      reads this
    {
      Content(qubitsSortedByTime)
    }

    constructor ()
      ensures Valid() && Contents() == multiset{} && fresh(nodeComparer)
    {
      qubitsSortedByTime := Leaf;
      nodeComparer := new VisitingComparer();
    }

    method Add(qubitId: int, time: ComplexTime)
      requires Valid() && time.Time?
      modifies this
      ensures Valid() && Contents() == old(Contents()) + multiset{(qubitId, time)}
    {
      hide Sorted, Content, Insert;
      InsertAdds(qubitsSortedByTime, qubitId, time);
      InsertContent(qubitsSortedByTime, qubitId, time);
      qubitsSortedByTime := Insert(qubitsSortedByTime, qubitId, time);
    }

    /** The search for a sample, one comparison at each node; it leaves the neighbours in the comparer. */
    method TryGetValue(sample: ComplexTime) returns (found: bool)
      requires Valid() && sample.Time? && nodeComparer.maxLowerBound == Least && nodeComparer.minUpperBound == Greatest
      modifies nodeComparer
      ensures found <==> sample in Times(qubitsSortedByTime)
      ensures IsLowerBound(Times(qubitsSortedByTime), sample, nodeComparer.maxLowerBound)
      ensures IsUpperBound(Times(qubitsSortedByTime), sample, nodeComparer.minUpperBound)
    {
      hide Compare, IsLowerBound, IsUpperBound, Harvested;
      ghost var times := Times(qubitsSortedByTime);
      var current := qubitsSortedByTime;
      HarvestStart(current, sample);
      while current.Node?
        invariant Sorted(current)
        invariant Harvested(times, Times(current), sample, nodeComparer.maxLowerBound, nodeComparer.minUpperBound)
        decreases current
      {
        TotalOrder(sample, current.time, sample);
        ghost var lo, hi := nodeComparer.maxLowerBound, nodeComparer.minUpperBound;
        var order := nodeComparer.CompareSample(sample, current.time);
        if order == 0 {
          FoundBounds(times, Times(current), sample, lo, hi);
          return true;
        }
        HarvestStep(times, current, sample, lo, hi);
        current := if order < 0 then current.left else current.right;
      }
      HarvestDone(times, sample, nodeComparer.maxLowerBound, nodeComparer.minUpperBound);
      found := false;
    }

    /** The greatest time at most the request, or the least at least it; whether there is one. */
    method FindBound(requestedTime: ComplexTime, getLowerBound: bool) returns (found: bool, actualTime: ComplexTime)
      requires Valid() && requestedTime.Time?
      modifies nodeComparer
      ensures var times := Times(qubitsSortedByTime);
        if getLowerBound then IsLowerBound(times, requestedTime, actualTime) && found == (actualTime != Least)
        else IsUpperBound(times, requestedTime, actualTime) && found == (actualTime != Greatest)
    {
      nodeComparer.ResetForComparison();
      var there := TryGetValue(requestedTime);
      if there {
        BoundsAtSample(Times(qubitsSortedByTime), requestedTime);
        return true, requestedTime;
      }
      actualTime := if getLowerBound then nodeComparer.maxLowerBound else nodeComparer.minUpperBound;
      found := if getLowerBound then actualTime != Least else actualTime != Greatest;
    }

    /** Removes one id with the time given and returns it. */
    method Remove(time: ComplexTime) returns (id: int)
      requires Valid() && time in Times(qubitsSortedByTime)
      modifies this
      ensures Valid() && (id, time) in old(Contents()) && Contents() == old(Contents()) - multiset{(id, time)}
    {
      hide Sorted, Content, Delete, Unchain, Find, Times;
      FindFinds(qubitsSortedByTime, time);
      var node := Find(qubitsSortedByTime, time);
      if node.chain == [] {
        DeleteDeletes(qubitsSortedByTime, time);
        DeleteContent(qubitsSortedByTime, time);
        EmptyContent();
        qubitsSortedByTime := Delete(qubitsSortedByTime, time);
        return node.id;
      }
      UnchainTakes(qubitsSortedByTime, time);
      UnchainContent(qubitsSortedByTime, time);
      qubitsSortedByTime := Unchain(qubitsSortedByTime, time);
      id := node.chain[0];
    }
  }

  lemma FoundBounds(times: set<ComplexTime>, rest: set<ComplexTime>, sample: ComplexTime, lo: ComplexTime,
                    hi: ComplexTime)
    requires Harvested(times, rest, sample, lo, hi) && sample in rest
    ensures sample in times && IsLowerBound(times, sample, sample) && IsUpperBound(times, sample, sample)
  {
    TotalOrder(sample, sample, sample);
  }

  lemma BoundsAtSample(times: set<ComplexTime>, sample: ComplexTime)
    requires sample in times && sample.Time?
    ensures IsLowerBound(times, sample, sample) && IsUpperBound(times, sample, sample)
  {
    TotalOrder(sample, sample, sample);
  }
}
