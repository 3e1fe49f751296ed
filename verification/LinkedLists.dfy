/** Singly linked lists of ids threaded through a status array; `none`, no index, ends every list. */
module LinkedLists {
  import opened Sequences

  /** What element `i` of a list links to. */
  function LinkOf(none: int, s: seq<nat>, i: int): int
    requires 0 <= i < |s|
  {
    if i + 1 < |s| then s[i + 1] else none
  }

  /** The ids `s` are linked in order through `a`, and the last one ends the list. */
  ghost predicate Chain(a: seq<int>, none: int, s: seq<nat>) {
    && NoDuplicates(s)
    && (forall i :: 0 <= i < |s| ==> s[i] < |a|)
    && (forall i :: 0 <= i < |s| ==> a[s[i]] == LinkOf(none, s, i))
  }

  /** A list is not disturbed by changes at ids it does not hold. */
  lemma ChainFrame(a: seq<int>, b: seq<int>, none: int, s: seq<nat>, changed: seq<nat>)
    requires Chain(a, none, s) && |a| <= |b| && forall i :: 0 <= i < |a| && i !in changed ==> b[i] == a[i]
    requires forall q :: q in s ==> q !in changed
    ensures Chain(b, none, s)
  {
  }

  lemma Link(a: seq<int>, none: int, s: seq<nat>, i: nat)
    requires Chain(a, none, s) && i < |s|
    ensures s[i] < |a| && a[s[i]] == LinkOf(none, s, i)
  {
  }

  lemma PrependChain(a: seq<int>, none: int, s: seq<nat>, id: nat)
    requires Chain(a, none, s) && id < |a| && id !in s
    ensures Chain(a[id := if s == [] then none else s[0]], none, [id] + s)
  {
    hide NoDuplicates;
    var b, t := a[id := if s == [] then none else s[0]], [id] + s;
    forall i | 0 <= i < |t| ensures t[i] < |b| && b[t[i]] == LinkOf(none, t, i) {
      PrependLink(a, none, s, id, i);
    }
    PrependDistinct(s, id);
  }

  lemma PrependLink(a: seq<int>, none: int, s: seq<nat>, id: nat, i: nat)
    requires Chain(a, none, s) && id < |a| && id !in s && i <= |s|
    ensures var b, t := a[id := if s == [] then none else s[0]], [id] + s;
      t[i] < |b| && b[t[i]] == LinkOf(none, t, i)
  {
    hide Chain;
    if i > 0 {
      Link(a, none, s, i - 1);
      assert s[i - 1] in s;
    }
  }

  lemma PrependDistinct(s: seq<nat>, id: nat)
    requires NoDuplicates(s) && id !in s
    ensures NoDuplicates([id] + s)
  {
    var t := [id] + s;
    forall i, j | 0 <= i < j < |t| ensures t[i] != t[j] {
      assert t[j] == s[j - 1] && t[j] in s;
      if i > 0 {
        assert t[i] == s[i - 1];
      }
    }
  }

  lemma TailChain(a: seq<int>, none: int, s: seq<nat>)
    requires Chain(a, none, s) && s != []
    ensures Chain(a, none, s[1..]) && a[s[0]] == if |s| > 1 then s[1] else none
  {
    Link(a, none, s, 0);
    var t := s[1..];
    forall i | 0 <= i < |t| ensures t[i] < |a| && a[t[i]] == LinkOf(none, t, i) {
      Link(a, none, s, i + 1);
    }
    forall i, j | 0 <= i < j < |t| ensures t[i] != t[j] {
      assert t[i] == s[i + 1] && t[j] == s[j + 1];
    }
  }

  lemma JoinChain(a: seq<int>, none: int, s: seq<nat>, t: seq<nat>)
    requires Chain(a, none, s) && Chain(a, none, t) && s != [] && t != [] && forall q :: q in s ==> q !in t
    ensures Chain(a[s[|s| - 1] := t[0]], none, s + t)
  {
    var b, u := a[s[|s| - 1] := t[0]], s + t;
    forall i | 0 <= i < |u| ensures u[i] < |b| && b[u[i]] == LinkOf(none, u, i) {
      if i < |s| {
        Link(a, none, s, i);
      } else {
        Link(a, none, t, i - |s|);
        assert u[i] in t && s[|s| - 1] in s;
      }
    }
    assert NoDuplicates(u) by {
      forall i, j | 0 <= i < j < |u| ensures u[i] != u[j] {
        if i < |s| <= j {
          assert u[i] in s && u[j] in t;
        }
      }
    }
  }

  /** Two lists with the same first element are the same. */
  lemma ChainUnique(a: seq<int>, none: int, s: seq<nat>, t: seq<nat>)
    requires Chain(a, none, s) && Chain(a, none, t) && |a| <= none && s != [] && t != [] && s[0] == t[0]
    ensures s == t
  {
    hide Chain;
    assert s[..|s|] == s && t[..|t|] == t;
    SamePrefix(a, none, s, t, |s|);
    SamePrefix(a, none, t, s, |t|);
  }

  lemma SamePrefix(a: seq<int>, none: int, s: seq<nat>, t: seq<nat>, k: nat)
    requires Chain(a, none, s) && Chain(a, none, t) && |a| <= none && s != [] && t != [] && s[0] == t[0] && k <= |s|
    ensures k <= |t| && s[..k] == t[..k]
  {
    hide Chain, NoDuplicates;
    if k > 0 {
      SamePrefix(a, none, s, t, k - 1);
      if k > 1 {
        Link(a, none, s, k - 1);
        assert s[k - 2] == s[..k - 1][k - 2] == t[..k - 1][k - 2] == t[k - 2];
        Link(a, none, s, k - 2);
        Link(a, none, t, k - 2);
      }
      assert s[..k] == s[..k - 1] + [s[k - 1]];
      assert t[..k] == t[..k - 1] + [t[k - 1]];
    }
  }

  lemma AppendChain(a: seq<int>, none: int, s: seq<nat>, id: nat)
    requires Chain(a, none, s) && s != [] && id < |a| && id !in s
    ensures Chain(a[s[|s| - 1] := id][id := none], none, s + [id])
  {
  }

  lemma LinksNonNegative(a: seq<int>, none: int, s: seq<nat>)
    requires Chain(a, none, s) && none >= 0
    ensures forall q :: q in s ==> q < |a| && a[q] >= 0
  {
  }
}
